/** The rules of the deployment manager (internal/manager/manager.go) that do not drive Docker:
    merging variables, URL normalisation, the environment and instance-type selections of
    `ListBackups`, `ListVariables`, `Destroy` and `Deploy`, `GetApplication`, and database network
    access, which records whitelisted addresses and edits the firewall. */
module Manager {
  import opened Wrappers
  import opened Text
  import opened Uuids
  import opened Seqs
  import opened Types
  import opened Secrets
  import opened Backups
  import opened Domains
  import Applications
  import Firewall

  // ----- mergeSecrets -----

  /** Whether some new variable has the key. */
  predicate HasKey(newVars: seq<CreateSecretParams>, name: string)
  {
    exists k :: 0 <= k < |newVars| && newVars[k].key == name
  }

  /** A stored secret as creation parameters. */
  function AsParams(s: Secret): CreateSecretParams
  {
    CreateSecretParams(s.name, s.value, s.environment, s.instanceType, s.applicationId)
  }

  /** The old secrets `mergeSecrets` keeps, in their order: those whose name no new key has. */
  function Kept(oldVars: seq<Secret>, newVars: seq<CreateSecretParams>): seq<CreateSecretParams>
  {
    if oldVars == [] then []
    else
      var last := oldVars[|oldVars| - 1];
      Kept(oldVars[..|oldVars| - 1], newVars) + (if HasKey(newVars, last.name) then [] else [AsParams(last)])
  }

  function AllParams(oldVars: seq<Secret>): seq<CreateSecretParams>
  {
    seq(|oldVars|, i requires 0 <= i < |oldVars| => AsParams(oldVars[i]))
  }

  function KeyAbsent(newVars: seq<CreateSecretParams>): CreateSecretParams -> bool
  {
    (p: CreateSecretParams) => !HasKey(newVars, p.key)
  }

  /** The kept secrets are the old ones, in order, less those a new variable overrides. */
  lemma {:induction false} KeptIsFilter(oldVars: seq<Secret>, newVars: seq<CreateSecretParams>)
    ensures Kept(oldVars, newVars) == Filter(AllParams(oldVars), KeyAbsent(newVars))
  {
    if oldVars != [] {
      var n := |oldVars| - 1;
      KeptIsFilter(oldVars[..n], newVars);
      assert AllParams(oldVars) == AllParams(oldVars[..n]) + [AsParams(oldVars[n])];
      FilterAppend(AllParams(oldVars[..n]), [AsParams(oldVars[n])], KeyAbsent(newVars));
    }
  }

  /** `mergeSecrets`: every new variable, unchanged and in order, then every old secret whose name
      no new key has, in order; a new key is never overridden or duplicated by an old one. */
  lemma MergedSpec(oldVars: seq<Secret>, newVars: seq<CreateSecretParams>, o: Secret)
    ensures var merged := newVars + Kept(oldVars, newVars);
      merged[..|newVars|] == newVars &&
      IsSublist(Kept(oldVars, newVars), AllParams(oldVars)) &&
      (o in oldVars ==> (AsParams(o) in merged[|newVars|..] <==> !HasKey(newVars, o.name))) &&
      forall i :: |newVars| <= i < |merged| ==> !HasKey(newVars, merged[i].key)
  {
    var merged := newVars + Kept(oldVars, newVars);
    KeptIsFilter(oldVars, newVars);
    FilterIsSublist(AllParams(oldVars), KeyAbsent(newVars));
    FilterMembers(AllParams(oldVars), KeyAbsent(newVars), AsParams(o));
    assert merged[|newVars|..] == Kept(oldVars, newVars);
    if o in oldVars {
      var k :| 0 <= k < |oldVars| && oldVars[k] == o;
      assert AllParams(oldVars)[k] == AsParams(o);
    }
    forall i | |newVars| <= i < |merged|
      ensures !HasKey(newVars, merged[i].key)
    {
      assert merged[i] == Kept(oldVars, newVars)[i - |newVars|];
    }
  }

  /** The nested search loops of `mergeSecrets`. */
  method MergeSecrets(oldVars: seq<Secret>, newVars: seq<CreateSecretParams>) returns (merged: seq<CreateSecretParams>)
    ensures merged == newVars + Kept(oldVars, newVars)
  {
    merged := newVars;
    for i := 0 to |oldVars|
      invariant merged == newVars + Kept(oldVars[..i], newVars)
    {
      var nextOldVar := oldVars[i];
      var found := false;
      for j := 0 to |newVars|
        invariant !found
        invariant forall k :: 0 <= k < j ==> newVars[k].key != nextOldVar.name
      {
        if newVars[j].key == nextOldVar.name {
          found := true;
          break;
        }
      }
      assert found == HasKey(newVars, nextOldVar.name);
      assert oldVars[..i + 1][..i] == oldVars[..i];
      if !found {
        merged := merged + [AsParams(nextOldVar)];
      }
    }
    assert oldVars[..|oldVars|] == oldVars;
  }

  // ----- toURL -----

  /** `toURL`: a string that starts with "https" is kept, any other gets "https://" in front. */
  function ToURL(s: string): (u: string)
    ensures HasPrefix(u, "https")
    ensures |s| <= |u| && u[|u| - |s|..] == s
  {
    if HasPrefix(s, "https") then s else "https://" + s
  }

  /** Normalising twice is normalising once. */
  lemma ToURLIdempotent(s: string)
    ensures ToURL(ToURL(s)) == ToURL(s)
  {
  }

  // ----- selections -----

  function DeploymentIn(environment: string): Deployment -> bool
  {
    (d: Deployment) => d.environment == environment
  }

  function OfType(instanceType: InstanceType): Deployment -> bool
  {
    (d: Deployment) => d.instanceType == instanceType
  }

  /** `findDeploymentsByInstanceType`. */
  function DeploymentsOfType(deps: seq<Deployment>, instanceType: InstanceType): seq<Deployment>
  {
    Filter(deps, OfType(instanceType))
  }

  function BackupIn(environment: string): Backup -> bool
  {
    (b: Backup) => b.environment == environment
  }

  /** `ListBackups` over the fetched backups: all of them for an empty environment, otherwise
      those of the environment. */
  function ListBackups(data: Result<seq<Backup>>, environment: string): Result<seq<Backup>>
  {
    var backups :- data;
    if environment == "" then Ok(backups) else Ok(Filter(backups, BackupIn(environment)))
  }

  /** A fetch error is returned; with an environment exactly its backups are listed, in order. */
  lemma ListBackupsSpec(data: Result<seq<Backup>>, environment: string, b: Backup)
    ensures data.Err? ==> ListBackups(data, environment) == Err(data.error)
    ensures data.Ok? && environment == "" ==> ListBackups(data, environment) == data
    ensures data.Ok? && environment != "" ==>
      var r := ListBackups(data, environment).value;
      (b in r <==> b in data.value && b.environment == environment) && IsSublist(r, data.value)
  {
    if data.Ok? {
      FilterMembers(data.value, BackupIn(environment), b);
      FilterIsSublist(data.value, BackupIn(environment));
    }
  }

  datatype VarResponse = VarResponse(id: Uuid, name: string, value: string, environment: string)

  function SecretIn(environment: string): Secret -> bool
  {
    (s: Secret) => s.environment == environment
  }

  function Responses(ss: seq<Secret>): (r: seq<VarResponse>)
    ensures |r| == |ss|
  {
    seq(|ss|, i requires 0 <= i < |ss| => VarResponse(ss[i].id, ss[i].name, ss[i].value, ss[i].environment))
  }

  /** `ListVariables` over the decrypted secrets: with no environment, or an empty one, all of
      them; otherwise those of the environment; each as its id, name, value and environment. */
  function ListVariables(secrets: Result<seq<Secret>>, environment: Option<string>): Result<seq<VarResponse>>
  {
    var all :- secrets;
    var filtered := if environment.Some? && environment.value != "" then Filter(all, SecretIn(environment.value)) else all;
    Ok(Responses(filtered))
  }

  lemma ListVariablesSpec(secrets: Result<seq<Secret>>, environment: Option<string>, v: VarResponse)
    ensures secrets.Err? ==> ListVariables(secrets, environment).Err?
    ensures secrets.Ok? && (environment.None? || environment.value == "") ==>
      ListVariables(secrets, environment) == Ok(Responses(secrets.value))
    ensures secrets.Ok? && environment.Some? && environment.value != "" ==>
      (v in ListVariables(secrets, environment).value <==>
        exists s :: s in secrets.value && s.environment == environment.value && v == VarResponse(s.id, s.name, s.value, s.environment))
  {
    if secrets.Ok? && environment.Some? && environment.value != "" {
      var filtered := Filter(secrets.value, SecretIn(environment.value));
      var r := Responses(filtered);
      if v in r {
        var i :| 0 <= i < |r| && r[i] == v;
        FilterMembers(secrets.value, SecretIn(environment.value), filtered[i]);
      }
      if exists s :: s in secrets.value && s.environment == environment.value && v == VarResponse(s.id, s.name, s.value, s.environment) {
        var s :| s in secrets.value && s.environment == environment.value && v == VarResponse(s.id, s.name, s.value, s.environment);
        FilterMembers(secrets.value, SecretIn(environment.value), s);
        var i :| 0 <= i < |filtered| && filtered[i] == s;
        assert r[i] == v;
      }
    }
  }

  // ----- Destroy -----

  /** What `Destroy` acts on: the deployments it selects, split by instance type, the backend
      containers it stops, and the database containers, one per engine and distinct environment. */
  datatype DestroyPlan = DestroyPlan(
    backends: seq<Deployment>,
    frontends: seq<Deployment>,
    databases: seq<Deployment>,
    backendContainers: set<string>,
    databaseContainers: set<string>)

  function Selected(all: seq<Deployment>, environment: string): seq<Deployment>
  {
    if environment == "" then all else Filter(all, DeploymentIn(environment))
  }

  function PlanDestroy(app: Application, all: seq<Deployment>, environment: string): DestroyPlan
  {
    var toDestroy := Selected(all, environment);
    var backends := DeploymentsOfType(toDestroy, InstanceTypeBackend);
    DestroyPlan(
      backends,
      DeploymentsOfType(toDestroy, InstanceTypeFrontend),
      DeploymentsOfType(toDestroy, InstanceTypeDatabase),
      set d, i | d in backends && 0 <= i < d.instances :: ContainerName(d, i),
      set se, d | se in app.storageEngines && d in toDestroy :: se + "-" + app.name + "-" + d.environment)
  }

  /** A deployment is selected when the environment is empty or its own, and lands in the list
      of its instance type. */
  lemma PlanDestroySelects(app: Application, all: seq<Deployment>, environment: string, d: Deployment)
    ensures var plan := PlanDestroy(app, all, environment);
      var chosen := d in all && (environment == "" || d.environment == environment);
      (d in plan.backends <==> chosen && d.instanceType == InstanceTypeBackend) &&
      (d in plan.frontends <==> chosen && d.instanceType == InstanceTypeFrontend) &&
      (d in plan.databases <==> chosen && d.instanceType == InstanceTypeDatabase)
  {
    var toDestroy := Selected(all, environment);
    if environment != "" {
      FilterMembers(all, DeploymentIn(environment), d);
    }
    FilterMembers(toDestroy, OfType(InstanceTypeBackend), d);
    FilterMembers(toDestroy, OfType(InstanceTypeFrontend), d);
    FilterMembers(toDestroy, OfType(InstanceTypeDatabase), d);
  }

  /** Every instance container of a selected backend is stopped. */
  lemma PlanDestroyStopsInstances(app: Application, all: seq<Deployment>, environment: string, d: Deployment, i: int)
    requires d in all && (environment == "" || d.environment == environment) && d.instanceType == InstanceTypeBackend
    requires 0 <= i < d.instances
    ensures ContainerName(d, i) in PlanDestroy(app, all, environment).backendContainers
  {
    PlanDestroySelects(app, all, environment, d);
  }

  /** The database container stopped for an engine and a selected deployment's environment is the
      name the database provider gave it. */
  lemma PlanDestroyStopsDatabases(app: Application, all: seq<Deployment>, environment: string, se: string, d: Deployment)
    requires se in app.storageEngines && d in all && (environment == "" || d.environment == environment)
    requires d.application.name == app.name
    ensures DatabaseContainerName(se, d) in PlanDestroy(app, all, environment).databaseContainers
  {
    if environment != "" {
      FilterMembers(all, DeploymentIn(environment), d);
    }
    assert d in Selected(all, environment);
  }

  /** No other database container is stopped: each stopped name is an engine of the application
      and the environment of a selected deployment. */
  lemma PlanDestroyDatabasesOnly(app: Application, all: seq<Deployment>, environment: string, name: string)
    requires name in PlanDestroy(app, all, environment).databaseContainers
    ensures exists se, d :: se in app.storageEngines && d in all && (environment == "" || d.environment == environment) &&
                            name == se + "-" + app.name + "-" + d.environment
  {
    var se, d :| se in app.storageEngines && d in Selected(all, environment) && name == se + "-" + app.name + "-" + d.environment;
    if environment != "" {
      FilterMembers(all, DeploymentIn(environment), d);
    }
  }

  // ----- Deploy's domain collection -----

  function Urls(ds: seq<Domain>): (r: seq<string>)
    ensures |r| == |ds|
  {
    seq(|ds|, i requires 0 <= i < |ds| => ToURL(ds[i].name))
  }

  /** One more domain extends the collected URLs by its own when it has the environment and type. */
  lemma UrlsStep(domains: seq<Domain>, i: nat, p: Domain -> bool)
    requires i < |domains|
    ensures Urls(Filter(domains[..i + 1], p)) ==
      Urls(Filter(domains[..i], p)) + (if p(domains[i]) then [ToURL(domains[i].name)] else [])
  {
    assert domains[..i + 1] == domains[..i] + [domains[i]];
    FilterAppend(domains[..i], [domains[i]], p);
    var a := Filter(domains[..i], p);
    var b := Filter([domains[i]], p);
    assert Urls(a + b) == Urls(a) + Urls(b);
  }

  /** The domain loop of `Deploy`: each custom domain of the environment is added, normalised, to
      the frontend or the backend URL list according to its instance type. */
  method CollectDomainUrls(domains: seq<Domain>, environment: string, fe0: seq<string>, be0: seq<string>)
    returns (fe: seq<string>, be: seq<string>)
    ensures fe == fe0 + Urls(Filter(domains, InEnvironmentOfType(environment, InstanceTypeFrontend)))
    ensures be == be0 + Urls(Filter(domains, InEnvironmentOfType(environment, InstanceTypeBackend)))
  {
    var pf := InEnvironmentOfType(environment, InstanceTypeFrontend);
    var pb := InEnvironmentOfType(environment, InstanceTypeBackend);
    fe, be := fe0, be0;
    for i := 0 to |domains|
      invariant fe == fe0 + Urls(Filter(domains[..i], pf))
      invariant be == be0 + Urls(Filter(domains[..i], pb))
    {
      var dom := domains[i];
      UrlsStep(domains, i, pf);
      UrlsStep(domains, i, pb);
      if dom.instanceType == InstanceTypeFrontend && dom.environment == environment {
        fe := fe + [ToURL(dom.name)];
      }
      if dom.instanceType == InstanceTypeBackend && dom.environment == environment {
        be := be + [ToURL(dom.name)];
      }
    }
    assert domains[..|domains|] == domains;
  }

  /** A URL is collected for a type exactly when some domain of that environment and type
      normalises to it. */
  lemma CollectedUrlsSpec(domains: seq<Domain>, environment: string, instanceType: InstanceType, u: string)
    ensures u in Urls(Filter(domains, InEnvironmentOfType(environment, instanceType))) <==>
      exists d :: d in domains && d.environment == environment && d.instanceType == instanceType && u == ToURL(d.name)
  {
    var p := InEnvironmentOfType(environment, instanceType);
    var ds := Filter(domains, p);
    if u in Urls(ds) {
      var i :| 0 <= i < |ds| && Urls(ds)[i] == u;
      FilterMembers(domains, p, ds[i]);
    }
    if exists d :: d in domains && d.environment == environment && d.instanceType == instanceType && u == ToURL(d.name) {
      var d :| d in domains && d.environment == environment && d.instanceType == instanceType && u == ToURL(d.name);
      FilterMembers(domains, p, d);
      var i :| 0 <= i < |ds| && ds[i] == d;
      assert Urls(ds)[i] == u;
    }
  }

  // ----- GetApplication -----

  /** The application service's `Get`: the application with the id. */
  function GetById(apps: seq<Application>, id: Uuid): (r: Result<Application>)
    ensures r.Ok? ==> r.value in apps && r.value.id == id
    ensures r.Err? <==> forall i :: 0 <= i < |apps| ==> apps[i].id != id
  {
    match FirstMatch(apps, (a: Application) => a.id == id)
    case None => Err("record not found")
    case Some(a) => Ok(a)
  }

  /** The application service's `GetByName`: the application with the name. */
  function GetByName(apps: seq<Application>, name: string): (r: Result<Application>)
    ensures r.Ok? ==> r.value in apps && r.value.name == name
    ensures r.Err? <==> forall i :: 0 <= i < |apps| ==> apps[i].name != name
  {
    match FirstMatch(apps, (a: Application) => a.name == name)
    case None => Err("record not found")
    case Some(a) => Ok(a)
  }

  /** `GetApplication`: one of the id and the name is required, and the id wins when both are
      given. */
  function GetApplication(apps: seq<Application>, applicationId: Option<Uuid>, name: Option<string>): (r: Result<Application>)
    ensures applicationId.None? && name.None? ==> r.Err?
    ensures applicationId.Some? ==>
      (r.Ok? <==> exists i :: 0 <= i < |apps| && apps[i].id == applicationId.value) &&
      (r.Ok? ==> r.value in apps && r.value.id == applicationId.value)
    ensures applicationId.None? && name.Some? ==>
      (r.Ok? <==> exists i :: 0 <= i < |apps| && apps[i].name == name.value) &&
      (r.Ok? ==> r.value in apps && r.value.name == name.value)
  {
    if applicationId.None? && name.None? then Err("applicationID or name is required")
    else if applicationId.Some? then GetById(apps, applicationId.value)
    else GetByName(apps, name.value)
  }

  // ----- database network access -----

  const OpAdd: string := "add"
  const OpRemove: string := "remove"

  datatype NetworkAccess = NetworkAccess(id: Uuid, applicationId: Uuid, ip: string, port: string, environment: string)

  function WithIp(ip: string): NetworkAccess -> bool
  {
    (n: NetworkAccess) => n.ip == ip
  }

  /** The repository's `FindByIP` as written: it builds the result and then returns nil in its
      place, so every lookup comes back empty. */
  function FindByIPAsWritten(records: seq<NetworkAccess>, ip: string): (r: seq<NetworkAccess>)
    ensures r == []
  {
    []
  }

  /** The repository's `FindByIP` as intended: the records with the address, in order. */
  function FindByIP(records: seq<NetworkAccess>, ip: string): seq<NetworkAccess>
  {
    Filter(records, WithIp(ip))
  }

  /** Whether a record for the address and environment is among `nas`. */
  predicate Recorded(nas: seq<NetworkAccess>, ip: string, environment: string)
  {
    exists k :: 0 <= k < |nas| && nas[k].ip == ip && nas[k].environment == environment
  }

  /** The record `handleIpBlacklist` settles on: the last one for the address and environment. */
  function LastRecorded(nas: seq<NetworkAccess>, ip: string, environment: string): (r: Option<NetworkAccess>)
    ensures r.None? <==> !Recorded(nas, ip, environment)
    ensures r.Some? ==> r.value in nas && r.value.ip == ip && r.value.environment == environment
  {
    if nas == [] then None
    else
      var last := nas[|nas| - 1];
      if last.ip == ip && last.environment == environment then Some(last)
      else
        var r := LastRecorded(nas[..|nas| - 1], ip, environment);
        assert forall k :: 0 <= k < |nas| - 1 ==> nas[..|nas| - 1][k] == nas[k];
        r
  }

  /** The ports of the database deployments parsed in order, up to the first that `strconv.Atoi`
      rejects, with that error. */
  function Ports(ds: seq<Deployment>): (r: (seq<int>, Option<string>))
    ensures |r.0| <= |ds|
    ensures r.1.None? ==> |r.0| == |ds|
  {
    if ds == [] then ([], None)
    else
      var (ports, fault) := Ports(ds[..|ds| - 1]);
      if fault.Some? then (ports, fault)
      else match Atoi(ds[|ds| - 1].port)
        case Ok(v) => (ports + [v], None)
        case Err(e) => (ports, Some(e))
  }

  /** Once a port fails to parse, later deployments are not looked at. */
  lemma {:induction false} PortsStopAtError(ds: seq<Deployment>, k: nat)
    requires k <= |ds| && Ports(ds[..k]).1.Some?
    ensures Ports(ds) == Ports(ds[..k])
    decreases |ds|
  {
    if k < |ds| {
      var n := |ds| - 1;
      assert ds[..n][..k] == ds[..k];
      PortsStopAtError(ds[..n], k);
    } else {
      assert ds[..k] == ds;
    }
  }

  /** Go's `uint(p)` on a 64-bit platform. */
  function Uint(p: int): nat
  {
    p % 0x1_0000_0000_0000_0000
  }

  /** The accept rules one whitelisting adds, one per parsed port, in order. */
  function AcceptRules(ports: seq<int>, a: seq<byte>): (r: seq<Firewall.Rule>)
    ensures |r| == |ports|
  {
    seq(|ports|, i requires 0 <= i < |ports| => Firewall.AcceptRule(Uint(ports[i]), a))
  }

  /** The database deployments network access applies to: the active ones of the environment. */
  function DatabaseDeployments(deployments: seq<Deployment>, applicationId: Uuid, environment: string): seq<Deployment>
  {
    Filter(Filter(Filter(deployments, Applications.OfApplication(applicationId)),
                  Applications.ActiveOfType(InstanceTypeDatabase)),
           DeploymentIn(environment))
  }

  /** The state after `handleIpWhiteList`: records, firewall rules and outcome. A recorded pair is
      refused; with no database deployment nothing happens; otherwise each deployment's port gets
      an accept rule until one fails to parse, and the address is recorded when none does. */
  function Whitelist(records: seq<NetworkAccess>, rules: seq<Firewall.Rule>, enabled: bool, nas: seq<NetworkAccess>,
                     dbDep: seq<Deployment>, applicationId: Uuid, environment: string, ip: string, a: seq<byte>,
                     newId: Uuid): (seq<NetworkAccess>, seq<Firewall.Rule>, Outcome)
  {
    if Recorded(nas, ip, environment) then (records, rules, Fail("IP already whitelisted"))
    else if dbDep == [] then (records, rules, Fail("no active database deployment found for this environment"))
    else
      var (ports, fault) := Ports(dbDep);
      var rules' := if enabled then rules + AcceptRules(ports, a) else rules;
      if fault.Some? then (records, rules', Fail("invalid port: " + fault.value))
      else (records + [NetworkAccess(newId, applicationId, ip, "", environment)], rules', Pass)
  }

  function OtherRecord(id: Uuid): NetworkAccess -> bool
  {
    (n: NetworkAccess) => n.id != id
  }

  /** The state after `handleIpBlacklist`: an unrecorded pair is refused; with no database
      deployment nothing happens; otherwise, as soon as one port parses, the address's rules are
      deleted and its last record is removed; a port that fails to parse ends the run. */
  function Blacklist(records: seq<NetworkAccess>, rules: seq<Firewall.Rule>, enabled: bool, nas: seq<NetworkAccess>,
                     dbDep: seq<Deployment>, environment: string, ip: string, a: seq<byte>)
    : (seq<NetworkAccess>, seq<Firewall.Rule>, Outcome)
  {
    var na := LastRecorded(nas, ip, environment);
    if na.None? then (records, rules, Fail("IP is not whitelisted for this application: " + ip))
    else if dbDep == [] then (records, rules, Fail("no active database deployment found for this environment: " + environment))
    else
      var (ports, fault) := Ports(dbDep);
      var touched := |ports| > 0;
      var rules' := if enabled && touched then Firewall.Remaining(rules, a) else rules;
      var records' := if touched then Filter(records, OtherRecord(na.value.id)) else records;
      (records', rules', if fault.Some? then Fail("invalid port: " + fault.value) else Pass)
  }

  /** The state after `ManageDatabaseNetworkAccess`: an address that does not parse is refused
      first, then the operation decides between whitelisting and blacklisting. */
  function Manage(records: seq<NetworkAccess>, rules: seq<Firewall.Rule>, enabled: bool, parseIp: Firewall.IPParser,
                  deployments: seq<Deployment>, applicationId: Uuid, environment: string, ip: string, op: string,
                  newId: Uuid): (seq<NetworkAccess>, seq<Firewall.Rule>, Outcome)
  {
    if parseIp(ip).None? then (records, rules, Fail("invalid IP: " + ip))
    else
      var a := Firewall.To4(parseIp(ip).value);
      var nas := FindByIP(records, ip);
      var dbDep := DatabaseDeployments(deployments, applicationId, environment);
      if op == OpAdd then Whitelist(records, rules, enabled, nas, dbDep, applicationId, environment, ip, a, newId)
      else if op == OpRemove then Blacklist(records, rules, enabled, nas, dbDep, environment, ip, a)
      else (records, rules, Fail("unknown operation: " + op))
  }

  lemma FindByIPRecorded(records: seq<NetworkAccess>, ip: string, environment: string)
    ensures Recorded(FindByIP(records, ip), ip, environment) <==> Recorded(records, ip, environment)
  {
    var nas := FindByIP(records, ip);
    if Recorded(records, ip, environment) {
      var k :| 0 <= k < |records| && records[k].ip == ip && records[k].environment == environment;
      FilterMembers(records, WithIp(ip), records[k]);
    }
    if Recorded(nas, ip, environment) {
      var k :| 0 <= k < |nas| && nas[k].ip == ip && nas[k].environment == environment;
      FilterMembers(records, WithIp(ip), nas[k]);
    }
  }

  /** An address that does not parse is refused and nothing changes. */
  lemma ManageRejectsBadIp(records: seq<NetworkAccess>, rules: seq<Firewall.Rule>, enabled: bool, parseIp: Firewall.IPParser,
                           deployments: seq<Deployment>, applicationId: Uuid, environment: string, ip: string, op: string,
                           newId: Uuid)
    requires parseIp(ip).None?
    ensures var (records', rules', r) := Manage(records, rules, enabled, parseIp, deployments, applicationId, environment, ip, op, newId);
      r.Fail? && records' == records && rules' == rules
  {
  }

  /** Whitelisting an address already recorded for the environment fails and changes nothing. */
  lemma WhitelistDuplicateFails(records: seq<NetworkAccess>, rules: seq<Firewall.Rule>, enabled: bool,
                                parseIp: Firewall.IPParser, deployments: seq<Deployment>, applicationId: Uuid,
                                environment: string, ip: string, newId: Uuid)
    requires Recorded(records, ip, environment)
    ensures var (records', rules', r) := Manage(records, rules, enabled, parseIp, deployments, applicationId, environment, ip, OpAdd, newId);
      r.Fail? && records' == records && rules' == rules
  {
    FindByIPRecorded(records, ip, environment);
  }

  /** Blacklisting an address not recorded for the environment fails and changes nothing. */
  lemma BlacklistMissingFails(records: seq<NetworkAccess>, rules: seq<Firewall.Rule>, enabled: bool,
                              parseIp: Firewall.IPParser, deployments: seq<Deployment>, applicationId: Uuid,
                              environment: string, ip: string, newId: Uuid)
    requires !Recorded(records, ip, environment)
    ensures var (records', rules', r) := Manage(records, rules, enabled, parseIp, deployments, applicationId, environment, ip, OpRemove, newId);
      r.Fail? && records' == records && rules' == rules
  {
    FindByIPRecorded(records, ip, environment);
  }

  /** A successful whitelisting records the pair once and adds one accept rule for the address per
      database deployment, each on that deployment's port. */
  lemma WhitelistSucceeds(records: seq<NetworkAccess>, rules: seq<Firewall.Rule>, enabled: bool,
                          parseIp: Firewall.IPParser, deployments: seq<Deployment>, applicationId: Uuid,
                          environment: string, ip: string, newId: Uuid)
    requires Manage(records, rules, enabled, parseIp, deployments, applicationId, environment, ip, OpAdd, newId).2 == Pass
    ensures parseIp(ip).Some? && !Recorded(records, ip, environment)
    ensures var (records', rules', _) := Manage(records, rules, enabled, parseIp, deployments, applicationId, environment, ip, OpAdd, newId);
      var dbDep := DatabaseDeployments(deployments, applicationId, environment);
      var a := Firewall.To4(parseIp(ip).value);
      records' == records + [NetworkAccess(newId, applicationId, ip, "", environment)] &&
      |dbDep| > 0 &&
      (enabled ==> |rules'| == |rules| + |dbDep| && rules'[..|rules|] == rules &&
                   forall i :: 0 <= i < |dbDep| ==> Atoi(dbDep[i].port).Ok? && rules'[|rules| + i] == Firewall.AcceptRule(Uint(Atoi(dbDep[i].port).value), a))
  {
    FindByIPRecorded(records, ip, environment);
    var dbDep := DatabaseDeployments(deployments, applicationId, environment);
    PortsAllParsed(dbDep);
  }

  /** When every port parses, the parsed ports are the deployments' ports in order. */
  lemma {:induction false} PortsAllParsed(ds: seq<Deployment>)
    requires Ports(ds).1.None?
    ensures forall i :: 0 <= i < |ds| ==> Atoi(ds[i].port).Ok? && Ports(ds).0[i] == Atoi(ds[i].port).value
  {
    if ds != [] {
      var n := |ds| - 1;
      PortsAllParsed(ds[..n]);
      forall i | 0 <= i < n
        ensures ds[..n][i] == ds[i]
      {
      }
    }
  }

  /** Blacklisting a recorded pair whose deployments' ports all parse removes its record and every
      rule mentioning the address. */
  lemma BlacklistSucceeds(records: seq<NetworkAccess>, rules: seq<Firewall.Rule>, enabled: bool, nas: seq<NetworkAccess>,
                          dbDep: seq<Deployment>, environment: string, ip: string, a: seq<byte>)
    requires LastRecorded(nas, ip, environment).Some? && dbDep != [] && Ports(dbDep).1.None?
    ensures Blacklist(records, rules, enabled, nas, dbDep, environment, ip, a) ==
      (Filter(records, OtherRecord(LastRecorded(nas, ip, environment).value.id)),
       if enabled then Firewall.Remaining(rules, a) else rules, Pass)
  {
  }

  /** Whitelisting a new pair and then blacklisting it restores the records (when the new record's
      id is fresh) and leaves no firewall rule that mentions the address. */
  lemma WhitelistThenBlacklist(records: seq<NetworkAccess>, rules: seq<Firewall.Rule>, parseIp: Firewall.IPParser,
                               deployments: seq<Deployment>, applicationId: Uuid, environment: string, ip: string,
                               newId: Uuid, otherId: Uuid)
    requires Manage(records, rules, true, parseIp, deployments, applicationId, environment, ip, OpAdd, newId).2 == Pass
    requires forall k :: 0 <= k < |records| ==> records[k].id != newId
    ensures var first := Manage(records, rules, true, parseIp, deployments, applicationId, environment, ip, OpAdd, newId);
      var second := Manage(first.0, first.1, true, parseIp, deployments, applicationId, environment, ip, OpRemove, otherId);
      second.2 == Pass && second.0 == records &&
      forall i :: 0 <= i < |second.1| ==> !Firewall.Mentions(second.1[i], Firewall.To4(parseIp(ip).value))
  {
    WhitelistSucceeds(records, rules, true, parseIp, deployments, applicationId, environment, ip, newId);
    var first := Manage(records, rules, true, parseIp, deployments, applicationId, environment, ip, OpAdd, newId);
    var a := Firewall.To4(parseIp(ip).value);
    var added := NetworkAccess(newId, applicationId, ip, "", environment);
    var dbDep := DatabaseDeployments(deployments, applicationId, environment);
    assert first.0 == records + [added];
    var nas := FindByIP(first.0, ip);
    FilterAppend(records, [added], WithIp(ip));
    assert nas[|nas| - 1] == added;
    assert LastRecorded(nas, ip, environment) == Some(added);
    assert Ports(dbDep).1.None?;
    BlacklistSucceeds(first.0, first.1, true, nas, dbDep, environment, ip, a);
    FilterAppend(records, [added], OtherRecord(newId));
    FilterAll(records, OtherRecord(newId));
  }

  /** As written, the lookup finds nothing, so blacklisting any address always fails, however it
      was whitelisted, and whitelisting never sees a duplicate. */
  lemma AsWrittenBlacklistAlwaysFails(records: seq<NetworkAccess>, rules: seq<Firewall.Rule>, enabled: bool,
                                      deployments: seq<Deployment>, environment: string, ip: string, a: seq<byte>)
    ensures !Recorded(FindByIPAsWritten(records, ip), ip, environment)
    ensures var (records', rules', r) := Blacklist(records, rules, enabled, FindByIPAsWritten(records, ip), deployments, environment, ip, a);
      r.Fail? && records' == records && rules' == rules
  {
  }

  /** A concrete table where the written lookup and the intended one disagree. */
  lemma AsWrittenMissesRecord()
    ensures var records := [NetworkAccess(NilUuid, NilUuid, "10.0.0.1", "", "staging")];
      FindByIPAsWritten(records, "10.0.0.1") == [] && Recorded(FindByIP(records, "10.0.0.1"), "10.0.0.1", "staging")
  {
    var records := [NetworkAccess(NilUuid, NilUuid, "10.0.0.1", "", "staging")];
    FindByIPRecorded(records, "10.0.0.1", "staging");
    assert Recorded(records, "10.0.0.1", "staging") by {
      assert records[0].ip == "10.0.0.1";
    }
  }

  /** Every record has the nil id: what `handleIpWhiteList` as written leaves, since the record
      it saves sets no `ID` and nothing else assigns one. */
  predicate AllNilIds(records: seq<NetworkAccess>)
  {
    forall k :: 0 <= k < |records| ==> records[k].id == NilUuid
  }

  /** No two records share an id: what the intended `ID: uuid.New()` gives. */
  predicate UniqueIds(records: seq<NetworkAccess>)
  {
    forall i, j :: 0 <= i < j < |records| ==> records[i].id != records[j].id
  }

  /** Whitelisting as written, with the nil id, keeps every id nil. */
  lemma AsWrittenIdsStayNil(records: seq<NetworkAccess>, rules: seq<Firewall.Rule>, enabled: bool, nas: seq<NetworkAccess>,
                            dbDep: seq<Deployment>, applicationId: Uuid, environment: string, ip: string, a: seq<byte>)
    requires AllNilIds(records)
    ensures AllNilIds(Whitelist(records, rules, enabled, nas, dbDep, applicationId, environment, ip, a, NilUuid).0)
  {
  }

  /** As written, removing the blacklisted address's record by its (nil) id removes every record. */
  lemma AsWrittenBlacklistDeletesAll(records: seq<NetworkAccess>, rules: seq<Firewall.Rule>, enabled: bool,
                                     dbDep: seq<Deployment>, environment: string, ip: string, a: seq<byte>)
    requires AllNilIds(records) && Recorded(records, ip, environment)
    requires dbDep != [] && Ports(dbDep).1.None?
    ensures Blacklist(records, rules, enabled, FindByIP(records, ip), dbDep, environment, ip, a).0 == []
  {
    var nas := FindByIP(records, ip);
    FindByIPRecorded(records, ip, environment);
    var na := LastRecorded(nas, ip, environment).value;
    FilterMembers(records, WithIp(ip), na);
    var after := Filter(records, OtherRecord(na.id));
    if after != [] {
      FilterMembers(records, OtherRecord(na.id), after[0]);
    }
  }

  /** The concrete case: two addresses whitelisted in "staging"; blacklisting the first also
      deletes the record of the second, which stays whitelisted in the firewall. */
  lemma AsWrittenLosesOtherRecord(rules: seq<Firewall.Rule>, enabled: bool, dbDep: seq<Deployment>, a: seq<byte>)
    requires dbDep != [] && Ports(dbDep).1.None?
    ensures var records := [NetworkAccess(NilUuid, NilUuid, "10.0.0.1", "", "staging"),
                            NetworkAccess(NilUuid, NilUuid, "10.0.0.2", "", "staging")];
      Recorded(records, "10.0.0.2", "staging") &&
      Blacklist(records, rules, enabled, FindByIP(records, "10.0.0.1"), dbDep, "staging", "10.0.0.1", a).0 == []
  {
    var records := [NetworkAccess(NilUuid, NilUuid, "10.0.0.1", "", "staging"),
                    NetworkAccess(NilUuid, NilUuid, "10.0.0.2", "", "staging")];
    assert records[0].ip == "10.0.0.1" && records[0].environment == "staging";
    assert records[1].ip == "10.0.0.2" && records[1].environment == "staging";
    AsWrittenBlacklistDeletesAll(records, rules, enabled, dbDep, "staging", "10.0.0.1", a);
  }

  /** Whitelisting with a fresh id keeps the ids unique. */
  lemma WhitelistKeepsIdsUnique(records: seq<NetworkAccess>, rules: seq<Firewall.Rule>, enabled: bool, nas: seq<NetworkAccess>,
                                dbDep: seq<Deployment>, applicationId: Uuid, environment: string, ip: string, a: seq<byte>,
                                newId: Uuid)
    requires UniqueIds(records) && forall k :: 0 <= k < |records| ==> records[k].id != newId
    ensures UniqueIds(Whitelist(records, rules, enabled, nas, dbDep, applicationId, environment, ip, a, newId).0)
  {
  }

  /** With unique ids, blacklisting removes the address's own record and keeps every other one. */
  lemma BlacklistRemovesOnlyItsRecord(records: seq<NetworkAccess>, rules: seq<Firewall.Rule>, enabled: bool,
                                      dbDep: seq<Deployment>, environment: string, ip: string, a: seq<byte>)
    requires UniqueIds(records) && Recorded(records, ip, environment)
    requires dbDep != [] && Ports(dbDep).1.None?
    ensures LastRecorded(FindByIP(records, ip), ip, environment).Some?
    ensures var na := LastRecorded(FindByIP(records, ip), ip, environment).value;
      var after := Blacklist(records, rules, enabled, FindByIP(records, ip), dbDep, environment, ip, a).0;
      na in records && na !in after &&
      forall k :: 0 <= k < |records| && records[k] != na ==> records[k] in after
  {
    var nas := FindByIP(records, ip);
    FindByIPRecorded(records, ip, environment);
    var na := LastRecorded(nas, ip, environment).value;
    FilterMembers(records, WithIp(ip), na);
    var j :| 0 <= j < |records| && records[j] == na;
    FilterMembers(records, OtherRecord(na.id), na);
    forall k | 0 <= k < |records| && records[k] != na
      ensures records[k] in Filter(records, OtherRecord(na.id))
    {
      assert k != j;
      FilterMembers(records, OtherRecord(na.id), records[k]);
    }
  }

  /** One more deployment whose port parses extends the parsed ports; one that does not records
      its error. */
  lemma PortsStep(ds: seq<Deployment>, i: nat)
    requires i < |ds| && Ports(ds[..i]).1.None?
    ensures Atoi(ds[i].port).Ok? ==> Ports(ds[..i + 1]) == (Ports(ds[..i]).0 + [Atoi(ds[i].port).value], None)
    ensures Atoi(ds[i].port).Err? ==> Ports(ds[..i + 1]) == (Ports(ds[..i]).0, Some(Atoi(ds[i].port).error))
  {
    assert ds[..i + 1][..i] == ds[..i];
  }

  lemma AcceptRulesStep(ports: seq<int>, p: int, a: seq<byte>)
    ensures AcceptRules(ports + [p], a) == AcceptRules(ports, a) + [Firewall.AcceptRule(Uint(p), a)]
  {
  }

  /** Blacklisting twice is blacklisting once. */
  lemma RemainingTwice(rules: seq<Firewall.Rule>, a: seq<byte>)
    ensures Firewall.Remaining(Firewall.Remaining(rules, a), a) == Firewall.Remaining(rules, a)
  {
    FilterAll(Firewall.Remaining(rules, a), Firewall.Unmentioning(a));
  }

  class Manager {
    /** The network-access table. */
    var records: seq<NetworkAccess>
    const firewall: Firewall.Manager
    const apps: Applications.ApplicationService

    constructor (firewall: Firewall.Manager, apps: Applications.ApplicationService)
      ensures this.firewall == firewall && this.apps == apps && records == []
    {
      this.firewall := firewall;
      this.apps := apps;
      records := [];
    }

    /** `ManageDatabaseNetworkAccess`; the address is parsed with the firewall's parser. */
    method ManageDatabaseNetworkAccess(applicationId: Uuid, environment: string, ip: string, op: string, newId: Uuid)
      returns (r: Outcome)
      modifies this, firewall
      ensures (records, firewall.rules, r) ==
        Manage(old(records), old(firewall.rules), firewall.enabled, firewall.parseIp, apps.deployments, applicationId,
               environment, ip, op, newId)
    {
      if firewall.parseIp(ip).None? {
        return Fail("invalid IP: " + ip);
      }
      var nas := FindByIP(records, ip);
      if op == OpAdd {
        r := HandleIpWhiteList(applicationId, nas, environment, ip, newId);
      } else if op == OpRemove {
        r := HandleIpBlacklist(applicationId, nas, environment, ip);
      } else {
        r := Fail("unknown operation: " + op);
      }
    }

    /** The duplicate check of `handleIpWhiteList`. */
    static method IsRecorded(nas: seq<NetworkAccess>, ip: string, environment: string) returns (found: bool)
      ensures found == Recorded(nas, ip, environment)
    {
      for k := 0 to |nas|
        invariant forall m :: 0 <= m < k ==> !(nas[m].ip == ip && nas[m].environment == environment)
      {
        if nas[k].ip == ip && nas[k].environment == environment {
          return true;
        }
      }
      return false;
    }

    /** The search loop of `handleIpBlacklist`: it keeps the last matching record. */
    static method FindLastRecorded(nas: seq<NetworkAccess>, ip: string, environment: string)
      returns (found: bool, na: NetworkAccess)
      ensures found == LastRecorded(nas, ip, environment).Some?
      ensures found ==> na == LastRecorded(nas, ip, environment).value
    {
      found := false;
      na := NetworkAccess(NilUuid, NilUuid, "", "", "");
      for k := 0 to |nas|
        invariant found == LastRecorded(nas[..k], ip, environment).Some?
        invariant found ==> na == LastRecorded(nas[..k], ip, environment).value
      {
        assert nas[..k + 1][..k] == nas[..k];
        if nas[k].ip == ip && nas[k].environment == environment {
          found := true;
          na := nas[k];
        }
      }
      assert nas[..|nas|] == nas;
    }

    /** The firewall loop of `handleIpWhiteList`: an accept rule per deployment port, until a port
        fails to parse. */
    method WhitelistPorts(ip: string, dbDep: seq<Deployment>) returns (fault: Option<string>)
      requires firewall.parseIp(ip).Some?
      modifies firewall
      ensures fault == Ports(dbDep).1
      ensures firewall.rules == if firewall.enabled
        then old(firewall.rules) + AcceptRules(Ports(dbDep).0, Firewall.To4(firewall.parseIp(ip).value))
        else old(firewall.rules)
    {
      ghost var a := Firewall.To4(firewall.parseIp(ip).value);
      ghost var ports: seq<int> := [];
      for i := 0 to |dbDep|
        invariant Ports(dbDep[..i]) == (ports, None)
        invariant firewall.rules == if firewall.enabled then old(firewall.rules) + AcceptRules(ports, a) else old(firewall.rules)
      {
        var p := Atoi(dbDep[i].port);
        PortsStep(dbDep, i);
        if p.Err? {
          PortsStopAtError(dbDep, i + 1);
          return Some(p.error);
        }
        var w := firewall.WhitelistIP(ip, Uint(p.value));
        if w.Fail? {
          assert false;
        }
        AcceptRulesStep(ports, p.value, a);
        ports := ports + [p.value];
      }
      assert dbDep[..|dbDep|] == dbDep;
      return None;
    }

    /** The firewall loop of `handleIpBlacklist`: the address's rules go as soon as one port
        parses; a port that fails to parse ends the loop. */
    method BlacklistPorts(ip: string, dbDep: seq<Deployment>) returns (fault: Option<string>, touched: bool)
      requires firewall.parseIp(ip).Some?
      modifies firewall
      ensures fault == Ports(dbDep).1 && touched == (|Ports(dbDep).0| > 0)
      ensures firewall.rules == if firewall.enabled && touched
        then Firewall.Remaining(old(firewall.rules), Firewall.To4(firewall.parseIp(ip).value))
        else old(firewall.rules)
    {
      ghost var a := Firewall.To4(firewall.parseIp(ip).value);
      touched := false;
      for i := 0 to |dbDep|
        invariant Ports(dbDep[..i]).1.None? && |Ports(dbDep[..i]).0| == i
        invariant touched == (i > 0)
        invariant firewall.rules == if firewall.enabled && touched then Firewall.Remaining(old(firewall.rules), a) else old(firewall.rules)
      {
        var p := Atoi(dbDep[i].port);
        if p.Err? {
          PortsStep(dbDep, i);
          PortsStopAtError(dbDep, i + 1);
          return Some(p.error), touched;
        }
        var b := firewall.BlacklistIP(ip, Uint(p.value));
        if b.Fail? {
          assert false;
        }
        if touched {
          RemainingTwice(old(firewall.rules), a);
        }
        PortsStep(dbDep, i);
        touched := true;
      }
      assert dbDep[..|dbDep|] == dbDep;
      return None, touched;
    }

    /** `handleIpWhiteList`. */
    method HandleIpWhiteList(applicationId: Uuid, nas: seq<NetworkAccess>, environment: string, ip: string, newId: Uuid)
      returns (r: Outcome)
      requires firewall.parseIp(ip).Some?
      modifies this, firewall
      ensures (records, firewall.rules, r) ==
        Whitelist(old(records), old(firewall.rules), firewall.enabled, nas,
                  DatabaseDeployments(apps.deployments, applicationId, environment), applicationId, environment, ip,
                  Firewall.To4(firewall.parseIp(ip).value), newId)
    {
      var recorded := IsRecorded(nas, ip, environment);
      if recorded {
        return Fail("IP already whitelisted");
      }
      var deployments := apps.FindCurrentlyActiveDeployments(applicationId, InstanceTypeDatabase);
      var dbDep := Filter(deployments, DeploymentIn(environment));
      if |dbDep| == 0 {
        return Fail("no active database deployment found for this environment");
      }
      var fault := WhitelistPorts(ip, dbDep);
      if fault.Some? {
        return Fail("invalid port: " + fault.value);
      }
      records := records + [NetworkAccess(newId, applicationId, ip, "", environment)];
      return Pass;
    }

    /** `handleIpBlacklist`. The record is removed once per parsed port, which after the first
        removal changes nothing. */
    method HandleIpBlacklist(applicationId: Uuid, nas: seq<NetworkAccess>, environment: string, ip: string)
      returns (r: Outcome)
      requires firewall.parseIp(ip).Some?
      modifies this, firewall
      ensures (records, firewall.rules, r) ==
        Blacklist(old(records), old(firewall.rules), firewall.enabled, nas,
                  DatabaseDeployments(apps.deployments, applicationId, environment), environment, ip,
                  Firewall.To4(firewall.parseIp(ip).value))
    {
      var found, na := FindLastRecorded(nas, ip, environment);
      if !found {
        return Fail("IP is not whitelisted for this application: " + ip);
      }
      var deployments := apps.FindCurrentlyActiveDeployments(applicationId, InstanceTypeDatabase);
      var dbDep := Filter(deployments, DeploymentIn(environment));
      if |dbDep| == 0 {
        return Fail("no active database deployment found for this environment: " + environment);
      }
      var fault, touched := BlacklistPorts(ip, dbDep);
      if touched {
        records := Filter(records, OtherRecord(na.id));
      }
      if fault.Some? {
        return Fail("invalid port: " + fault.value);
      }
      return Pass;
    }
  }
}

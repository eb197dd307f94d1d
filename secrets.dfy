/** The secret service (internal/service/secret.go): application variables stored encrypted and
    upserted on (application, name, environment, instance type), the links between a deployment
    and the variables it was started with, and the object-storage server configuration. The
    three repositories are in-memory tables; generated ids are parameters. */
module Secrets {
  import opened Wrappers
  import opened Uuids
  import opened Seqs

  const ServerConfigObjectStorage: string := "object_storage"

  datatype Secret = Secret(
    id: Uuid,
    applicationId: Uuid,
    name: string,
    value: string,
    environment: string,
    instanceType: string)

  const ZeroSecret: Secret := Secret(NilUuid, NilUuid, "", "", "", "")

  datatype DeploymentSecret = DeploymentSecret(id: Uuid, deploymentId: Uuid, secretId: Uuid)

  datatype ServerConfig = ServerConfig(id: Uuid, applicationId: Uuid, provider: string, name: string, value: string)

  datatype StorageCredentials = StorageCredentials(accessKeyId: string, secretKey: string, endpoint: string, region: string)

  datatype CreateSecretParams = CreateSecretParams(
    key: string,
    value: string,
    environment: string,
    instanceType: string,
    applicationId: Uuid)

  /** The encryptor, left abstract: either direction may fail. */
  datatype Encryptor = Encryptor(encrypt: string -> Result<string>, decrypt: string -> Result<string>)

  /** Decryption undoes encryption. */
  ghost predicate Inverse(enc: Encryptor)
  {
    forall x :: enc.encrypt(x).Ok? ==> enc.decrypt(enc.encrypt(x).value) == Ok(x)
  }

  /** The upsert key of a secret. */
  predicate SameKey(s: Secret, p: CreateSecretParams)
  {
    s.applicationId == p.applicationId && s.name == p.key && s.environment == p.environment &&
    s.instanceType == p.instanceType
  }

  /** The repository's `FindBy`: the first row with the key. */
  function FindBy(secrets: seq<Secret>, p: CreateSecretParams): (r: Option<Secret>)
    ensures r.Some? ==> r.value in secrets && SameKey(r.value, p)
    ensures r.None? <==> forall i :: 0 <= i < |secrets| ==> !SameKey(secrets[i], p)
  {
    FirstMatch(secrets, (s: Secret) => SameKey(s, p))
  }

  /** The repository's `UpdateValue`: every row with the id gets the new value. */
  function WithValue(secrets: seq<Secret>, id: Uuid, value: string): (r: seq<Secret>)
    ensures |r| == |secrets|
    ensures forall i :: 0 <= i < |r| ==>
      r[i] == if secrets[i].id == id then secrets[i].(value := value) else secrets[i]
  {
    UpdateMatching(secrets, (s: Secret) => s.id == id, (s: Secret) => s.(value := value))
  }

  /** The table and the result after `Create`: encrypt, then update the value of the row with the
      key (when it has a non-nil id) or insert a new row; the caller gets the plaintext back. */
  function CreateOne(enc: Encryptor, secrets: seq<Secret>, p: CreateSecretParams, newId: Uuid): (seq<Secret>, Result<Secret>)
  {
    match enc.encrypt(p.value)
    case Err(e) => (secrets, Err(e))
    case Ok(encrypted) =>
      var found := FindBy(secrets, p);
      if found.Some? && found.value.id != NilUuid then
        (WithValue(secrets, found.value.id, encrypted), Ok(found.value.(value := p.value)))
      else
        var row := Secret(newId, p.applicationId, p.key, encrypted, p.environment, p.instanceType);
        (secrets + [row], Ok(row.(value := p.value)))
  }

  /** `CreateAll`: `Create` for each parameter in turn, stopping at the first failure (the rows
      written before it stay). */
  function CreateMany(enc: Encryptor, secrets: seq<Secret>, ps: seq<CreateSecretParams>, ids: seq<Uuid>): (seq<Secret>, Result<seq<Secret>>)
    requires |ids| == |ps|
  {
    if ps == [] then (secrets, Ok([]))
    else
      var n := |ps| - 1;
      var (before, r) := CreateMany(enc, secrets, ps[..n], ids[..n]);
      if r.Err? then (before, r)
      else
        var (after, last) := CreateOne(enc, before, ps[n], ids[n]);
        if last.Err? then (after, Err(last.error)) else (after, Ok(r.value + [last.value]))
  }

  /** Secrets of one application, the repository's `FindAll`. */
  function OfApplication(applicationId: Uuid): Secret -> bool
  {
    (s: Secret) => s.applicationId == applicationId
  }

  /** Replace every value by its decryption; the first failure is the result. */
  function DecryptAll(dec: string -> Result<string>, ss: seq<Secret>): Result<seq<Secret>>
  {
    if ss == [] then Ok([])
    else
      var n := |ss| - 1;
      match DecryptAll(dec, ss[..n])
      case Err(e) => Err(e)
      case Ok(init) =>
        match dec(ss[n].value)
        case Err(e) => Err(e)
        case Ok(v) => Ok(init + [ss[n].(value := v)])
  }

  /** Decryption succeeds exactly when every value decrypts, and then changes only the values. */
  lemma {:induction false} DecryptAllSpec(dec: string -> Result<string>, ss: seq<Secret>)
    ensures DecryptAll(dec, ss).Ok? <==> forall i :: 0 <= i < |ss| ==> dec(ss[i].value).Ok?
    ensures DecryptAll(dec, ss).Ok? ==>
      var r := DecryptAll(dec, ss).value;
      |r| == |ss| && forall i :: 0 <= i < |ss| ==> r[i] == ss[i].(value := dec(ss[i].value).value)
  {
    if ss != [] {
      var n := |ss| - 1;
      DecryptAllSpec(dec, ss[..n]);
      assert forall i :: 0 <= i < n ==> ss[..n][i] == ss[i];
    }
  }

  /** The links of a deployment, the repository's `FindAll(deploymentID)`. */
  function OfDeployment(deploymentId: Uuid): DeploymentSecret -> bool
  {
    (l: DeploymentSecret) => l.deploymentId == deploymentId
  }

  /** The links that `Delete` by id leaves: those whose id is not in `ids`. */
  function Unlinked(ids: set<Uuid>): DeploymentSecret -> bool
  {
    (l: DeploymentSecret) => l.id !in ids
  }

  function LinkIds(links: seq<DeploymentSecret>): (ids: set<Uuid>)
    ensures forall i :: 0 <= i < |links| ==> links[i].id in ids
    ensures forall x :: x in ids ==> exists i :: 0 <= i < |links| && links[i].id == x
  {
    set l | l in links :: l.id
  }

  /** A link joined with its secret (`Preload("Secret")`): the first secret with the link's
      secret id, or the zero secret. */
  function LinkedSecret(secrets: seq<Secret>, id: Uuid): (s: Secret)
    ensures s == ZeroSecret || (s in secrets && s.id == id)
    ensures (exists i :: 0 <= i < |secrets| && secrets[i].id == id) ==> s in secrets && s.id == id
  {
    match FirstMatch(secrets, (s: Secret) => s.id == id)
    case None => ZeroSecret
    case Some(s) => s
  }

  /** What `FindDeploymentSecrets` reports for one link before decryption: the joined secret's
      fields, under the link's own id. */
  function Joined(secrets: seq<Secret>, l: DeploymentSecret): Secret
  {
    LinkedSecret(secrets, l.secretId).(id := l.id)
  }

  /** The new links `CreateDeploymentSecrets` saves: one per secret, in order. */
  function NewLinks(deploymentId: Uuid, ss: seq<Secret>, ids: seq<Uuid>): (r: seq<DeploymentSecret>)
    requires |ids| == |ss|
  {
    seq(|ss|, i requires 0 <= i < |ss| => DeploymentSecret(ids[i], deploymentId, ss[i].id))
  }

  /** The server configurations of an application, decrypted; the first failure is the result. */
  function DecryptConfigs(dec: string -> Result<string>, cs: seq<ServerConfig>): Result<seq<ServerConfig>>
  {
    if cs == [] then Ok([])
    else
      var n := |cs| - 1;
      match DecryptConfigs(dec, cs[..n])
      case Err(e) => Err(e)
      case Ok(init) =>
        match dec(cs[n].value)
        case Err(e) => Err(e)
        case Ok(v) => Ok(init + [cs[n].(value := v)])
  }

  /** Decrypting server configurations succeeds exactly when every value decrypts, and then
      changes only the values. */
  lemma {:induction false} DecryptConfigsSpec(dec: string -> Result<string>, cs: seq<ServerConfig>)
    ensures DecryptConfigs(dec, cs).Ok? <==> forall i :: 0 <= i < |cs| ==> dec(cs[i].value).Ok?
    ensures DecryptConfigs(dec, cs).Ok? ==>
      var r := DecryptConfigs(dec, cs).value;
      |r| == |cs| && forall i :: 0 <= i < |cs| ==> r[i] == cs[i].(value := dec(cs[i].value).value)
  {
    if cs != [] {
      var n := |cs| - 1;
      DecryptConfigsSpec(dec, cs[..n]);
      assert forall i :: 0 <= i < n ==> cs[..n][i] == cs[i];
    }
  }

  function ConfigsOf(applicationId: Uuid): ServerConfig -> bool
  {
    (c: ServerConfig) => c.applicationId == applicationId
  }

  function IsObjectStorage(): ServerConfig -> bool
  {
    (c: ServerConfig) => c.name == ServerConfigObjectStorage
  }

  /** The parameters of `CreateServerConfig`; the value itself is only seen through its JSON
      encoding, a parameter of the upsert. */
  datatype CreateServerConfigParams = CreateServerConfigParams(applicationId: Uuid, name: string, provider: string)

  /** The key of the server-config upsert: application, provider and name. */
  predicate SameConfigKey(c: ServerConfig, p: CreateServerConfigParams)
  {
    c.applicationId == p.applicationId && c.provider == p.provider && c.name == p.name
  }

  /** The server-config repository's `FindByName`. */
  function FindConfig(configs: seq<ServerConfig>, p: CreateServerConfigParams): (r: Option<ServerConfig>)
    ensures r.Some? ==> r.value in configs && SameConfigKey(r.value, p)
    ensures r.None? <==> forall i :: 0 <= i < |configs| ==> !SameConfigKey(configs[i], p)
  {
    FirstMatch(configs, (c: ServerConfig) => SameConfigKey(c, p))
  }

  /** The repository's `UpdateServerConfigValue`: every row with the id gets the new value. */
  function WithConfigValue(configs: seq<ServerConfig>, id: Uuid, value: string): (r: seq<ServerConfig>)
    ensures |r| == |configs|
    ensures forall i :: 0 <= i < |r| ==>
      r[i] == if configs[i].id == id then configs[i].(value := value) else configs[i]
  {
    UpdateMatching(configs, (c: ServerConfig) => c.id == id, (c: ServerConfig) => c.(value := value))
  }

  /** `CreateServerConfig` on the configuration table: `serialized` is what `json.Marshal`
      made of the value. Encode, encrypt, then update the row with the key or insert a new one;
      the answer is the row's id. */
  function UpsertConfig(enc: Encryptor, configs: seq<ServerConfig>, p: CreateServerConfigParams,
                        serialized: Result<string>, newId: Uuid): (seq<ServerConfig>, Result<Uuid>)
  {
    match serialized
    case Err(e) => (configs, Err(e))
    case Ok(s) =>
      match enc.encrypt(s)
      case Err(e) => (configs, Err(e))
      case Ok(encrypted) =>
        match FindConfig(configs, p)
        case None => (configs + [ServerConfig(newId, p.applicationId, p.provider, p.name, encrypted)], Ok(newId))
        case Some(existing) => (WithConfigValue(configs, existing.id, encrypted), Ok(existing.id))
  }

  /** `json.Unmarshal` into storage credentials, left abstract. */
  type CredentialsDecoder = string -> Option<StorageCredentials>

  /** The selection in `FindStorageCredentials`: the first configuration named "object_storage",
      decoded. */
  function StorageCredentialsFrom(configs: seq<ServerConfig>, decode: CredentialsDecoder): Result<StorageCredentials>
  {
    var storage := Filter(configs, IsObjectStorage());
    if |storage| == 0 then Err("no object storage configured")
    else match decode(storage[0].value)
      case None => Err("cannot decode storage credentials")
      case Some(c) => Ok(c)
  }

  /** The credentials come from the first object-storage configuration, and their absence is an
      error. */
  lemma {:induction false} StorageCredentialsFromSpec(configs: seq<ServerConfig>, decode: CredentialsDecoder)
    ensures (forall i :: 0 <= i < |configs| ==> configs[i].name != ServerConfigObjectStorage) ==>
      StorageCredentialsFrom(configs, decode).Err?
    ensures StorageCredentialsFrom(configs, decode).Ok? ==>
      exists k :: 0 <= k < |configs| && configs[k].name == ServerConfigObjectStorage &&
                  decode(configs[k].value) == Some(StorageCredentialsFrom(configs, decode).value) &&
                  forall j :: 0 <= j < k ==> configs[j].name != ServerConfigObjectStorage
  {
    if configs != [] {
      StorageCredentialsFromSpec(configs[1..], decode);
      assert Filter(configs, IsObjectStorage()) ==
        (if IsObjectStorage()(configs[0]) then [configs[0]] else []) + Filter(configs[1..], IsObjectStorage());
      if configs[0].name != ServerConfigObjectStorage && StorageCredentialsFrom(configs, decode).Ok? {
        var k :| 0 <= k < |configs[1..]| && configs[1..][k].name == ServerConfigObjectStorage &&
                 decode(configs[1..][k].value) == Some(StorageCredentialsFrom(configs, decode).value) &&
                 forall j :: 0 <= j < k ==> configs[1..][j].name != ServerConfigObjectStorage;
        assert configs[k + 1] == configs[1..][k];
      }
    }
  }

  /** `FindSecret`'s answer: the first secret with the name. */
  function FirstNamed(secrets: seq<Secret>, name: string): (r: Option<Secret>)
    ensures r.Some? ==> r.value in secrets && r.value.name == name
    ensures r.None? <==> forall i :: 0 <= i < |secrets| ==> secrets[i].name != name
  {
    FirstMatch(secrets, (s: Secret) => s.name == name)
  }

  /** `FindSecret`: the first secret with the name, or an error naming it. */
  method FindSecret(name: string, secrets: seq<Secret>) returns (r: Result<Secret>)
    ensures r.Ok? <==> exists i :: 0 <= i < |secrets| && secrets[i].name == name
    ensures r.Ok? ==> r == Ok(FirstNamed(secrets, name).value)
  {
    for i := 0 to |secrets|
      invariant FirstNamed(secrets, name) == FirstNamed(secrets[i..], name)
    {
      assert secrets[i..][1..] == secrets[i + 1..];
      if secrets[i].name == name {
        return Ok(secrets[i]);
      }
    }
    return Err("secret: " + name + " was not found");
  }

  class SecretService {
    var secrets: seq<Secret>
    var links: seq<DeploymentSecret>
    var serverConfigs: seq<ServerConfig>
    const enc: Encryptor

    constructor (enc: Encryptor)
      ensures this.enc == enc && secrets == [] && links == [] && serverConfigs == []
    {
      this.enc := enc;
      secrets := [];
      links := [];
      serverConfigs := [];
    }

    /** `Create`: the upsert on (application, name, environment, instance type). */
    method Create(p: CreateSecretParams, newId: Uuid) returns (r: Result<Secret>)
      modifies this
      ensures links == old(links) && serverConfigs == old(serverConfigs)
      ensures (secrets, r) == CreateOne(enc, old(secrets), p, newId)
    {
      var encrypted := enc.encrypt(p.value);
      if encrypted.Err? {
        return Err(encrypted.error);
      }
      var found := FindBy(secrets, p);
      if found.Some? && found.value.id != NilUuid {
        secrets := WithValue(secrets, found.value.id, encrypted.value);
        return Ok(found.value.(value := p.value));
      }
      var row := Secret(newId, p.applicationId, p.key, encrypted.value, p.environment, p.instanceType);
      secrets := secrets + [row];
      return Ok(row.(value := p.value));
    }

    /** `CreateServerConfig`: the upsert on (application, provider, name). */
    method CreateServerConfig(p: CreateServerConfigParams, serialized: Result<string>, newId: Uuid)
      returns (r: Result<Uuid>)
      modifies this
      ensures secrets == old(secrets) && links == old(links)
      ensures (serverConfigs, r) == UpsertConfig(enc, old(serverConfigs), p, serialized, newId)
    {
      if serialized.Err? {
        return Err(serialized.error);
      }
      var encrypted := enc.encrypt(serialized.value);
      if encrypted.Err? {
        return Err(encrypted.error);
      }
      var existing := FindConfig(serverConfigs, p);
      if existing.None? {
        serverConfigs := serverConfigs + [ServerConfig(newId, p.applicationId, p.provider, p.name, encrypted.value)];
        return Ok(newId);
      }
      serverConfigs := WithConfigValue(serverConfigs, existing.value.id, encrypted.value);
      return Ok(existing.value.id);
    }

    /** `CreateAll`: `Create` for each parameter, in order, stopping at the first failure. */
    method CreateAll(ps: seq<CreateSecretParams>, ids: seq<Uuid>) returns (r: Result<seq<Secret>>)
      requires |ids| == |ps|
      modifies this
      ensures links == old(links) && serverConfigs == old(serverConfigs)
      ensures (secrets, r) == CreateMany(enc, old(secrets), ps, ids)
    {
      var result: seq<Secret> := [];
      for i := 0 to |ps|
        invariant links == old(links) && serverConfigs == old(serverConfigs)
        invariant (secrets, Ok(result)) == CreateMany(enc, old(secrets), ps[..i], ids[..i])
      {
        assert ps[..i + 1][..i] == ps[..i] && ids[..i + 1][..i] == ids[..i];
        var one := Create(ps[i], ids[i]);
        if one.Err? {
          CreateManyStopsAtError(enc, old(secrets), ps, ids, i + 1);
          assert ps[..|ps|] == ps && ids[..|ids|] == ids;
          return Err(one.error);
        }
        result := result + [one.value];
      }
      assert ps[..|ps|] == ps && ids[..|ids|] == ids;
      return Ok(result);
    }

    /** `FindAll`: the application's secrets with their values decrypted. */
    method FindAll(applicationId: Uuid) returns (r: Result<seq<Secret>>)
      ensures r == DecryptAll(enc.decrypt, Filter(secrets, OfApplication(applicationId)))
    {
      var rows := Filter(secrets, OfApplication(applicationId));
      var out: seq<Secret> := [];
      for i := 0 to |rows|
        invariant DecryptAll(enc.decrypt, rows[..i]) == Ok(out)
      {
        DecryptAllStep(enc.decrypt, rows, i);
        var decrypted := enc.decrypt(rows[i].value);
        if decrypted.Err? {
          DecryptAllStopsAtError(enc.decrypt, rows, i + 1);
          assert rows[..|rows|] == rows;
          return Err(decrypted.error);
        }
        out := out + [rows[i].(value := decrypted.value)];
      }
      assert rows[..|rows|] == rows;
      return Ok(out);
    }

    /** `CreateDeploymentSecrets`: one new link per secret, saved together. */
    method CreateDeploymentSecrets(deploymentId: Uuid, ss: seq<Secret>, ids: seq<Uuid>)
      requires |ids| == |ss|
      modifies this
      ensures secrets == old(secrets) && serverConfigs == old(serverConfigs)
      ensures links == old(links) + NewLinks(deploymentId, ss, ids)
    {
      var values: seq<DeploymentSecret> := [];
      for i := 0 to |ss|
        invariant values == NewLinks(deploymentId, ss[..i], ids[..i])
      {
        values := values + [DeploymentSecret(ids[i], deploymentId, ss[i].id)];
      }
      assert ss[..|ss|] == ss && ids[..|ids|] == ids;
      links := links + values;
    }

    /** `FindDeploymentSecrets`: one decrypted secret per link of the deployment, in link order,
        carrying the link's id. */
    method FindDeploymentSecrets(deploymentId: Uuid) returns (r: Result<seq<Secret>>)
      ensures r == DecryptAll(enc.decrypt, JoinAll(secrets, Filter(links, OfDeployment(deploymentId))))
    {
      var values := Filter(links, OfDeployment(deploymentId));
      ghost var joined := JoinAll(secrets, values);
      var out: seq<Secret> := [];
      for i := 0 to |values|
        invariant DecryptAll(enc.decrypt, joined[..i]) == Ok(out)
      {
        DecryptAllStep(enc.decrypt, joined, i);
        var v := Joined(secrets, values[i]);
        assert v == joined[i];
        var decrypted := enc.decrypt(v.value);
        if decrypted.Err? {
          DecryptAllStopsAtError(enc.decrypt, joined, i + 1);
          assert joined[..|joined|] == joined;
          return Err(decrypted.error);
        }
        out := out + [v.(value := decrypted.value)];
      }
      assert joined[..|joined|] == joined;
      return Ok(out);
    }

    /** `DeleteDeploymentSecrets`: delete, by id, every link of the deployment. */
    method DeleteDeploymentSecrets(deploymentId: Uuid)
      modifies this
      ensures secrets == old(secrets) && serverConfigs == old(serverConfigs)
      ensures links == Filter(old(links), Unlinked(LinkIds(Filter(old(links), OfDeployment(deploymentId)))))
    {
      var vars := Filter(links, OfDeployment(deploymentId));
      ghost var original := links;
      FilterAll(original, Unlinked({}));
      LinkIdsPrefix(vars, 0);
      for i := 0 to |vars|
        invariant secrets == old(secrets) && serverConfigs == old(serverConfigs)
        invariant links == Filter(original, Unlinked(LinkIds(vars[..i])))
      {
        LinkIdsPrefix(vars, i + 1);
        FilterUnlinked(original, LinkIds(vars[..i]), vars[i].id);
        links := Filter(links, Unlinked({vars[i].id}));
      }
      assert vars[..|vars|] == vars;
    }

    /** `FindApplicationServerConfigs`: the application's configurations, decrypted. */
    method FindApplicationServerConfigs(applicationId: Uuid) returns (r: Result<seq<ServerConfig>>)
      ensures r == DecryptConfigs(enc.decrypt, Filter(serverConfigs, ConfigsOf(applicationId)))
    {
      var all := Filter(serverConfigs, ConfigsOf(applicationId));
      var out: seq<ServerConfig> := [];
      for i := 0 to |all|
        invariant DecryptConfigs(enc.decrypt, all[..i]) == Ok(out)
      {
        DecryptConfigsStep(enc.decrypt, all, i);
        var decrypted := enc.decrypt(all[i].value);
        if decrypted.Err? {
          DecryptConfigsStopsAtError(enc.decrypt, all, i + 1);
          assert all[..|all|] == all;
          return Err(decrypted.error);
        }
        out := out + [all[i].(value := decrypted.value)];
      }
      assert all[..|all|] == all;
      return Ok(out);
    }

    /** `FindStorageCredentials`: the decoded first object-storage configuration. */
    method FindStorageCredentials(applicationId: Uuid, decode: CredentialsDecoder) returns (r: Result<StorageCredentials>)
      ensures var configs := DecryptConfigs(enc.decrypt, Filter(serverConfigs, ConfigsOf(applicationId)));
        r == if configs.Err? then Err(configs.error) else StorageCredentialsFrom(configs.value, decode)
    {
      var credentials := FindApplicationServerConfigs(applicationId);
      if credentials.Err? {
        return Err(credentials.error);
      }
      var storage := Filter(credentials.value, IsObjectStorage());
      if |storage| == 0 {
        return Err("no object storage configured");
      }
      var decoded := decode(storage[0].value);
      if decoded.None? {
        return Err("cannot decode storage credentials");
      }
      return Ok(decoded.value);
    }
  }

  function JoinAll(secrets: seq<Secret>, ls: seq<DeploymentSecret>): (r: seq<Secret>)
    ensures |r| == |ls|
  {
    seq(|ls|, i requires 0 <= i < |ls| => Joined(secrets, ls[i]))
  }

  lemma {:induction false} CreateManyStopsAtError(enc: Encryptor, secrets: seq<Secret>, ps: seq<CreateSecretParams>, ids: seq<Uuid>, k: nat)
    requires |ids| == |ps| && k <= |ps|
    requires CreateMany(enc, secrets, ps[..k], ids[..k]).1.Err?
    ensures CreateMany(enc, secrets, ps, ids) == CreateMany(enc, secrets, ps[..k], ids[..k])
    decreases |ps| - k
  {
    if k < |ps| {
      var n := |ps| - 1;
      var front, frontIds := ps[..n], ids[..n];
      assert front[..k] == ps[..k] && frontIds[..k] == ids[..k];
      CreateManyStopsAtError(enc, secrets, front, frontIds, k);
      assert CreateMany(enc, secrets, ps, ids) == CreateMany(enc, secrets, front, frontIds);
    } else {
      assert ps[..k] == ps && ids[..k] == ids;
    }
  }

  lemma {:induction false} DecryptAllStopsAtError(dec: string -> Result<string>, ss: seq<Secret>, k: nat)
    requires k <= |ss| && DecryptAll(dec, ss[..k]).Err?
    ensures DecryptAll(dec, ss) == DecryptAll(dec, ss[..k])
    decreases |ss| - k
  {
    if k < |ss| {
      var m := |ss|;
      assert ss[..m - 1][..k] == ss[..k];
      DecryptAllStopsAtError(dec, ss[..m - 1], k);
    } else {
      assert ss[..k] == ss;
    }
  }

  lemma {:induction false} DecryptConfigsStopsAtError(dec: string -> Result<string>, cs: seq<ServerConfig>, k: nat)
    requires k <= |cs| && DecryptConfigs(dec, cs[..k]).Err?
    ensures DecryptConfigs(dec, cs) == DecryptConfigs(dec, cs[..k])
    decreases |cs| - k
  {
    if k < |cs| {
      var m := |cs|;
      assert cs[..m - 1][..k] == cs[..k];
      DecryptConfigsStopsAtError(dec, cs[..m - 1], k);
    } else {
      assert cs[..k] == cs;
    }
  }

  /** One more secret decrypts onto the earlier ones, or its failure is the result. */
  lemma DecryptAllStep(dec: string -> Result<string>, ss: seq<Secret>, i: nat)
    requires i < |ss| && DecryptAll(dec, ss[..i]).Ok?
    ensures DecryptAll(dec, ss[..i + 1]) ==
      match dec(ss[i].value)
      case Err(e) => Err(e)
      case Ok(v) => Ok(DecryptAll(dec, ss[..i]).value + [ss[i].(value := v)])
  {
    assert ss[..i + 1][..i] == ss[..i];
    assert ss[..i + 1][i] == ss[i];
  }

  /** The same step for server configurations. */
  lemma DecryptConfigsStep(dec: string -> Result<string>, cs: seq<ServerConfig>, i: nat)
    requires i < |cs| && DecryptConfigs(dec, cs[..i]).Ok?
    ensures DecryptConfigs(dec, cs[..i + 1]) ==
      match dec(cs[i].value)
      case Err(e) => Err(e)
      case Ok(v) => Ok(DecryptConfigs(dec, cs[..i]).value + [cs[i].(value := v)])
  {
    assert cs[..i + 1][..i] == cs[..i];
    assert cs[..i + 1][i] == cs[i];
  }

  lemma LinkIdsPrefix(links: seq<DeploymentSecret>, i: nat)
    requires i <= |links|
    ensures i == 0 ==> LinkIds(links[..i]) == {}
    ensures i > 0 ==> LinkIds(links[..i]) == LinkIds(links[..i - 1]) + {links[i - 1].id}
  {
    if i > 0 {
      assert links[..i] == links[..i - 1] + [links[i - 1]];
    }
  }

  /** Deleting the links with one more id. */
  lemma {:induction false} FilterUnlinked(s: seq<DeploymentSecret>, ids: set<Uuid>, x: Uuid)
    ensures Filter(Filter(s, Unlinked(ids)), Unlinked({x})) == Filter(s, Unlinked(ids + {x}))
  {
    if s != [] {
      var p, q := Unlinked(ids), Unlinked({x});
      FilterUnlinked(s[1..], ids, x);
      assert Filter(s, p) == (if p(s[0]) then [s[0]] else []) + Filter(s[1..], p);
      FilterAppend(if p(s[0]) then [s[0]] else [], Filter(s[1..], p), q);
    }
  }

  /** Two rows with the same upsert key. */
  predicate SameKeyRows(a: Secret, b: Secret)
  {
    a.applicationId == b.applicationId && a.name == b.name && a.environment == b.environment &&
    a.instanceType == b.instanceType
  }

  /** The table invariant the upsert keeps: ids are unique and non-nil, and no two rows share a
      key. */
  predicate ValidSecrets(secrets: seq<Secret>)
  {
    (forall i, j :: 0 <= i < j < |secrets| ==> secrets[i].id != secrets[j].id) &&
    (forall i :: 0 <= i < |secrets| ==> secrets[i].id != NilUuid) &&
    (forall i, j :: 0 <= i < j < |secrets| ==> !SameKeyRows(secrets[i], secrets[j]))
  }

  /** `Create` fails only when encryption does, and answers with the key and the plaintext. */
  lemma CreateReturnsPlaintext(enc: Encryptor, secrets: seq<Secret>, p: CreateSecretParams, newId: Uuid)
    ensures var r := CreateOne(enc, secrets, p, newId).1;
      (r.Ok? <==> enc.encrypt(p.value).Ok?) && (r.Ok? ==> r.value.value == p.value && SameKey(r.value, p))
  {
  }

  /** In a valid table, the row `FindBy` finds is the only one with its id and the only one
      with its key. */
  lemma FoundRowIsUnique(secrets: seq<Secret>, p: CreateSecretParams, i: int)
    requires ValidSecrets(secrets) && FindBy(secrets, p).Some? && 0 <= i < |secrets|
    ensures secrets[i].id == FindBy(secrets, p).value.id <==> SameKey(secrets[i], p)
  {
    var found := FindBy(secrets, p).value;
    var k :| 0 <= k < |secrets| && secrets[k] == found;
    if i < k {
      assert secrets[i].id == found.id ==> false;
      assert SameKey(secrets[i], p) ==> SameKeyRows(secrets[i], secrets[k]);
    } else if k < i {
      assert secrets[i].id == found.id ==> false;
      assert SameKey(secrets[i], p) ==> SameKeyRows(secrets[k], secrets[i]);
    }
  }

  /** When a row has the key, `Create` replaces only that row's value, by the encryption of the
      new value. */
  lemma CreateUpdatesExisting(enc: Encryptor, secrets: seq<Secret>, p: CreateSecretParams, newId: Uuid)
    requires ValidSecrets(secrets) && enc.encrypt(p.value).Ok?
    requires exists k :: 0 <= k < |secrets| && SameKey(secrets[k], p)
    ensures var after := CreateOne(enc, secrets, p, newId).0;
      |after| == |secrets| &&
      forall i :: 0 <= i < |secrets| ==>
        after[i] == if SameKey(secrets[i], p) then secrets[i].(value := enc.encrypt(p.value).value) else secrets[i]
  {
    var after := CreateOne(enc, secrets, p, newId).0;
    forall i | 0 <= i < |secrets|
      ensures after[i] == if SameKey(secrets[i], p) then secrets[i].(value := enc.encrypt(p.value).value) else secrets[i]
    {
      FoundRowIsUnique(secrets, p, i);
    }
  }

  /** When no row has the key, `Create` adds exactly one row: the key with the encrypted value. */
  lemma CreateInsertsNew(enc: Encryptor, secrets: seq<Secret>, p: CreateSecretParams, newId: Uuid)
    requires enc.encrypt(p.value).Ok?
    requires forall k :: 0 <= k < |secrets| ==> !SameKey(secrets[k], p)
    ensures CreateOne(enc, secrets, p, newId).0 ==
      secrets + [Secret(newId, p.applicationId, p.key, enc.encrypt(p.value).value, p.environment, p.instanceType)]
  {
  }

  /** With a fresh non-nil id, `Create` keeps the table valid: still one row per key. */
  lemma CreateKeepsValid(enc: Encryptor, secrets: seq<Secret>, p: CreateSecretParams, newId: Uuid)
    requires ValidSecrets(secrets) && newId != NilUuid
    requires forall i :: 0 <= i < |secrets| ==> secrets[i].id != newId
    ensures ValidSecrets(CreateOne(enc, secrets, p, newId).0)
  {
    if enc.encrypt(p.value).Ok? {
      if exists k :: 0 <= k < |secrets| && SameKey(secrets[k], p) {
        CreateUpdatesExisting(enc, secrets, p, newId);
        UpdateKeepsValid(secrets, CreateOne(enc, secrets, p, newId).0);
      } else {
        CreateInsertsNew(enc, secrets, p, newId);
        var row := Secret(newId, p.applicationId, p.key, enc.encrypt(p.value).value, p.environment, p.instanceType);
        assert forall i :: 0 <= i < |secrets| ==> !SameKeyRows(secrets[i], row) by {
          forall i | 0 <= i < |secrets|
            ensures !SameKeyRows(secrets[i], row)
          {
            assert !SameKey(secrets[i], p);
          }
        }
        InsertKeepsValid(secrets, row);
      }
    }
  }

  /** Rewriting rows without changing their ids or keys keeps the table valid. */
  lemma UpdateKeepsValid(secrets: seq<Secret>, after: seq<Secret>)
    requires ValidSecrets(secrets) && |after| == |secrets|
    requires forall i :: 0 <= i < |secrets| ==> after[i].id == secrets[i].id && SameKeyRows(after[i], secrets[i])
    ensures ValidSecrets(after)
  {
    forall i, j | 0 <= i < j < |after|
      ensures !SameKeyRows(after[i], after[j])
    {
      assert !SameKeyRows(secrets[i], secrets[j]);
    }
  }

  /** Appending a row with a fresh non-nil id and a new key keeps the table valid. */
  lemma InsertKeepsValid(secrets: seq<Secret>, row: Secret)
    requires ValidSecrets(secrets) && row.id != NilUuid
    requires forall i :: 0 <= i < |secrets| ==> secrets[i].id != row.id && !SameKeyRows(secrets[i], row)
    ensures ValidSecrets(secrets + [row])
  {
    var after := secrets + [row];
    forall i, j | 0 <= i < j < |after|
      ensures after[i].id != after[j].id && !SameKeyRows(after[i], after[j])
    {
      if j < |secrets| {
        assert after[i] == secrets[i] && after[j] == secrets[j];
      } else {
        assert after[i] == secrets[i] && after[j] == row;
      }
    }
  }

  /** The stored value is the encryption of the input: the row `Create` wrote, under the id it
      returned, decrypts back to the plaintext. */
  lemma CreatedValueDecrypts(enc: Encryptor, secrets: seq<Secret>, p: CreateSecretParams, newId: Uuid)
    requires Inverse(enc) && enc.encrypt(p.value).Ok?
    ensures var (after, r) := CreateOne(enc, secrets, p, newId);
      r.Ok? && exists i :: 0 <= i < |after| && after[i].id == r.value.id && SameKey(after[i], p) &&
                           enc.decrypt(after[i].value) == Ok(p.value)
  {
    var c := enc.encrypt(p.value).value;
    assert enc.decrypt(c) == Ok(p.value);
    var (after, r) := CreateOne(enc, secrets, p, newId);
    var found := FindBy(secrets, p);
    if found.Some? && found.value.id != NilUuid {
      var k :| 0 <= k < |secrets| && secrets[k] == found.value;
      assert after[k] == secrets[k].(value := c);
    } else {
      assert after[|secrets|].value == c;
    }
  }

  /** `CreateAll` answers with one secret per parameter, in order, each with the parameter's key
      and plaintext value. */
  lemma {:induction false} CreateManyReturns(enc: Encryptor, secrets: seq<Secret>, ps: seq<CreateSecretParams>, ids: seq<Uuid>)
    requires |ids| == |ps|
    ensures var r := CreateMany(enc, secrets, ps, ids).1;
      r.Ok? ==> |r.value| == |ps| && forall i :: 0 <= i < |ps| ==> r.value[i].value == ps[i].value && SameKey(r.value[i], ps[i])
  {
    if ps != [] {
      var n := |ps| - 1;
      CreateManyReturns(enc, secrets, ps[..n], ids[..n]);
      var (before, r) := CreateMany(enc, secrets, ps[..n], ids[..n]);
      if r.Ok? {
        CreateReturnsPlaintext(enc, before, ps[n], ids[n]);
        var last := CreateOne(enc, before, ps[n], ids[n]).1;
        if last.Ok? {
          var all := r.value + [last.value];
          assert CreateMany(enc, secrets, ps, ids).1 == Ok(all);
          forall i | 0 <= i < |ps|
            ensures all[i].value == ps[i].value && SameKey(all[i], ps[i])
          {
            if i < n {
              assert all[i] == r.value[i] && ps[..n][i] == ps[i];
            }
          }
        }
      }
    }
  }

  /** After `DeleteDeploymentSecrets`, with unique link ids: a link remains exactly when it
      belongs to another deployment. */
  lemma DeleteRemovesExactlyTheDeployment(links: seq<DeploymentSecret>, deploymentId: Uuid, l: DeploymentSecret)
    requires forall i, j :: 0 <= i < j < |links| ==> links[i].id != links[j].id
    ensures l in Filter(links, Unlinked(LinkIds(Filter(links, OfDeployment(deploymentId))))) <==>
            l in links && l.deploymentId != deploymentId
  {
    var mine := Filter(links, OfDeployment(deploymentId));
    FilterMembers(links, Unlinked(LinkIds(mine)), l);
    if l in links && l.id in LinkIds(mine) {
      var m :| m in mine && m.id == l.id;
      FilterMembers(links, OfDeployment(deploymentId), m);
    }
    if l in links && l.deploymentId == deploymentId {
      FilterMembers(links, OfDeployment(deploymentId), l);
    }
  }

  /** `CreateDeploymentSecrets` links each secret to the deployment: the deployment's links grow
      by one per secret, in order, each naming that secret. */
  lemma NewLinksOfDeployment(links: seq<DeploymentSecret>, deploymentId: Uuid, ss: seq<Secret>, ids: seq<Uuid>)
    requires |ids| == |ss|
    ensures Filter(links + NewLinks(deploymentId, ss, ids), OfDeployment(deploymentId)) ==
      Filter(links, OfDeployment(deploymentId)) + NewLinks(deploymentId, ss, ids)
    ensures forall i :: 0 <= i < |ss| ==> NewLinks(deploymentId, ss, ids)[i].secretId == ss[i].id
  {
    FilterAppend(links, NewLinks(deploymentId, ss, ids), OfDeployment(deploymentId));
    FilterAll(NewLinks(deploymentId, ss, ids), OfDeployment(deploymentId));
  }

  /** Each secret `FindDeploymentSecrets` returns is the linked secret with its value decrypted
      and the link's id. */
  lemma FindDeploymentSecretsSpec(enc: Encryptor, secrets: seq<Secret>, ls: seq<DeploymentSecret>)
    ensures var r := DecryptAll(enc.decrypt, JoinAll(secrets, ls));
      r.Ok? ==> |r.value| == |ls| && forall i :: 0 <= i < |ls| ==>
        r.value[i].id == ls[i].id &&
        r.value[i].name == LinkedSecret(secrets, ls[i].secretId).name &&
        enc.decrypt(LinkedSecret(secrets, ls[i].secretId).value) == Ok(r.value[i].value)
  {
    DecryptAllSpec(enc.decrypt, JoinAll(secrets, ls));
  }

  /** The row found for a key keeps its place after the update: the rows before it do not
      have the key, and the update changes no key. */
  lemma {:induction false} FindConfigAfterUpdate(configs: seq<ServerConfig>, p: CreateServerConfigParams, value: string)
    requires FindConfig(configs, p).Some?
    ensures FindConfig(WithConfigValue(configs, FindConfig(configs, p).value.id, value), p) ==
      Some(FindConfig(configs, p).value.(value := value))
  {
    var found := FindConfig(configs, p).value;
    if !SameConfigKey(configs[0], p) {
      FindConfigAfterUpdate(configs[1..], p, value);
      assert WithConfigValue(configs, found.id, value)[1..] == WithConfigValue(configs[1..], found.id, value);
    }
  }

  /** A row appended after rows without the key is the one found. */
  lemma {:induction false} FindConfigAppended(configs: seq<ServerConfig>, p: CreateServerConfigParams, row: ServerConfig)
    requires FindConfig(configs, p).None? && SameConfigKey(row, p)
    ensures FindConfig(configs + [row], p) == Some(row)
  {
    if configs != [] {
      assert (configs + [row])[1..] == configs[1..] + [row];
      FindConfigAppended(configs[1..], p, row);
    }
  }

  /** After a successful `CreateServerConfig`, looking the key up finds the row with the
      answered id and the encrypted encoding as its value; a failed one changes nothing. */
  lemma UpsertConfigThenFind(enc: Encryptor, configs: seq<ServerConfig>, p: CreateServerConfigParams,
                             serialized: Result<string>, newId: Uuid)
    ensures var (after, r) := UpsertConfig(enc, configs, p, serialized, newId);
      (r.Ok? <==> serialized.Ok? && enc.encrypt(serialized.value).Ok?) &&
      (r.Err? ==> after == configs) &&
      (r.Ok? ==> FindConfig(after, p).Some? && FindConfig(after, p).value.id == r.value &&
                 FindConfig(after, p).value.value == enc.encrypt(serialized.value).value)
  {
    if serialized.Ok? && enc.encrypt(serialized.value).Ok? {
      var encrypted := enc.encrypt(serialized.value).value;
      if FindConfig(configs, p).Some? {
        FindConfigAfterUpdate(configs, p, encrypted);
      } else {
        FindConfigAppended(configs, p, ServerConfig(newId, p.applicationId, p.provider, p.name, encrypted));
      }
    }
  }

  /** One row per key: a second `CreateServerConfig` with the same key adds no row, and answers
      with the same id. */
  lemma UpsertConfigTwice(enc: Encryptor, configs: seq<ServerConfig>, p: CreateServerConfigParams,
                          serialized: Result<string>, id1: Uuid, serialized2: Result<string>, id2: Uuid)
    requires UpsertConfig(enc, configs, p, serialized, id1).1.Ok?
    ensures var (once, r1) := UpsertConfig(enc, configs, p, serialized, id1);
      var (twice, r2) := UpsertConfig(enc, once, p, serialized2, id2);
      |twice| == |once| && (r2.Ok? ==> r2 == r1)
  {
    UpsertConfigThenFind(enc, configs, p, serialized, id1);
  }

  /** The stored value decrypts back to the encoding, under an encryptor whose decryption
      undoes its encryption. */
  lemma UpsertConfigDecrypts(enc: Encryptor, configs: seq<ServerConfig>, p: CreateServerConfigParams,
                             serialized: Result<string>, newId: Uuid)
    requires Inverse(enc)
    requires UpsertConfig(enc, configs, p, serialized, newId).1.Ok?
    ensures var after := UpsertConfig(enc, configs, p, serialized, newId).0;
      FindConfig(after, p).Some? && enc.decrypt(FindConfig(after, p).value.value) == serialized
  {
    UpsertConfigThenFind(enc, configs, p, serialized, newId);
  }
}

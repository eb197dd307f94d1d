/** The application service (service/application.go) over in-memory application and deployment
    tables: creating applications and deployments, the active-deployment lookups, and status
    updates. Generated ids are parameters. */
module Applications {
  import opened Wrappers
  import opened Text
  import opened Uuids
  import opened Seqs
  import opened Types

  const ZeroApplication: Application := Application(NilUuid, "", "", [])

  /** The application a deployment row is loaded with (`Preload("Application")`): the first
      application with that id, or the zero value when there is none. */
  function LoadApplication(apps: seq<Application>, id: Uuid): (a: Application)
    ensures a == ZeroApplication || (a in apps && a.id == id)
    ensures (exists i :: 0 <= i < |apps| && apps[i].id == id) ==> a in apps && a.id == id
  {
    match FirstMatch(apps, (a: Application) => a.id == id)
    case None => ZeroApplication
    case Some(a) => a
  }

  /** The repository's `FindByName` finds a row exactly when some application has the name. */
  predicate NameTaken(apps: seq<Application>, name: string)
  {
    exists i :: 0 <= i < |apps| && apps[i].name == name
  }

  /** The deployment repository's `FindAll(applicationID)`. */
  function OfApplication(applicationId: Uuid): Deployment -> bool
  {
    (d: Deployment) => d.applicationId == applicationId
  }

  /** The test of `FindCurrentlyActiveDeployments`. */
  function ActiveOfType(instanceType: InstanceType): Deployment -> bool
  {
    (d: Deployment) => d.status == DeploymentStatusActive && d.instanceType == instanceType
  }

  /** The rows after `UpdateDeploymentStatus`: every row with the id gets the new status. */
  function WithStatus(deployments: seq<Deployment>, id: Uuid, status: string): (r: seq<Deployment>)
    ensures |r| == |deployments|
    ensures forall i :: 0 <= i < |r| ==>
      r[i] == if deployments[i].id == id then deployments[i].(status := status) else deployments[i]
  {
    UpdateMatching(deployments, (d: Deployment) => d.id == id, (d: Deployment) => d.(status := status))
  }

  /** The first deployment whose environment equals `environment` ignoring case. */
  function FirstInEnvironment(lower: RuneLower, deployments: seq<Deployment>, environment: string): (r: Option<Deployment>)
    ensures r.Some? ==> r.value in deployments && SameLower(lower, r.value.environment, environment)
    ensures r.None? <==> forall i :: 0 <= i < |deployments| ==> !SameLower(lower, deployments[i].environment, environment)
  {
    FirstMatch(deployments, (d: Deployment) => SameLower(lower, d.environment, environment))
  }

  /** The match found is the first one: every deployment before it is in another environment. */
  lemma {:induction false} FirstInEnvironmentIsFirst(lower: RuneLower, deployments: seq<Deployment>, environment: string)
    requires FirstInEnvironment(lower, deployments, environment).Some?
    ensures exists k :: 0 <= k < |deployments| && deployments[k] == FirstInEnvironment(lower, deployments, environment).value &&
                        forall j :: 0 <= j < k ==> !SameLower(lower, deployments[j].environment, environment)
  {
    FirstMatchIsFirst(deployments, (d: Deployment) => SameLower(lower, d.environment, environment));
  }

  class ApplicationService {
    var apps: seq<Application>
    var deployments: seq<Deployment>

    constructor ()
      ensures apps == [] && deployments == []
    {
      apps := [];
      deployments := [];
    }

    /** `Create`: refuse a taken name; otherwise store an application with the name, the domain
        and the one storage engine. */
    method Create(name: string, domain: string, storageEngine: string, newId: Uuid) returns (r: Result<Application>)
      modifies this
      ensures deployments == old(deployments)
      ensures NameTaken(old(apps), name) ==> r.Err? && apps == old(apps)
      ensures !NameTaken(old(apps), name) ==>
        r == Ok(Application(newId, name, domain, [storageEngine])) && apps == old(apps) + [r.value]
    {
      if NameTaken(apps, name) {
        return Err("application with name " + name + " already exists");
      }
      var app := Application(newId, name, domain, [storageEngine]);
      apps := apps + [app];
      return Ok(app);
    }

    /** `FindCurrentlyActiveDeployments`: the application's deployments that are ACTIVE and of the
        given type, in table order. */
    method FindCurrentlyActiveDeployments(applicationId: Uuid, instanceType: InstanceType) returns (actives: seq<Deployment>)
      ensures actives == Filter(Filter(deployments, OfApplication(applicationId)), ActiveOfType(instanceType))
    {
      var all := Filter(deployments, OfApplication(applicationId));
      actives := [];
      for i := 0 to |all|
        invariant actives == Filter(all[..i], ActiveOfType(instanceType))
      {
        FilterStep(all, i, ActiveOfType(instanceType));
        var a := all[i];
        if a.status == DeploymentStatusActive && instanceType == a.instanceType {
          actives := actives + [a];
        }
      }
      assert all[..|all|] == all;
    }

    /** `FindCurrentlyActiveDeploymentsEnv`: the first active deployment of the type whose
        environment equals the argument ignoring case. */
    method FindCurrentlyActiveDeploymentsEnv(lower: RuneLower, applicationId: Uuid, instanceType: InstanceType, environment: string)
      returns (r: Result<Deployment>)
      ensures var actives := Filter(Filter(deployments, OfApplication(applicationId)), ActiveOfType(instanceType));
        match FirstInEnvironment(lower, actives, environment)
        case Some(d) => r == Ok(d)
        case None => r.Err?
    {
      var actives := FindCurrentlyActiveDeployments(applicationId, instanceType);
      for i := 0 to |actives|
        invariant FirstInEnvironment(lower, actives, environment) == FirstInEnvironment(lower, actives[i..], environment)
      {
        assert actives[i..][1..] == actives[i + 1..];
        if ToLower(lower, environment) == ToLower(lower, actives[i].environment) {
          return Ok(actives[i]);
        }
      }
      return Err("no active instance found for " + instanceType);
    }

    /** `UpdateDeploymentStatus`: set the status of the deployment with the id, nothing else. */
    method UpdateDeploymentStatus(id: Uuid, status: string)
      modifies this
      ensures apps == old(apps)
      ensures deployments == WithStatus(old(deployments), id, status)
    {
      deployments := WithStatus(deployments, id, status);
    }

    /** `CreateDeployment`: store a CREATED deployment with the parameters and return it as loaded
        back by id, with its application attached. */
    method CreateDeployment(applicationId: Uuid, environment: string, instances: int, port: string,
                            instanceType: InstanceType, identifier: string, newId: Uuid)
      returns (d: Deployment)
      requires forall i :: 0 <= i < |deployments| ==> deployments[i].id != newId
      modifies this
      ensures apps == old(apps)
      ensures d == Deployment(newId, applicationId, environment, DeploymentStatusCreated, instances, port,
                              instanceType, identifier, LoadApplication(apps, applicationId))
      ensures deployments == old(deployments) + [d]
    {
      d := Deployment(newId, applicationId, environment, DeploymentStatusCreated, instances, port,
                      instanceType, identifier, LoadApplication(apps, applicationId));
      deployments := deployments + [d];
    }
  }

  /** What `FindCurrentlyActiveDeployments` returns holds exactly the application's ACTIVE
      deployments of the type, and keeps their table order. */
  lemma ActiveDeploymentsSpec(deployments: seq<Deployment>, applicationId: Uuid, instanceType: InstanceType, d: Deployment)
    ensures var actives := Filter(Filter(deployments, OfApplication(applicationId)), ActiveOfType(instanceType));
      (d in actives <==> d in deployments && d.applicationId == applicationId &&
                         d.status == DeploymentStatusActive && d.instanceType == instanceType) &&
      IsSublist(actives, deployments)
  {
    var mine := Filter(deployments, OfApplication(applicationId));
    FilterMembers(deployments, OfApplication(applicationId), d);
    FilterMembers(mine, ActiveOfType(instanceType), d);
    FilterIsSublist(deployments, OfApplication(applicationId));
    FilterIsSublist(mine, ActiveOfType(instanceType));
    SublistTransitive(Filter(mine, ActiveOfType(instanceType)), mine, deployments);
  }

  /** A status update touches only the status of the rows with that id. */
  lemma WithStatusOnlyStatus(deployments: seq<Deployment>, id: Uuid, status: string, i: int)
    requires 0 <= i < |deployments|
    ensures var r := WithStatus(deployments, id, status);
      r[i].id == deployments[i].id && r[i].applicationId == deployments[i].applicationId &&
      r[i].environment == deployments[i].environment && r[i].instanceType == deployments[i].instanceType &&
      r[i].status == (if deployments[i].id == id then status else deployments[i].status)
  {
  }
}

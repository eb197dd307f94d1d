/** The `deployments list` command of the client (client/pkg/cmd/deployments/list/list.go): the
    filter applied to the deployments the server returns. */
module DeploymentsList {
  import opened Wrappers
  import opened Seqs

  /** A deployment as the client receives it, with the fields the filter reads. */
  datatype Deployment = Deployment(id: string, instanceType: string, environment: string, status: string)

  function OfType(instance: string): Deployment -> bool
  {
    (d: Deployment) => d.instanceType == instance
  }

  function InEnvironment(environment: string): Deployment -> bool
  {
    (d: Deployment) => d.environment == environment
  }

  /** The selection `listDeployments` makes: the instance filter wins over the environment filter,
      and with neither the list is returned as fetched. */
  function Selection(deps: seq<Deployment>, instance: string, environment: string): seq<Deployment>
  {
    if instance != "" then Filter(deps, OfType(instance))
    else if environment != "" then Filter(deps, InEnvironment(environment))
    else deps
  }

  /** The instance filter ignores the environment; otherwise the environment filter applies; the
      result is always the fetched list with some entries dropped, in order. */
  lemma SelectionSpec(deps: seq<Deployment>, instance: string, environment: string, d: Deployment)
    ensures instance != "" ==> (d in Selection(deps, instance, environment) <==> d in deps && d.instanceType == instance)
    ensures instance == "" && environment != "" ==>
      (d in Selection(deps, instance, environment) <==> d in deps && d.environment == environment)
    ensures instance == "" && environment == "" ==> Selection(deps, instance, environment) == deps
    ensures IsSublist(Selection(deps, instance, environment), deps)
  {
    FilterMembers(deps, OfType(instance), d);
    FilterMembers(deps, InEnvironment(environment), d);
    FilterIsSublist(deps, OfType(instance));
    FilterIsSublist(deps, InEnvironment(environment));
    if instance == "" && environment == "" {
      SublistReflexive(deps);
    }
  }

  lemma {:induction false} SublistReflexive(s: seq<Deployment>)
    ensures IsSublist(s, s)
  {
    FilterAll(s, _ => true);
    FilterIsSublist(s, _ => true);
  }

  /** `listDeployments` after the fetch: a fetch error is returned unfiltered. */
  method ListDeployments(fetched: Result<seq<Deployment>>, instance: string, environment: string)
    returns (r: Result<seq<Deployment>>)
    ensures fetched.Err? ==> r == Err(fetched.error)
    ensures fetched.Ok? ==> r == Ok(Selection(fetched.value, instance, environment))
  {
    if fetched.Err? {
      return Err(fetched.error);
    }
    var deps := fetched.value;
    var result: seq<Deployment> := [];
    if instance != "" {
      for i := 0 to |deps|
        invariant result == Filter(deps[..i], OfType(instance))
      {
        FilterStep(deps, i, OfType(instance));
        if deps[i].instanceType == instance {
          result := result + [deps[i]];
        }
      }
      assert deps[..|deps|] == deps;
      return Ok(result);
    }
    if environment != "" {
      for i := 0 to |deps|
        invariant result == Filter(deps[..i], InEnvironment(environment))
      {
        FilterStep(deps, i, InEnvironment(environment));
        if deps[i].environment == environment {
          result := result + [deps[i]];
        }
      }
      assert deps[..|deps|] == deps;
      return Ok(result);
    }
    return Ok(deps);
  }
}

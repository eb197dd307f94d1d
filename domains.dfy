/** The custom-domain service (internal/service/domain.go): domain names are unique across all
    applications, only the owning application may remove one, and lookups filter by environment
    and instance type. The repository is an in-memory table; generated ids are parameters. */
module Domains {
  import opened Wrappers
  import opened Uuids
  import opened Seqs
  import opened Types

  const DomainStatusCreated: string := "CREATED"

  datatype Domain = Domain(
    id: Uuid,
    applicationId: Uuid,
    name: string,
    environment: string,
    instanceType: InstanceType,
    status: string)

  datatype AddDomainParams = AddDomainParams(name: string, instanceType: InstanceType, environment: string)

  /** The repository's `Find(name)`: the first row with the name. */
  function FindByName(domains: seq<Domain>, name: string): (r: Option<Domain>)
    ensures r.Some? ==> r.value in domains && r.value.name == name
    ensures r.None? <==> forall i :: 0 <= i < |domains| ==> domains[i].name != name
  {
    FirstMatch(domains, (d: Domain) => d.name == name)
  }

  /** The test `AddDomain` refuses on: a row with the name whose id is not nil. */
  predicate Taken(domains: seq<Domain>, name: string)
  {
    FindByName(domains, name).Some? && FindByName(domains, name).value.id != NilUuid
  }

  /** Rows other than the one with the id: what the repository's `Delete(id)` leaves. */
  function Except(id: Uuid): Domain -> bool
  {
    (d: Domain) => d.id != id
  }

  function OfApplication(applicationId: Uuid): Domain -> bool
  {
    (d: Domain) => d.applicationId == applicationId
  }

  function InEnvironmentOfType(environment: string, instanceType: InstanceType): Domain -> bool
  {
    (d: Domain) => d.environment == environment && d.instanceType == instanceType
  }

  /** `FindForEnvironmentAndInstanceType`: the application's domains with both the environment
      and the instance type, in table order. */
  function ForEnvironmentAndInstanceType(domains: seq<Domain>, applicationId: Uuid, environment: string,
                                         instanceType: InstanceType): seq<Domain>
  {
    Filter(Filter(domains, OfApplication(applicationId)), InEnvironmentOfType(environment, instanceType))
  }

  /** A domain is selected exactly when it belongs to the application, the environment and the
      type, and the selection keeps table order. */
  lemma ForEnvironmentAndInstanceTypeSpec(domains: seq<Domain>, applicationId: Uuid, environment: string,
                                          instanceType: InstanceType, d: Domain)
    ensures var r := ForEnvironmentAndInstanceType(domains, applicationId, environment, instanceType);
      (d in r <==> d in domains && d.applicationId == applicationId && d.environment == environment &&
                   d.instanceType == instanceType) &&
      IsSublist(r, domains)
  {
    var mine := Filter(domains, OfApplication(applicationId));
    FilterMembers(domains, OfApplication(applicationId), d);
    FilterMembers(mine, InEnvironmentOfType(environment, instanceType), d);
    FilterIsSublist(domains, OfApplication(applicationId));
    FilterIsSublist(mine, InEnvironmentOfType(environment, instanceType));
    SublistTransitive(Filter(mine, InEnvironmentOfType(environment, instanceType)), mine, domains);
  }

  /** The table invariant: ids are unique and non-nil, and names are unique. */
  predicate ValidDomains(domains: seq<Domain>)
  {
    (forall i :: 0 <= i < |domains| ==> domains[i].id != NilUuid) &&
    (forall i, j :: 0 <= i < j < |domains| ==> domains[i].id != domains[j].id) &&
    (forall i, j :: 0 <= i < j < |domains| ==> domains[i].name != domains[j].name)
  }

  /** In a valid table a name is refused exactly when some domain, of any application and
      environment, has it. */
  lemma TakenSpec(domains: seq<Domain>, name: string)
    requires ValidDomains(domains)
    ensures Taken(domains, name) <==> exists i :: 0 <= i < |domains| && domains[i].name == name
  {
  }

  class DomainService {
    var domains: seq<Domain>

    constructor ()
      ensures domains == []
    {
      domains := [];
    }

    /** `AddDomain`: a lookup failure other than "not found" is returned; a taken name is
        refused; otherwise one CREATED domain is stored. */
    method AddDomain(applicationId: Uuid, params: AddDomainParams, newId: Uuid, lookupFault: Option<string>)
      returns (r: Result<Domain>)
      modifies this
      ensures lookupFault.Some? ==> r == Err(lookupFault.value) && domains == old(domains)
      ensures lookupFault.None? && Taken(old(domains), params.name) ==> r.Err? && domains == old(domains)
      ensures lookupFault.None? && !Taken(old(domains), params.name) ==>
        r == Ok(Domain(newId, applicationId, params.name, params.environment, params.instanceType, DomainStatusCreated)) &&
        domains == old(domains) + [r.value]
    {
      if lookupFault.Some? {
        return Err(lookupFault.value);
      }
      var found := FindByName(domains, params.name);
      if found.Some? && found.value.id != NilUuid {
        return Err("this domain already exists in envronment: " + found.value.environment);
      }
      var d := Domain(newId, applicationId, params.name, params.environment, params.instanceType, DomainStatusCreated);
      domains := domains + [d];
      return Ok(d);
    }

    /** `RemoveDomain`: an unknown name is an error, another application's domain is "access
        denied"; otherwise the domain is deleted by id and returned. */
    method RemoveDomain(applicationId: Uuid, name: string) returns (r: Result<Domain>)
      modifies this
      ensures FindByName(old(domains), name).None? ==> r.Err? && domains == old(domains)
      ensures FindByName(old(domains), name).Some? && FindByName(old(domains), name).value.applicationId != applicationId ==>
        r == Err("access denied") && domains == old(domains)
      ensures FindByName(old(domains), name).Some? && FindByName(old(domains), name).value.applicationId == applicationId ==>
        r == Ok(FindByName(old(domains), name).value) && domains == Filter(old(domains), Except(r.value.id))
    {
      var found := FindByName(domains, name);
      if found.None? {
        return Err("record not found");
      }
      if found.value.applicationId != applicationId {
        return Err("access denied");
      }
      domains := Filter(domains, Except(found.value.id));
      return Ok(found.value);
    }
  }

  /** Adding a domain with a fresh non-nil id keeps names unique. */
  lemma AddKeepsValid(domains: seq<Domain>, d: Domain)
    requires ValidDomains(domains) && d.id != NilUuid && !Taken(domains, d.name)
    requires forall i :: 0 <= i < |domains| ==> domains[i].id != d.id
    ensures ValidDomains(domains + [d])
  {
    TakenSpec(domains, d.name);
  }

  /** Removing in a valid table deletes exactly the named domain: every other domain stays, in
      order, and the table stays valid. */
  lemma RemoveDeletesExactly(domains: seq<Domain>, name: string, x: Domain)
    requires ValidDomains(domains) && FindByName(domains, name).Some?
    ensures var after := Filter(domains, Except(FindByName(domains, name).value.id));
      (x in after <==> x in domains && x.name != name) && IsSublist(after, domains) && |after| == |domains| - 1
  {
    var found := FindByName(domains, name).value;
    var after := Filter(domains, Except(found.id));
    FilterMembers(domains, Except(found.id), x);
    FilterIsSublist(domains, Except(found.id));
    if x in domains {
      var i :| 0 <= i < |domains| && domains[i] == x;
      var k :| 0 <= k < |domains| && domains[k] == found;
      assert x.id == found.id <==> i == k;
      assert x.name == name <==> i == k;
    }
    FilterDropsOne(domains, found.id);
  }

  /** Deleting one id present once shortens the table by one. */
  lemma {:induction false} FilterDropsOne(domains: seq<Domain>, id: Uuid)
    requires forall i, j :: 0 <= i < j < |domains| ==> domains[i].id != domains[j].id
    requires exists k :: 0 <= k < |domains| && domains[k].id == id
    ensures |Filter(domains, Except(id))| == |domains| - 1
  {
    if domains[0].id == id {
      assert forall i :: 0 <= i < |domains[1..]| ==> Except(id)(domains[1..][i]);
      FilterAll(domains[1..], Except(id));
    } else {
      var k :| 0 <= k < |domains| && domains[k].id == id;
      assert domains[1..][k - 1].id == id;
      FilterDropsOne(domains[1..], id);
    }
  }
}

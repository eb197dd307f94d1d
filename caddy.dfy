/** The proxy client (internal/integrations/caddy/caddy.go). The routes of the proxy's main server
    are a field that each operation reads and writes back, as the client does with a GET of the
    configuration followed by a PATCH or DELETE. */
module Caddy {
  import opened Wrappers
  import opened Seqs
  import opened Types
  import opened Domains
  import Misc

  const MainAccessListenPort: seq<string> := [":80", ":443"]
  const CaddyAdminAccessPort: string := ":2019"
  const ReverseProxy: string := "reverse_proxy"
  const FileServer: string := "file_server"

  /** The two domain operations; any other value is treated like removal. */
  const DomainOperationAdd: string := "add"
  const DomainOperationRemove: string := "remove"

  datatype Upstream = Upstream(dial: string)
  datatype Handle = Handle(handler: string, upstreams: seq<Upstream>, root: string)
  datatype Match = Match(host: seq<string>)
  datatype Route = Route(handle: seq<Handle>, matchers: seq<Match>)

  /** Whether some matcher of the route lists the host. */
  predicate RouteMatches(r: Route, host: string)
  {
    exists j :: 0 <= j < |r.matchers| && host in r.matchers[j].host
  }

  /** `findRouteIndex`: the first route with a matcher listing the host, or -1. */
  function RouteIndex(routes: seq<Route>, host: string): (k: int)
    ensures -1 <= k < |routes|
    ensures k >= 0 ==> RouteMatches(routes[k], host) && forall i :: 0 <= i < k ==> !RouteMatches(routes[i], host)
    ensures k == -1 <==> forall i :: 0 <= i < |routes| ==> !RouteMatches(routes[i], host)
  {
    if routes == [] then -1
    else if RouteMatches(routes[0], host) then 0
    else
      var k := RouteIndex(routes[1..], host);
      if k == -1 then -1 else k + 1
  }

  /** The upstreams of a backend route: instance i is dialled at its internal address. */
  function Upstreams(d: Deployment): (u: seq<Upstream>)
    requires d.instances >= 0
    ensures |u| == d.instances
  {
    seq(d.instances, i requires 0 <= i < d.instances => Upstream(InternalAccessURL(d, i)))
  }

  /** The route `patchBackendConfig` writes: one reverse proxy over every instance, matching the
      backend address and, when given, one more host. */
  function BackendRoute(d: Deployment, host: string): Route
    requires d.instances >= 0
  {
    var hosts := [AccessURL(d, InstanceTypeBackend)] + (if host != "" then [host] else []);
    Route([Handle(ReverseProxy, Upstreams(d), "")], [Match(hosts)])
  }

  /** The route `patchFrontendConfig` writes: a file server over the deployment's site files. */
  function FrontendRoute(d: Deployment): Route
  {
    Route([Handle(FileServer, [], SiteContentPath(d))], [Match([AccessURL(d, InstanceTypeFrontend)])])
  }

  /** A route written at the index found: appended when there is none, replaced in place
      otherwise. */
  function Patched(routes: seq<Route>, k: int, route: Route): (r: seq<Route>)
    requires -1 <= k < |routes|
  {
    if k == -1 then routes + [route] else routes[k := route]
  }

  /** The host list after a domain operation on a route's first matcher. */
  function DomainHosts(hosts: seq<string>, name: string, op: string): seq<string>
  {
    if op == DomainOperationAdd then hosts + [name] else Filter(hosts, Other(name))
  }

  function Other(name: string): string -> bool
  {
    (h: string) => h != name
  }

  /** A backend route has one reverse-proxy handler with exactly one upstream per instance, the
      i-th dialling instance i, and it matches the backend address (and the extra host). */
  lemma BackendRouteSpec(d: Deployment, host: string)
    requires d.instances >= 0
    ensures var r := BackendRoute(d, host);
      |r.handle| == 1 && r.handle[0].handler == ReverseProxy && |r.handle[0].upstreams| == d.instances &&
      (forall i :: 0 <= i < d.instances ==> r.handle[0].upstreams[i].dial == InternalAccessURL(d, i)) &&
      |r.matchers| == 1 && r.matchers[0].host[0] == AccessURL(d, InstanceTypeBackend) &&
      (host == "" ==> |r.matchers[0].host| == 1) && (host != "" ==> r.matchers[0].host == [AccessURL(d, InstanceTypeBackend), host])
  {
  }

  /** Patching touches only the route at the found index, or appends after all existing ones. */
  lemma PatchedSpec(routes: seq<Route>, k: int, route: Route)
    requires -1 <= k < |routes|
    ensures k == -1 ==> |Patched(routes, k, route)| == |routes| + 1 && Patched(routes, k, route)[..|routes|] == routes &&
                        Patched(routes, k, route)[|routes|] == route
    ensures k >= 0 ==> |Patched(routes, k, route)| == |routes| && Patched(routes, k, route)[k] == route &&
                       forall i :: 0 <= i < |routes| && i != k ==> Patched(routes, k, route)[i] == routes[i]
  {
  }

  /** After writing a route that lists the host at the index found for that host, the route is
      found there: patching the same deployment again replaces it instead of adding another. */
  lemma PatchedIsFound(routes: seq<Route>, host: string, route: Route)
    requires RouteMatches(route, host)
    ensures var k := RouteIndex(routes, host);
      RouteIndex(Patched(routes, k, route), host) == (if k == -1 then |routes| else k)
  {
    var k := RouteIndex(routes, host);
    var after := Patched(routes, k, route);
    var m := RouteIndex(after, host);
    var expected := if k == -1 then |routes| else k;
    assert after[expected] == route;
    forall i | 0 <= i < expected
      ensures !RouteMatches(after[i], host)
    {
      assert after[i] == routes[i];
    }
    assert RouteMatches(after[expected], host);
  }

  /** A backend route lists the backend address, so it is found by it. */
  lemma BackendRouteMatches(d: Deployment, host: string)
    requires d.instances >= 0
    ensures RouteMatches(BackendRoute(d, host), AccessURL(d, InstanceTypeBackend))
  {
    assert AccessURL(d, InstanceTypeBackend) in BackendRoute(d, host).matchers[0].host;
  }

  /** Adding a domain appends it after the old hosts; removing keeps the old hosts in order, less
      every occurrence of the domain. */
  lemma DomainHostsSpec(hosts: seq<string>, name: string, op: string, h: string)
    ensures op == DomainOperationAdd ==> DomainHosts(hosts, name, op) == hosts + [name]
    ensures op != DomainOperationAdd ==>
      (h in DomainHosts(hosts, name, op) <==> h in hosts && h != name) && IsSublist(DomainHosts(hosts, name, op), hosts)
  {
    if op != DomainOperationAdd {
      FilterMembers(hosts, Other(name), h);
      FilterIsSublist(hosts, Other(name));
    }
  }

  /** The nested search loop of `findRouteIndex`. */
  method FindRouteIndex(routes: seq<Route>, host: string) returns (idx: int)
    ensures idx == RouteIndex(routes, host)
  {
    for k := 0 to |routes|
      invariant forall i :: 0 <= i < k ==> !RouteMatches(routes[i], host)
    {
      var next := routes[k];
      for j := 0 to |next.matchers|
        invariant forall m :: 0 <= m < j ==> host !in next.matchers[m].host
      {
        var found := Misc.StrContains(host, next.matchers[j].host);
        if found {
          return k;
        }
      }
    }
    return -1;
  }

  /** The loop of `patchBackendConfig` that builds the upstreams. */
  method BuildUpstreams(d: Deployment) returns (upstreams: seq<Upstream>)
    requires d.instances >= 0
    ensures upstreams == Upstreams(d)
  {
    upstreams := [];
    for idx := 0 to d.instances
      invariant |upstreams| == idx
      invariant forall i :: 0 <= i < idx ==> upstreams[i] == Upstream(InternalAccessURL(d, i))
    {
      upstreams := upstreams + [Upstream(InternalAccessURL(d, idx))];
    }
  }

  /** The removal loop of `ApplyDomainConfig`: every host except the domain. */
  method RemoveHost(hosts: seq<string>, name: string) returns (kept: seq<string>)
    ensures kept == Filter(hosts, Other(name))
  {
    kept := [];
    for i := 0 to |hosts|
      invariant kept == Filter(hosts[..i], Other(name))
    {
      FilterStep(hosts, i, Other(name));
      if hosts[i] != name {
        kept := kept + [hosts[i]];
      }
    }
    assert hosts[..|hosts|] == hosts;
  }

  class CaddyClient {
    /** The routes of the main server. */
    var routes: seq<Route>
    var listen: seq<string>
    var adminListen: string

    /** `Init`: a main server on ports 80 and 443 with no routes, the admin API on 2019. */
    constructor Init()
      ensures routes == [] && listen == MainAccessListenPort && adminListen == CaddyAdminAccessPort
    {
      routes := [];
      listen := MainAccessListenPort;
      adminListen := CaddyAdminAccessPort;
    }

    /** `ApplyConfig`: write the backend or frontend route; other instance types are refused. */
    method ApplyConfig(instanceType: InstanceType, d: Deployment) returns (r: Outcome)
      requires instanceType == InstanceTypeBackend ==> d.instances >= 0
      modifies this
      ensures listen == old(listen) && adminListen == old(adminListen)
      ensures instanceType == InstanceTypeBackend ==>
        r == Pass && routes == Patched(old(routes), RouteIndex(old(routes), AccessURL(d, InstanceTypeBackend)), BackendRoute(d, ""))
      ensures instanceType == InstanceTypeFrontend ==>
        r == Pass && routes == Patched(old(routes), RouteIndex(old(routes), AccessURL(d, InstanceTypeFrontend)), FrontendRoute(d))
      ensures instanceType != InstanceTypeBackend && instanceType != InstanceTypeFrontend ==>
        r.Fail? && routes == old(routes)
    {
      if instanceType == InstanceTypeBackend {
        PatchBackendConfig(d, "");
        return Pass;
      } else if instanceType == InstanceTypeFrontend {
        PatchFrontendConfig(d);
        return Pass;
      }
      return Fail("instance type not supported: " + instanceType);
    }

    /** `ApplyDomainConfig`: add the domain to, or remove it from, the first matcher of the route
        of the domain's instance type; when there is no such route, write a backend route that
        also lists the domain. Only that last path builds upstreams, so only it needs a
        non-negative instance count. */
    method ApplyDomainConfig(domain: Domain, d: Deployment, op: string)
      requires RouteIndex(routes, AccessURL(d, domain.instanceType)) == -1 ==> d.instances >= 0
      modifies this
      ensures listen == old(listen) && adminListen == old(adminListen)
      ensures var k := RouteIndex(old(routes), AccessURL(d, domain.instanceType));
        k == -1 ==>
          routes == Patched(old(routes), RouteIndex(old(routes), AccessURL(d, InstanceTypeBackend)), BackendRoute(d, domain.name))
      ensures var k := RouteIndex(old(routes), AccessURL(d, domain.instanceType));
        k >= 0 ==>
          routes == old(routes)[k := Route(old(routes)[k].handle, [Match(DomainHosts(old(routes)[k].matchers[0].host, domain.name, op))])]
    {
      var routeIdx := FindRouteIndex(routes, AccessURL(d, domain.instanceType));
      if routeIdx == -1 {
        PatchBackendConfig(d, domain.name);
        return;
      }
      var currentRoute := routes[routeIdx];
      var currentHosts := currentRoute.matchers[0].host;
      var hosts: seq<string>;
      if op == DomainOperationAdd {
        hosts := currentHosts + [domain.name];
      } else {
        hosts := RemoveHost(currentHosts, domain.name);
      }
      routes := routes[routeIdx := Route(currentRoute.handle, [Match(hosts)])];
    }

    /** `patchBackendConfig`. A negative instance count is excluded: the source allocates the
        upstream list with it as capacity, which panics. */
    method PatchBackendConfig(d: Deployment, host: string)
      requires d.instances >= 0
      modifies this
      ensures listen == old(listen) && adminListen == old(adminListen)
      ensures routes == Patched(old(routes), RouteIndex(old(routes), AccessURL(d, InstanceTypeBackend)), BackendRoute(d, host))
    {
      var routeIdx := FindRouteIndex(routes, AccessURL(d, InstanceTypeBackend));
      var upstreams := BuildUpstreams(d);
      var hosts := [AccessURL(d, InstanceTypeBackend)];
      if host != "" {
        hosts := hosts + [host];
      }
      assert hosts == [AccessURL(d, InstanceTypeBackend)] + (if host != "" then [host] else []);
      assert upstreams == Upstreams(d);
      var updatedRoute := Route([Handle(ReverseProxy, upstreams, "")], [Match(hosts)]);
      assert updatedRoute == BackendRoute(d, host);
      if routeIdx == -1 {
        routes := routes + [updatedRoute];
      } else {
        routes := routes[routeIdx := updatedRoute];
      }
    }

    /** `patchFrontendConfig`. */
    method PatchFrontendConfig(d: Deployment)
      modifies this
      ensures listen == old(listen) && adminListen == old(adminListen)
      ensures routes == Patched(old(routes), RouteIndex(old(routes), AccessURL(d, InstanceTypeFrontend)), FrontendRoute(d))
    {
      var routeIdx := FindRouteIndex(routes, AccessURL(d, InstanceTypeFrontend));
      var updatedRoute := FrontendRoute(d);
      if routeIdx == -1 {
        routes := routes + [updatedRoute];
      } else {
        routes := routes[routeIdx := updatedRoute];
      }
    }

    /** `RemoveConfig`: delete the route of the deployment's own instance type, if there is one. */
    method RemoveConfig(d: Deployment)
      modifies this
      ensures listen == old(listen) && adminListen == old(adminListen)
      ensures var k := RouteIndex(old(routes), AccessURL(d, d.instanceType));
        routes == if k == -1 then old(routes) else old(routes)[..k] + old(routes)[k + 1..]
    {
      var routeIdx := FindRouteIndex(routes, AccessURL(d, d.instanceType));
      if routeIdx == -1 {
        return;
      }
      routes := routes[..routeIdx] + routes[routeIdx + 1..];
    }
  }

  /** Removing a deployment's route leaves no route for its address before the removed position
      and every other route in order. */
  lemma RemovedRouteSpec(routes: seq<Route>, host: string)
    requires RouteIndex(routes, host) >= 0
    ensures var k := RouteIndex(routes, host);
      var after := routes[..k] + routes[k + 1..];
      |after| == |routes| - 1 && (forall i :: 0 <= i < k ==> after[i] == routes[i] && !RouteMatches(after[i], host)) &&
      (forall i :: k <= i < |after| ==> after[i] == routes[i + 1])
  {
  }
}

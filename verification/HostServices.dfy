/**
 The upstream lists that the main service of a proxy host leads to, and whether the edge keeps them.

 A composed service leads to the lists of the backend groups it uses. The edge knows no modes: it
 goes by the host's own upstreams or the first group that has any.
 */
module HostServices {
  import opened Hosts
  import opened RenderSpec
  import opened RenderClosure
  import opened RenderGating
  import LocationRouters
  import EdgeServer

  type Services = map<string, Service>

  /** From the service one comes to the list `u` in at most `n` steps from a service to a child. */
  ghost predicate LeadsWithin(m: Services, name: string, u: seq<Upstream>, n: nat)
    decreases n
  {
    name in m && (m[name] == Servers(u) || (n > 0 && exists c :: c in Children(m[name]) && LeadsWithin(m, c, u, n - 1)))
  }

  ghost predicate LeadsTo(m: Services, name: string, u: seq<Upstream>) { exists n: nat :: LeadsWithin(m, name, u, n) }

  /** The service leads to this list and to no other. */
  ghost predicate LeadsOnlyTo(m: Services, name: string, u: seq<Upstream>) {
    forall w :: LeadsTo(m, name, w) <==> w == u
  }

  lemma ListLeadsToItself(m: Services, name: string, u: seq<Upstream>)
    requires name in m && m[name].Servers?
    ensures LeadsTo(m, name, u) <==> m[name] == Servers(u)
  {
    if m[name] == Servers(u) { assert LeadsWithin(m, name, u, 0); }
  }

  lemma ComposedLeads(m: Services, name: string, u: seq<Upstream>)
    requires name in m && !m[name].Servers?
    requires forall c :: c in Children(m[name]) ==> c in m && m[c].Servers?
    ensures LeadsTo(m, name, u) <==> exists c :: c in Children(m[name]) && m[c] == Servers(u)
  {
    hide Children;
    if c :| c in Children(m[name]) && m[c] == Servers(u) {
      assert LeadsWithin(m, c, u, 0);
      assert LeadsWithin(m, name, u, 1);
    }
    if n: nat :| LeadsWithin(m, name, u, n) {
      var c :| c in Children(m[name]) && LeadsWithin(m, c, u, n - 1);
      ListLeadsToItself(m, c, u);
    }
  }

  // ---------------------------------------------------------------- the services of backend groups

  lemma GroupNamesInjective(id: string, i: nat, j: nat)
    ensures GroupName(id, i) == GroupName(id, j) ==> i == j
  {
    LocationRouters.ItoaRoundTrip(i);
    LocationRouters.ItoaRoundTrip(j);
    var n := |"svc-" + id + "-g"|;
    assert GroupName(id, i)[n..] == Itoa(i) && GroupName(id, j)[n..] == Itoa(j);
  }

  lemma {:induction false} GroupServiceIs(h: Host, n: nat, i: nat)
    requires i < n <= |h.backendGroups|
    ensures GroupName(h.id, i) in GroupServices(h, n)
    ensures GroupServices(h, n)[GroupName(h.id, i)] == Servers(h.backendGroups[i].upstreams)
  {
    GroupNamesInjective(h.id, i, n - 1);
    hide GroupName;
    if i < n - 1 { GroupServiceIs(h, n - 1, i); }
  }

  lemma GroupNameIsNoOther(id: string, i: nat, j: nat)
    ensures GroupName(id, i) != ServiceName(id) && GroupName(id, i) != LocServiceName(id, j)
    ensures GroupName(id, i)[0] == 's'
  {
    var n := |"svc-" + id|;
    assert |GroupName(id, i)| > n == |ServiceName(id)|;
    assert GroupName(id, i)[n + 1] == 'g' && LocServiceName(id, j)[n + 1] == 'l';
  }

  lemma {:induction false} GroupNotLocation(h: Host, inp: Inputs, n: nat, i: nat)
    requires n <= |h.locations|
    ensures GroupName(h.id, i) !in LocParts(h, inp, n).services
  {
    NoLocParts(h, inp);
    if n > 0 {
      GroupNameIsNoOther(h.id, i, n - 1);
      LocPartsStep(h, inp, n - 1);
      hide LocParts, LocRouter, LocRouterName, LocServiceName, GroupName, StripName;
      GroupNotLocation(h, inp, n - 1, i);
    }
  }

  lemma {:induction false} GroupNotRaw(id: string, names: seq<string>, i: nat)
    ensures GroupName(id, i) !in RawServices(id, names)
  {
    if names != [] {
      GroupNotRaw(id, names[..|names| - 1], i);
      GroupNameIsNoOther(id, i, 0);
      assert RawName(id, names[|names| - 1])[0] == 'h';
    }
  }

  /** The host's mode spreads the requests over backend groups. */
  predicate IsComposed(h: Host) {
    h.serviceMode in {"weighted", "failover", "mirroring"} && h.backendGroups != []
  }

  /** The composed service has this group among its children: failover looks at two groups only. */
  predicate UsesGroup(h: Host, i: nat) { i < |h.backendGroups| && (h.serviceMode == "failover" ==> i < 2) }

  lemma GroupServiceStays(h: Host, inp: Inputs, i: nat)
    requires !RoutesToEdge(h, inp) && IsComposed(h) && i < |h.backendGroups|
    ensures GroupName(h.id, i) in ProxyParts(h, inp).services
    ensures ProxyParts(h, inp).services[GroupName(h.id, i)] == Servers(h.backendGroups[i].upstreams)
  {
    GroupServiceIs(h, |h.backendGroups|, i);
    GroupNotLocation(h, inp, |h.locations|, i);
    GroupNotRaw(h.id, FragmentOf(h).services, i);
    GroupNameIsNoOther(h.id, i, 0);
    hide LocParts, RawServices, GroupServices, ServiceName, GroupName, RawMiddlewares, CollectedMiddlewares,
         ErrorMiddlewares, CacheMiddlewares, SchemeMiddlewares, MainRouter, TrustedRouters, StaticRouters,
         PlainHttpRouters, RoutesToEdge;
  }

  lemma NamesOfMore(children: seq<Child>, c: Child)
    ensures RenderClosure.Names(children + [c]) == RenderClosure.Names(children) + {c.name}
  {
    var more := children + [c];
    assert more[|children|] == c;
    assert forall x :: x in children ==> x in more;
  }

  lemma {:induction false} WeightedAreGroups(h: Host, n: nat)
    requires n <= |h.backendGroups|
    ensures forall i :: 0 <= i < n ==> GroupName(h.id, i) in RenderClosure.Names(WeightedChildren(h, n))
  {
    if n > 0 {
      WeightedAreGroups(h, n - 1);
      var w := WeightedChildren(h, n);
      NamesOfMore(WeightedChildren(h, n - 1), w[|w| - 1]);
      hide GroupName, RenderClosure.Names;
    }
  }

  lemma {:induction false} MirrorsAreGroups(h: Host, n: nat)
    requires n <= |h.backendGroups|
    ensures forall i :: 1 <= i < n ==> GroupName(h.id, i) in RenderClosure.Names(MirrorChildren(h, n))
  {
    if n > 1 {
      MirrorsAreGroups(h, n - 1);
      var s := MirrorChildren(h, n);
      NamesOfMore(MirrorChildren(h, n - 1), s[|s| - 1]);
      hide GroupName, RenderClosure.Names;
    }
  }

  lemma ComposedChildren(h: Host, c: string)
    requires IsComposed(h)
    ensures c in Children(ComposedService(h)) <==> exists i: nat :: UsesGroup(h, i) && c == GroupName(h.id, i)
  {
    var n := |h.backendGroups|;
    WeightedAreGroups(h, n);
    MirrorsAreGroups(h, n);
    ChildNames(h, n);
    GroupNameIsNoOther(h.id, 1, 0);
    hide GroupName, WeightedChildren, MirrorChildren;
    assert UsesGroup(h, 0) && (n > 1 ==> UsesGroup(h, 1));
    if c in Children(ComposedService(h)) {
      if h.serviceMode == "failover" {
        assert c == GroupName(h.id, 0) || (n > 1 && c == GroupName(h.id, 1));
      } else if i: nat :| i < n && c == GroupName(h.id, i) {
        assert UsesGroup(h, i);
      }
    }
  }

  /** The host's mode sends requests to the list. */
  ghost predicate UsesList(h: Host, u: seq<Upstream>) {
    if IsComposed(h) then exists i: nat :: UsesGroup(h, i) && h.backendGroups[i].upstreams == u else u == h.upstreams
  }

  /** The upstream lists that a host which Traefik serves itself can send a request to. */
  lemma MainServiceLeads(h: Host, inp: Inputs, u: seq<Upstream>)
    requires !RoutesToEdge(h, inp)
    ensures LeadsTo(ProxyParts(h, inp).services, ServiceName(h.id), u) <==> UsesList(h, u)
  {
    MainServiceStays(h, inp);
    var (m, s) := (ProxyParts(h, inp).services, ServiceName(h.id));
    hide ProxyParts, ServiceName, RoutesToEdge, LeadsTo, Children, WeightedChildren, MirrorChildren;
    if IsComposed(h) {
      forall i: nat | UsesGroup(h, i)
        ensures GroupName(h.id, i) in m && m[GroupName(h.id, i)] == Servers(h.backendGroups[i].upstreams)
      {
        GroupServiceStays(h, inp, i);
      }
      forall c ensures c in Children(m[s]) <==> exists i: nat :: UsesGroup(h, i) && c == GroupName(h.id, i) {
        ComposedChildren(h, c);
      }
      hide ComposedService, GroupName, UsesGroup;
      ComposedLeads(m, s, u);
    } else {
      ListLeadsToItself(m, s, u);
    }
  }

  /**
   Outside its locations, the edge keeps the upstream list of a host that Traefik serves itself,
   which is the one list that the host's service leads to, if and only if the edge's list is that
   of a host in single mode, or that of every backend group in use of a composed one. So hosts in
   failover, mirroring and weighted mode lose all groups but one, unless these have equal lists.
   */
  lemma MainListKept(h: Host, inp: Inputs)
    requires !RoutesToEdge(h, inp)
    ensures LeadsOnlyTo(ProxyParts(h, inp).services, ServiceName(h.id),
        EdgeServer.MainUpstreams(EdgeServer.EdgeViewOf(h)))
       <==> if !IsComposed(h) then h.upstreams != [] || EdgeServer.FirstGroup(h.backendGroups) == []
            else
              var list := if h.upstreams != [] then h.upstreams else EdgeServer.FirstGroup(h.backendGroups);
              forall i: nat :: UsesGroup(h, i) ==> h.backendGroups[i].upstreams == list
  {
    var (m, list) := (ProxyParts(h, inp).services, EdgeServer.MainUpstreams(EdgeServer.EdgeViewOf(h)));
    forall u ensures LeadsTo(m, ServiceName(h.id), u) <==> UsesList(h, u) { MainServiceLeads(h, inp, u); }
    UsesOneList(h, list);
    hide ProxyParts, ServiceName, RoutesToEdge, LeadsTo, UsesList, IsComposed, UsesGroup, EdgeServer.FirstGroup;
  }

  lemma UsesOneList(h: Host, list: seq<Upstream>)
    ensures (forall u :: UsesList(h, u) <==> u == list)
       <==> if !IsComposed(h) then h.upstreams == list
            else forall i: nat :: UsesGroup(h, i) ==> h.backendGroups[i].upstreams == list
  {
    if IsComposed(h) {
      assert UsesGroup(h, 0);
      hide IsComposed, UsesGroup;
      forall i: nat | UsesGroup(h, i) ensures UsesList(h, h.backendGroups[i].upstreams) {}
      assert UsesList(h, h.backendGroups[0].upstreams);
    } else {
      assert UsesList(h, h.upstreams);
    }
  }

  /** A composed host with one group and no upstreams of its own keeps its list. */
  lemma OneGroupIsKept(h: Host, inp: Inputs)
    requires !RoutesToEdge(h, inp) && IsComposed(h) && |h.backendGroups| == 1 && h.upstreams == []
    ensures LeadsOnlyTo(ProxyParts(h, inp).services, ServiceName(h.id),
        EdgeServer.MainUpstreams(EdgeServer.EdgeViewOf(h)))
  {
    MainListKept(h, inp);
    hide LeadsOnlyTo, ProxyParts, RoutesToEdge;
    assert EdgeServer.FirstGroup(h.backendGroups) == h.backendGroups[0].upstreams by {
      assert h.backendGroups[1..] == [];
    }
  }
}

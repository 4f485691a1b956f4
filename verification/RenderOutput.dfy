/**
 The whole rendered configuration, seen from one host.

 What the host wrote is what the output holds under the host's names, so results about a host's
 own parts are results about the output. This needs that no identifier of a host begins with that
 of another: two hosts could then use the same name, and the one that is rendered later would
 overwrite a part of the earlier one.
 */
module RenderOutput {
  import opened Options
  import opened Text
  import opened Hosts
  import opened HostRule
  import opened RenderSpec
  import opened RenderClosure
  import opened RenderGating

  /** What one host writes, but for the shared noop service. */
  function HostParts(h: Host, inp: Inputs): Cfg {
    if !h.enabled then Empty
    else match h.kind
      case Proxy => ProxyParts(h, inp)
      case Redirection => RedirectionParts(h, inp)
      case Dead => DeadParts(h, inp)
      case Stream => StreamParts(h)
  }

  lemma AddHostParts(c: Cfg, h: Host, inp: Inputs)
    ensures AddHost(c, h, inp).routers == c.routers + HostParts(h, inp).routers
    ensures var s := AddHost(c, h, inp).services;
            s == c.services + HostParts(h, inp).services
            || s == c.services[NOOP := NOOP_SERVICE] + HostParts(h, inp).services
  {
    OverMaps(c, HostParts(h, inp));
    OverMaps(WithNoop(c), HostParts(h, inp));
    NoopMaps(c);
    PlusEmptyMap(c.routers);
    PlusEmptyMap(c.services);
    hide ProxyParts, RedirectionParts, DeadParts, StreamParts, Over, WithNoop;
  }

  lemma OverMaps(c: Cfg, d: Cfg)
    ensures Over(c, d).routers == c.routers + d.routers && Over(c, d).services == c.services + d.services
  {}

  lemma NoopMaps(c: Cfg)
    ensures WithNoop(c).routers == c.routers
    ensures WithNoop(c).services == c.services || WithNoop(c).services == c.services[NOOP := NOOP_SERVICE]
  {}

  lemma PlusEmptyMap<T>(m: map<string, T>)
    ensures m + map[] == m
  {}

  // ---------------------------------------------------------------- routers

  lemma HostRouterKeys(h: Host, inp: Inputs)
    ensures Under(HostParts(h, inp).routers, h.id)
  {
    ProxyRouterKeys(h, inp);
    OtherKindKeys(h, inp);
    hide ProxyParts, RedirectionParts, DeadParts, StreamParts;
  }

  lemma OnePrefix(a: string, b: string, k: string)
    requires RouterName(a) <= k && RouterName(b) <= k
    ensures a <= b || b <= a
  {
    PrefixOfRouterName(a, b);
    PrefixOfRouterName(b, a);
    hide RouterName;
    if |RouterName(a)| <= |RouterName(b)| {
      assert RouterName(a) == k[..|RouterName(a)|] == RouterName(b)[..|RouterName(a)|];
    } else {
      assert RouterName(b) == k[..|RouterName(b)|] == RouterName(a)[..|RouterName(b)|];
    }
  }

  /** The maps agree on the key. */
  predicate SameAt<T(==)>(a: map<string, T>, b: map<string, T>, k: string) {
    (k in a <==> k in b) && (k in a ==> a[k] == b[k])
  }

  lemma OneMoreHost(c: Cfg, hosts: seq<Host>, inp: Inputs)
    requires hosts != []
    ensures AddHosts(c, hosts, inp).routers
         == AddHosts(c, hosts[..|hosts| - 1], inp).routers + HostParts(hosts[|hosts| - 1], inp).routers
  {
    AddHostParts(AddHosts(c, hosts[..|hosts| - 1], inp), hosts[|hosts| - 1], inp);
    hide AddHost, HostParts;
  }

  lemma NoHosts(c: Cfg, inp: Inputs)
    ensures AddHosts(c, [], inp) == c
  {}

  lemma {:induction false} NoneUnder(c: Cfg, hosts: seq<Host>, inp: Inputs, k: string)
    requires forall h :: h in hosts ==> !(RouterName(h.id) <= k)
    ensures SameAt(AddHosts(c, hosts, inp).routers, c.routers, k)
  {
    hide AddHosts, HostParts, RouterName;
    if hosts == [] {
      NoHosts(c, inp);
    } else {
      NoneUnder(c, hosts[..|hosts| - 1], inp, k);
      OneMoreHost(c, hosts, inp);
      HostRouterKeys(hosts[|hosts| - 1], inp);
    }
  }

  lemma {:induction false} HostOwnsKey(c: Cfg, hosts: seq<Host>, inp: Inputs, i: nat, k: string)
    requires i < |hosts| && IdsPrefixFree(hosts) && RouterName(hosts[i].id) <= k && k !in c.routers
    ensures SameAt(AddHosts(c, hosts, inp).routers, HostParts(hosts[i], inp).routers, k)
  {
    hide AddHosts, HostParts, RouterName, IdsPrefixFree;
    var before, last := hosts[..|hosts| - 1], hosts[|hosts| - 1];
    OneMoreHost(c, hosts, inp);
    PrefixFreeBefore(hosts);
    if i < |before| {
      HostOwnsKey(c, before, inp, i, k);
      HostRouterKeys(last, inp);
      OthersPrefix(hosts, i, |before|, k);
    } else {
      NoneBefore(hosts, i, k);
      NoneUnder(c, before, inp, k);
    }
  }

  lemma NoneBefore(hosts: seq<Host>, i: nat, k: string)
    requires i < |hosts| && IdsPrefixFree(hosts) && RouterName(hosts[i].id) <= k
    ensures forall h :: h in hosts[..i] ==> !(RouterName(h.id) <= k)
  {
    hide RouterName, IdsPrefixFree;
    forall h | h in hosts[..i] ensures !(RouterName(h.id) <= k) {
      var j :| 0 <= j < i && hosts[j] == h;
      OthersPrefix(hosts, i, j, k);
    }
  }

  lemma OthersPrefix(hosts: seq<Host>, i: nat, j: nat, k: string)
    requires i < |hosts| && j < |hosts| && i != j && IdsPrefixFree(hosts) && RouterName(hosts[i].id) <= k
    ensures !(RouterName(hosts[j].id) <= k)
  {
    hide RouterName;
    if RouterName(hosts[j].id) <= k { OnePrefix(hosts[i].id, hosts[j].id, k); }
  }

  lemma SharedRouters(inp: Inputs, id: string, k: string)
    requires RouterName(id) <= k
    ensures k !in BaseParts(inp).routers && k !in DefaultParts(inp).routers && k !in BannedParts(inp).routers
  {
    hide QuotedIps, UserMiddlewares, AccessListMiddlewares;
    assert k[0] == RouterName(id)[0] == 'h';
    assert CHALLENGE[0] == 'a' && "xgress-default-site-http"[0] == 'x' && "xgress-default-site-https"[0] == 'x';
    assert "xgress-banned-http"[0] == 'x' && "xgress-banned-https"[0] == 'x';
    hide RouterName;
  }

  /** With prefix-free ids the output holds, under a host's names, exactly the routers of that host. */
  lemma RoutersOfHost(inp: Inputs, i: nat, k: string)
    requires i < |inp.hosts| && IdsPrefixFree(inp.hosts) && RouterName(inp.hosts[i].id) <= k
    ensures SameAt(Rendered(inp).routers, HostParts(inp.hosts[i], inp).routers, k)
  {
    SharedRouters(inp, inp.hosts[i].id, k);
    HostOwnsKey(BaseParts(inp), inp.hosts, inp, i, k);
    hide AddHosts, HostParts, BaseParts, DefaultParts, BannedParts, RouterName;
  }

  /** A router of the output is shared or some host's own. */
  ghost predicate HasOrigin(inp: Inputs, k: string, r: Router) {
    IsShared(inp, k, r) || exists j :: IsHosts(inp.hosts, inp, j, k, r)
  }

  predicate IsShared(inp: Inputs, k: string, r: Router) {
    || (k in BaseParts(inp).routers && r == BaseParts(inp).routers[k])
    || (k in DefaultParts(inp).routers && r == DefaultParts(inp).routers[k])
    || (k in BannedParts(inp).routers && r == BannedParts(inp).routers[k])
  }

  predicate IsHosts(hosts: seq<Host>, inp: Inputs, j: int, k: string, r: Router) {
    0 <= j < |hosts| && k in HostParts(hosts[j], inp).routers && r == HostParts(hosts[j], inp).routers[k]
  }

  ghost predicate FromHosts(c: Cfg, hosts: seq<Host>, inp: Inputs, k: string, r: Router) {
    || (k in c.routers && r == c.routers[k])
    || exists j :: IsHosts(hosts, inp, j, k, r)
  }

  lemma {:induction false} HostsOrigin(c: Cfg, hosts: seq<Host>, inp: Inputs, k: string)
    requires k in AddHosts(c, hosts, inp).routers
    ensures FromHosts(c, hosts, inp, k, AddHosts(c, hosts, inp).routers[k])
  {
    if hosts != [] {
      var before, last := hosts[..|hosts| - 1], hosts[|hosts| - 1];
      OneMoreHost(c, hosts, inp);
      hide AddHosts, HostParts;
      var r := AddHosts(c, hosts, inp).routers[k];
      if k in HostParts(last, inp).routers {
        assert IsHosts(hosts, inp, |before|, k, r);
      } else {
        HostsOrigin(c, before, inp, k);
        if j :| IsHosts(before, inp, j, k, r) { assert IsHosts(hosts, inp, j, k, r); }
      }
    }
  }

  lemma RouterOrigin(inp: Inputs, k: string)
    requires k in Rendered(inp).routers
    ensures HasOrigin(inp, k, Rendered(inp).routers[k])
  {
    hide AddHosts, HostParts, BaseParts, DefaultParts, BannedParts;
    var c := AddHosts(BaseParts(inp), inp.hosts, inp);
    if k !in DefaultParts(inp).routers && k !in BannedParts(inp).routers {
      HostsOrigin(BaseParts(inp), inp.hosts, inp, k);
    }
  }

  // ---------------------------------------------------------------- services

  /** The name of a service that belongs to a host with this id. */
  predicate OwnService(id: string, k: string) { ServiceName(id) <= k }

  predicate ServiceKeys<T>(m: map<string, T>, id: string) {
    forall k :: k in m ==> OwnService(id, k) || RouterName(id) <= k
  }

  lemma ServiceKeysOver<T>(a: map<string, T>, b: map<string, T>, id: string)
    requires ServiceKeys(a, id) && ServiceKeys(b, id)
    ensures ServiceKeys(a + b, id)
  {}

  lemma {:induction false} GroupKeys(h: Host, n: nat)
    requires n <= |h.backendGroups|
    ensures ServiceKeys(GroupServices(h, n), h.id)
  {
    if n > 0 {
      GroupKeys(h, n - 1);
      assert ServiceName(h.id) <= GroupName(h.id, n - 1);
      hide GroupName, ServiceName, RouterName;
    }
  }

  lemma {:induction false} RawServiceKeys(id: string, names: seq<string>)
    ensures ServiceKeys(RawServices(id, names), id)
  {
    if names != [] {
      RawServiceKeys(id, names[..|names| - 1]);
      assert RouterName(id) <= RawName(id, names[|names| - 1]);
      hide RawName, ServiceName, RouterName;
    }
  }

  lemma {:induction false} LocServiceKeys(h: Host, inp: Inputs, n: nat)
    requires n <= |h.locations|
    ensures ServiceKeys(LocParts(h, inp, n).services, h.id)
  {
    NoLocParts(h, inp);
    if n > 0 {
      assert ServiceName(h.id) <= LocServiceName(h.id, n - 1);
      hide LocParts, LocRouter, LocRouterName, LocServiceName, ServiceName, StripName, RouterName;
      LocServiceKeys(h, inp, n - 1);
      LocPartsStep(h, inp, n - 1);
    }
  }

  lemma MainServiceKeys(h: Host, inp: Inputs)
    ensures ServiceKeys(MainServices(h, inp), h.id)
  {
    GroupKeys(h, |h.backendGroups|);
    hide ServiceName, RouterName, GroupServices, ComposedService, RoutesToEdge;
  }

  lemma HostServiceKeys(h: Host, inp: Inputs)
    ensures ServiceKeys(HostParts(h, inp).services, h.id)
  {
    MainServiceKeys(h, inp);
    RawServiceKeys(h.id, FragmentOf(h).services);
    LocServiceKeys(h, inp, |h.locations|);
    hide MainServices, RawServices, LocParts, RouterName, ServiceName, RawMiddlewares, CollectedMiddlewares,
         ErrorMiddlewares, CacheMiddlewares, SchemeMiddlewares, MainRouter, TrustedRouters, StaticRouters,
         PlainHttpRouters, ToLower, SniParts, RuleOf, CollectedNames, TrimRightSlashes;
    var main, raw, locs := MainServices(h, inp), RawServices(h.id, FragmentOf(h).services),
        LocParts(h, inp, |h.locations|).services;
    ServiceKeysOver(main, raw, h.id);
    ServiceKeysOver(main + raw, locs, h.id);
  }

  lemma PrefixOfServiceName(a: string, b: string, k: string)
    requires ServiceName(a) <= k && ServiceName(b) <= k
    ensures a <= b || b <= a
  {
    assert ServiceName(a)[4..] == a && ServiceName(b)[4..] == b;
    assert a == k[4..|ServiceName(a)|] && b == k[4..|ServiceName(b)|];
    if |a| <= |b| { assert a == b[..|a|]; } else { assert b == a[..|b|]; }
  }

  lemma NotAnothers(hosts: seq<Host>, i: nat, j: nat, inp: Inputs)
    requires i < |hosts| && j < |hosts| && i != j && IdsPrefixFree(hosts)
    ensures ServiceName(hosts[i].id) !in HostParts(hosts[j], inp).services && ServiceName(hosts[i].id) != NOOP
  {
    var k := ServiceName(hosts[i].id);
    HostServiceKeys(hosts[j], inp);
    assert k[0] == 's' && RouterName(hosts[j].id)[0] == 'h' && NOOP[0] == 'n';
    hide HostParts, RouterName;
    if ServiceName(hosts[j].id) <= k { PrefixOfServiceName(hosts[i].id, hosts[j].id, k); }
  }

  lemma {:induction false} HostOwnsService(c: Cfg, hosts: seq<Host>, inp: Inputs, i: nat)
    requires i < |hosts| && IdsPrefixFree(hosts) && ServiceName(hosts[i].id) in HostParts(hosts[i], inp).services
    ensures ServiceName(hosts[i].id) in AddHosts(c, hosts, inp).services
    ensures AddHosts(c, hosts, inp).services[ServiceName(hosts[i].id)]
         == HostParts(hosts[i], inp).services[ServiceName(hosts[i].id)]
  {
    var before, last := hosts[..|hosts| - 1], hosts[|hosts| - 1];
    ServiceIsNotNoop(hosts[i].id);
    StepAt(AddHosts(c, before, inp), last, inp, ServiceName(hosts[i].id));
    hide AddHost, HostParts, ServiceName;
    if i < |before| {
      NotAnothers(hosts, i, |before|, inp);
      PrefixFreeBefore(hosts);
      hide IdsPrefixFree;
      HostOwnsService(c, before, inp, i);
    }
  }

  lemma PrefixFreeBefore(hosts: seq<Host>)
    requires hosts != [] && IdsPrefixFree(hosts)
    ensures IdsPrefixFree(hosts[..|hosts| - 1])
  {}

  lemma StepAt(c: Cfg, h: Host, inp: Inputs, k: string)
    requires k != NOOP
    ensures SameAt(AddHost(c, h, inp).services,
                   if k in HostParts(h, inp).services then HostParts(h, inp).services else c.services, k)
  {
    AddHostParts(c, h, inp);
    hide AddHost, HostParts;
    LayerAt(c.services, HostParts(h, inp).services, AddHost(c, h, inp).services, k);
  }

  lemma LayerAt(prev: map<string, Service>, parts: map<string, Service>, out: map<string, Service>, k: string)
    requires out == prev + parts || out == prev[NOOP := NOOP_SERVICE] + parts
    requires k != NOOP
    ensures SameAt(out, if k in parts then parts else prev, k)
  {}

  lemma ServiceIsNotNoop(id: string)
    ensures ServiceName(id) != NOOP
  {
    assert ServiceName(id)[0] == 's' && NOOP[0] == 'n';
  }

  /** With prefix-free ids a host's main service in the output is the one the host wrote. */
  lemma ServiceOfHost(inp: Inputs, i: nat)
    requires i < |inp.hosts| && IdsPrefixFree(inp.hosts)
    requires ServiceName(inp.hosts[i].id) in HostParts(inp.hosts[i], inp).services
    ensures ServiceName(inp.hosts[i].id) in Rendered(inp).services
    ensures Rendered(inp).services[ServiceName(inp.hosts[i].id)]
         == HostParts(inp.hosts[i], inp).services[ServiceName(inp.hosts[i].id)]
  {
    HostOwnsService(BaseParts(inp), inp.hosts, inp, i);
    NoSharedServices(inp);
    hide AddHosts, HostParts, BaseParts, DefaultParts, BannedParts, ServiceName;
  }

  lemma NoSharedServices(inp: Inputs)
    ensures DefaultParts(inp).services == map[] && BannedParts(inp).services == map[]
  {
    hide QuotedIps;
  }

  // ---------------------------------------------------------------- what stands in front of a host, in the output

  /** Every router of the output under the host's names asks for the auth of the attached list. */
  ghost predicate AuthGated(c: Cfg, h: Host, acl: AccessList) {
    forall k :: k in c.routers && RouterName(h.id) <= k ==> AsksForAuth(h, acl, k, c.routers[k])
  }

  lemma AuthInWholeOutput(inp: Inputs, i: nat, id: string)
    requires i < |inp.hosts| && IdsPrefixFree(inp.hosts) && inp.hosts[i].enabled && inp.hosts[i].kind == Proxy
    requires id in inp.hosts[i].accessListIds && AccessListById(inp.accessLists, id).Some?
    requires AccessListById(inp.accessLists, id).value.users != []
    ensures AuthGated(Rendered(inp), inp.hosts[i], AccessListById(inp.accessLists, id).value)
  {
    var h := inp.hosts[i];
    EveryRouterAsksForAuth(h, inp, id);
    hide Rendered, RouterName, AsksForAuth, ProxyParts;
    forall k | k in Rendered(inp).routers && RouterName(h.id) <= k
      ensures AsksForAuth(h, AccessListById(inp.accessLists, id).value, k, Rendered(inp).routers[k])
    {
      RoutersOfHost(inp, i, k);
    }
  }

  /** Every router of the output that leads to the host's service sends the edge's token. */
  ghost predicate TokenGated(c: Cfg, h: Host) {
    forall k :: k in c.routers && c.routers[k].service == ServiceName(h.id) ==>
      TOKEN_MW in c.routers[k].middlewares || OnlyRedirects(h, c.routers[k])
  }

  // A router of another host, or a shared one, leads elsewhere.
  lemma LeadsToOwnService(h: Host, inp: Inputs, k: string)
    requires k in HostParts(h, inp).routers
    ensures OwnService(h.id, HostParts(h, inp).routers[k].service) || HostParts(h, inp).routers[k].service == NOOP
  {
    KnownChains(h, inp);
    if h.enabled && h.kind == Proxy {
      assert HasKnownChain(h, inp, k, ProxyParts(h, inp).routers[k]);
    }
    hide ProxyParts, ServiceName, RouterName, RuleOf, CollectedNames, TrimRightSlashes, CollectedMiddlewares, ToLower,
         SniParts, Chain, BaseChain, Kept, OnlyRedirects;
  }

  lemma SharedLeadElsewhere(inp: Inputs, id: string, k: string, r: Router)
    ensures IsShared(inp, k, r) ==> r.service != ServiceName(id)
  {
    hide QuotedIps, UserMiddlewares, AccessListMiddlewares;
    assert ServiceName(id)[0] == 's' && CHALLENGE[0] == 'a' && CONTENT[0] == 'x';
    hide ServiceName;
  }

  // A router that leads to the service of host `i` is one of host `i`.
  lemma OnlyOwnRouters(inp: Inputs, i: nat, k: string)
    requires i < |inp.hosts| && IdsPrefixFree(inp.hosts) && k in Rendered(inp).routers
    requires Rendered(inp).routers[k].service == ServiceName(inp.hosts[i].id)
    ensures k in HostParts(inp.hosts[i], inp).routers
        && Rendered(inp).routers[k] == HostParts(inp.hosts[i], inp).routers[k]
  {
    var j := HostOfService(inp, inp.hosts[i].id, k);
    OwnServiceOnly(inp.hosts[j], inp, k, inp.hosts[i].id);
    hide Rendered, HostParts;
    assert j == i;
  }

  lemma HostOfService(inp: Inputs, id: string, k: string) returns (j: nat)
    requires k in Rendered(inp).routers && Rendered(inp).routers[k].service == ServiceName(id)
    ensures j < |inp.hosts| && k in HostParts(inp.hosts[j], inp).routers
    ensures Rendered(inp).routers[k] == HostParts(inp.hosts[j], inp).routers[k]
  {
    RouterOrigin(inp, k);
    hide Rendered, HostParts, IsShared, ServiceName;
    SharedLeadElsewhere(inp, id, k, Rendered(inp).routers[k]);
    j :| IsHosts(inp.hosts, inp, j, k, Rendered(inp).routers[k]);
  }

  lemma OwnServiceOnly(h: Host, inp: Inputs, k: string, id: string)
    requires k in HostParts(h, inp).routers && HostParts(h, inp).routers[k].service == ServiceName(id)
    ensures h.id <= id || id <= h.id
  {
    LeadsToOwnService(h, inp, k);
    assert ServiceName(id)[0] == 's' && NOOP[0] == 'n';
    hide HostParts;
    PrefixOfServiceName(h.id, id, ServiceName(id));
  }

  lemma TokenInWholeOutput(inp: Inputs, i: nat)
    requires i < |inp.hosts| && IdsPrefixFree(inp.hosts) && inp.hosts[i].enabled && inp.hosts[i].kind == Proxy
    requires RoutesToEdge(inp.hosts[i], inp) && inp.cacheToken != ""
    ensures TokenGated(Rendered(inp), inp.hosts[i]) && ServiceName(inp.hosts[i].id) in Rendered(inp).services
    ensures Rendered(inp).services[ServiceName(inp.hosts[i].id)] == SingleUrl(inp.cacheBackend)
  {
    var h := inp.hosts[i];
    EveryEdgeRouterSendsToken(h, inp);
    ServiceOfHost(inp, i);
    hide Rendered, ProxyParts, ServiceName, OnlyRedirects, RoutesToEdge;
    forall k | k in Rendered(inp).routers && Rendered(inp).routers[k].service == ServiceName(h.id)
      ensures TOKEN_MW in Rendered(inp).routers[k].middlewares || OnlyRedirects(h, Rendered(inp).routers[k])
    {
      OnlyOwnRouters(inp, i, k);
    }
  }

  /** What the whole output promises of every enabled proxy host. */
  ghost predicate Gated(c: Cfg, inp: Inputs) {
    forall i :: 0 <= i < |inp.hosts| && inp.hosts[i].enabled && inp.hosts[i].kind == Proxy ==>
      HostGated(c, inp, inp.hosts[i])
  }

  ghost predicate HostGated(c: Cfg, inp: Inputs, h: Host) {
    && (forall id :: id in h.accessListIds && AccessListById(inp.accessLists, id).Some?
                     && AccessListById(inp.accessLists, id).value.users != [] ==>
          AuthGated(c, h, AccessListById(inp.accessLists, id).value))
    && (RoutesToEdge(h, inp) && inp.cacheToken != "" ==> TokenGated(c, h))
  }

  lemma RenderedIsGated(inp: Inputs)
    requires IdsPrefixFree(inp.hosts)
    ensures Gated(Rendered(inp), inp)
  {
    hide Rendered, AuthGated, TokenGated, RoutesToEdge;
    forall i | 0 <= i < |inp.hosts| && inp.hosts[i].enabled && inp.hosts[i].kind == Proxy
      ensures HostGated(Rendered(inp), inp, inp.hosts[i])
    {
      var h := inp.hosts[i];
      forall id | id in h.accessListIds && AccessListById(inp.accessLists, id).Some?
                  && AccessListById(inp.accessLists, id).value.users != []
        ensures AuthGated(Rendered(inp), h, AccessListById(inp.accessLists, id).value)
      {
        AuthInWholeOutput(inp, i, id);
      }
      if RoutesToEdge(h, inp) && inp.cacheToken != "" { TokenInWholeOutput(inp, i); }
    }
  }
}

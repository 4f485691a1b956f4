/** What stands in front of a proxy host. */
module RenderGating {
  import opened Options
  import opened Text
  import opened Hosts
  import opened HostRule
  import opened RenderSpec
  import opened RenderClosure
  import opened Subsequences

  // On every router that the renderer writes for the host, that is the auth of its access lists and,
  // when the host is served through the edge, the edge's token.

  // ---------------------------------------------------------------- the routers of one host

  /** The only router that may go without a host's middlewares: it redirects to HTTPS. */
  predicate OnlyRedirects(h: Host, r: Router) { r.middlewares == [RedirectName(h.id)] }

  function TrustedName(id: string): string { RouterName(id) + "-trusted" }

  /** The trusted router keeps this much of the chain. */
  function Kept(h: Host, inp: Inputs): seq<string> {
    Without(Chain(h, inp), Dropped(h.accessListIds, inp.accessLists))
  }

  /** A location router has the whole base chain and a service of its own. */
  predicate IsLocRouter(h: Host, inp: Inputs, r: Router) {
    BaseChain(h, inp) <= r.middlewares && ServiceName(h.id) < r.service
  }

  lemma OneLocRouter(h: Host, inp: Inputs, i: nat)
    requires i < |h.locations|
    ensures IsLocRouter(h, inp, LocRouter(h, inp, i))
  {
    assert ServiceName(h.id) < LocServiceName(h.id, i);
    hide BaseChain, LocServiceName, ServiceName, RuleOf, Entry, StripName;
  }

  lemma {:induction false} LocChains(h: Host, inp: Inputs, n: nat)
    requires n <= |h.locations|
    ensures forall k :: k in LocParts(h, inp, n).routers ==> IsLocRouter(h, inp, LocParts(h, inp, n).routers[k])
  {
    NoLocParts(h, inp);
    hide IsLocRouter, LocParts, LocRouter, LocRouterName, StripName, LocServiceName;
    if n > 0 {
      OneLocRouter(h, inp, n - 1);
      LocChains(h, inp, n - 1);
      LocPartsStep(h, inp, n - 1);
    }
  }

  /** Each router of a proxy host has one of four chains. */
  ghost predicate HasKnownChain(h: Host, inp: Inputs, k: string, r: Router) {
    || (k != TrustedName(h.id) && r.service == ServiceName(h.id) && Chain(h, inp) <= r.middlewares)
    || (k != TrustedName(h.id) && IsLocRouter(h, inp, r))
    || (k == TrustedName(h.id) && r.service == ServiceName(h.id) && r.middlewares == Kept(h, inp))
    || (k != TrustedName(h.id) && r.service == ServiceName(h.id) && OnlyRedirects(h, r))
  }

  lemma {:induction false} NoLocIsTrusted(h: Host, inp: Inputs, n: nat)
    requires n <= |h.locations|
    ensures TrustedName(h.id) !in LocParts(h, inp, n).routers
  {
    NoLocParts(h, inp);
    if n > 0 {
      assert LocRouterName(h.id, n - 1)[|RouterName(h.id)| + 1] == 'l'
          && TrustedName(h.id)[|RouterName(h.id)| + 1] == 't';
      hide LocParts, LocRouter, LocRouterName, LocServiceName, TrustedName, StripName;
      NoLocIsTrusted(h, inp, n - 1);
      LocPartsStep(h, inp, n - 1);
    }
  }

  lemma SideChains(h: Host, inp: Inputs)
    ensures forall k :: k in TrustedRouters(h, inp) ==> HasKnownChain(h, inp, k, TrustedRouters(h, inp)[k])
    ensures forall k :: k in StaticRouters(h, inp) ==> HasKnownChain(h, inp, k, StaticRouters(h, inp)[k])
    ensures forall k :: k in PlainHttpRouters(h, inp) ==> HasKnownChain(h, inp, k, PlainHttpRouters(h, inp)[k])
    ensures HasKnownChain(h, inp, RouterName(h.id), MainRouter(h, inp))
  {
    var n := |RouterName(h.id)|;
    assert (RouterName(h.id) + "-static")[n + 1] == 's' && (RouterName(h.id) + "-http")[n + 1] == 'h';
    assert TrustedName(h.id)[n + 1] == 't' && |TrustedName(h.id)| > n;
    assert Chain(h, inp) <= Chain(h, inp) + [CacheName(h.id)];
    hide Chain, BaseChain, RuleOf, Join, ClientIps, Dropped, BypassIps, Entry, RouterName, ServiceName, CacheName,
         RedirectName;
  }

  ghost predicate AllKnown(h: Host, inp: Inputs, m: map<string, Router>) {
    forall k :: k in m ==> HasKnownChain(h, inp, k, m[k])
  }

  lemma KnownOver(h: Host, inp: Inputs, a: map<string, Router>, b: map<string, Router>)
    requires AllKnown(h, inp, a) && AllKnown(h, inp, b)
    ensures AllKnown(h, inp, a + b)
  {
    hide HasKnownChain;
  }

  lemma LocsKnown(h: Host, inp: Inputs)
    ensures AllKnown(h, inp, LocParts(h, inp, |h.locations|).routers)
  {
    LocChains(h, inp, |h.locations|);
    NoLocIsTrusted(h, inp, |h.locations|);
    hide LocParts, IsLocRouter, TrustedName, Chain, Kept, OnlyRedirects;
  }

  lemma KnownChains(h: Host, inp: Inputs)
    ensures AllKnown(h, inp, ProxyParts(h, inp).routers)
  {
    SideChains(h, inp);
    LocsKnown(h, inp);
    hide HasKnownChain, LocParts, MainRouter, TrustedRouters, StaticRouters, PlainHttpRouters, MainServices,
         RawServices, RawMiddlewares, CollectedMiddlewares, ErrorMiddlewares, CacheMiddlewares, SchemeMiddlewares,
         Chain, BaseChain;
    var main, trusted := map[RouterName(h.id) := MainRouter(h, inp)], TrustedRouters(h, inp);
    var stat, locs, plain := StaticRouters(h, inp), LocParts(h, inp, |h.locations|).routers, PlainHttpRouters(h, inp);
    assert AllKnown(h, inp, main) && AllKnown(h, inp, trusted) && AllKnown(h, inp, stat) && AllKnown(h, inp, plain);
    hide AllKnown;
    KnownOver(h, inp, main, trusted);
    KnownOver(h, inp, main + trusted, stat);
    KnownOver(h, inp, main + trusted + stat, locs);
    KnownOver(h, inp, main + trusted + stat + locs, plain);
  }

  // ---------------------------------------------------------------- the satisfy-any bypass

  /** What the bypass drops: the two middlewares of every attached list that any condition satisfies. */
  lemma {:induction false} DroppedMeans(ids: seq<string>, acls: seq<AccessList>, m: string)
    ensures m in Dropped(ids, acls) <==>
              exists id :: id in ids && AccessListById(acls, id).Some? && SatisfiesAny(AccessListById(acls, id).value)
                           && m in {AuthName(id), IpName(id)}
  {
    if ids != [] {
      var before, last := ids[..|ids| - 1], ids[|ids| - 1];
      assert ids == before + [last];
      hide AuthName, IpName, SatisfiesAny;
      DroppedMeans(before, acls, m);
    }
  }

  /** A trusted address skips the auth of a list exactly when that list is satisfied by any condition. */
  lemma BypassSkipsExactly(h: Host, inp: Inputs, id: string)
    requires id in h.accessListIds && AccessListById(inp.accessLists, id).Some?
    requires AccessListById(inp.accessLists, id).value.users != []
    ensures AuthName(id) in Kept(h, inp) <==> !SatisfiesAny(AccessListById(inp.accessLists, id).value)
  {
    AuthIsNamed(h.accessListIds, inp.accessLists, id);
    DroppedMeans(h.accessListIds, inp.accessLists, AuthName(id));
    forall other | AuthName(id) in {AuthName(other), IpName(other)} ensures other == id {
      NameEnds(id);
      NameEnds(other);
      AuthNameInjective(id, other);
    }
    hide AuthName, IpName, SatisfiesAny, AccessListNames, CollectedNames, RawNames, Dropped;
    assert AuthName(id) in BaseChain(h, inp);
  }

  /** What is kept of a chain is the chain without the dropped names: the rest, as often and in order. */
  lemma {:induction false} WithoutKeepsOrder(mws: seq<string>, drop: set<string>, m: string)
    ensures IsSubsequence(Without(mws, drop), mws)
    ensures multiset(Without(mws, drop))[m] == if m in drop then 0 else multiset(mws)[m]
  {
    if mws == [] {
      assert Embeds<string>([], [], []);
    } else {
      var before, last := mws[..|mws| - 1], mws[|mws| - 1];
      assert mws == before + [last];
      WithoutKeepsOrder(before, drop, m);
      hide IsSubsequence;
      OneMore(Without(before, drop), before, last);
    }
  }

  // ---------------------------------------------------------------- what it guarantees

  lemma InPrefix(x: string, s: seq<string>, t: seq<string>)
    requires s <= t && x in s
    ensures x in t
  {
    assert t[..|s|] == s;
  }

  /** The router asks for the auth of the list, or is one of the two that need not. */
  predicate AsksForAuth(h: Host, acl: AccessList, k: string, r: Router) {
    AuthName(acl.id) in r.middlewares || OnlyRedirects(h, r) || (k == TrustedName(h.id) && SatisfiesAny(acl))
  }

  /**
   Every router of a proxy host asks for the auth of every attached list that has users, but for
   the redirect to HTTPS and, for lists that any condition satisfies, the trusted router.
   */
  lemma EveryRouterAsksForAuth(h: Host, inp: Inputs, id: string)
    requires id in h.accessListIds && AccessListById(inp.accessLists, id).Some?
    requires AccessListById(inp.accessLists, id).value.users != []
    ensures forall k :: k in ProxyParts(h, inp).routers ==>
              AsksForAuth(h, AccessListById(inp.accessLists, id).value, k, ProxyParts(h, inp).routers[k])
  {
    KnownChains(h, inp);
    BypassSkipsExactly(h, inp, id);
    AuthIsNamed(h.accessListIds, inp.accessLists, id);
    AuthInChains(h, inp, AuthName(id));
    hide ProxyParts, Chain, BaseChain, AuthName, SatisfiesAny, Kept, AccessListNames, TrustedName, ServiceName;
    forall k | k in ProxyParts(h, inp).routers
      ensures AsksForAuth(h, AccessListById(inp.accessLists, id).value, k, ProxyParts(h, inp).routers[k])
    {
      var r := ProxyParts(h, inp).routers[k];
      assert HasKnownChain(h, inp, k, r);
      if Chain(h, inp) <= r.middlewares { InPrefix(AuthName(id), Chain(h, inp), r.middlewares); }
      if BaseChain(h, inp) <= r.middlewares { InPrefix(AuthName(id), BaseChain(h, inp), r.middlewares); }
    }
  }

  lemma AuthInChains(h: Host, inp: Inputs, n: string)
    requires n in AccessListNames(h.accessListIds, inp.accessLists)
    ensures n in BaseChain(h, inp) && n in Chain(h, inp)
  {}

  /**
   When a host is served through the edge and the edge has a token, every router that leads to
   the edge sends the token, but for the redirect to HTTPS, which leads nowhere.
   */
  lemma EveryEdgeRouterSendsToken(h: Host, inp: Inputs)
    requires RoutesToEdge(h, inp) && inp.cacheToken != ""
    ensures forall k ::
              k in ProxyParts(h, inp).routers && ProxyParts(h, inp).routers[k].service == ServiceName(h.id) ==>
              TOKEN_MW in ProxyParts(h, inp).routers[k].middlewares || OnlyRedirects(h, ProxyParts(h, inp).routers[k])
    ensures ServiceName(h.id) in ProxyParts(h, inp).services
    ensures ProxyParts(h, inp).services[ServiceName(h.id)] == SingleUrl(inp.cacheBackend)
  {
    KnownChains(h, inp);
    TokenIsKept(h, inp);
    MainServiceStays(h, inp);
    hide ProxyParts, BaseChain, Kept, TrustedName, ServiceName, Chain, RoutesToEdge;
    forall k | k in ProxyParts(h, inp).routers && ProxyParts(h, inp).routers[k].service == ServiceName(h.id)
      ensures TOKEN_MW in ProxyParts(h, inp).routers[k].middlewares || OnlyRedirects(h, ProxyParts(h, inp).routers[k])
    {
      var r := ProxyParts(h, inp).routers[k];
      assert HasKnownChain(h, inp, k, r);
      if Chain(h, inp) <= r.middlewares { InPrefix(TOKEN_MW, Chain(h, inp), r.middlewares); }
    }
  }

  lemma TokenIsKept(h: Host, inp: Inputs)
    requires RoutesToEdge(h, inp) && inp.cacheToken != ""
    ensures TOKEN_MW in Chain(h, inp) && TOKEN_MW in Kept(h, inp)
  {
    DroppedMeans(h.accessListIds, inp.accessLists, TOKEN_MW);
    forall id ensures TOKEN_MW !in {AuthName(id), IpName(id)} {
      assert AuthName(id)[0] == 'a' && IpName(id)[0] == 'a' && TOKEN_MW[0] == 'x';
    }
    hide AuthName, IpName, BaseChain, Dropped, RoutesToEdge;
    assert Chain(h, inp)[|BaseChain(h, inp)|] == TOKEN_MW;
  }

  lemma {:induction false} LocServicesElsewhere(h: Host, inp: Inputs, n: nat)
    requires n <= |h.locations|
    ensures ServiceName(h.id) !in LocParts(h, inp, n).services
  {
    NoLocParts(h, inp);
    if n > 0 {
      assert |LocServiceName(h.id, n - 1)| > |ServiceName(h.id)|;
      hide LocParts, LocRouter, LocRouterName, LocServiceName, ServiceName, StripName;
      LocServicesElsewhere(h, inp, n - 1);
      LocPartsStep(h, inp, n - 1);
    }
  }

  lemma {:induction false} RawServicesElsewhere(id: string, names: seq<string>)
    ensures ServiceName(id) !in RawServices(id, names)
  {
    if names != [] {
      RawServicesElsewhere(id, names[..|names| - 1]);
      assert RawName(id, names[|names| - 1])[0] == 'h' && ServiceName(id)[0] == 's';
    }
  }

  /** Nothing else that is written for a host replaces its main service. */
  lemma MainServiceStays(h: Host, inp: Inputs)
    ensures ServiceName(h.id) in ProxyParts(h, inp).services
    ensures ProxyParts(h, inp).services[ServiceName(h.id)] == MainServices(h, inp)[ServiceName(h.id)]
  {
    LocServicesElsewhere(h, inp, |h.locations|);
    RawServicesElsewhere(h.id, FragmentOf(h).services);
    MainServicesOk(h, inp);
    hide LocParts, RawServices, MainServices, ServiceName, RawMiddlewares, CollectedMiddlewares, ErrorMiddlewares,
         CacheMiddlewares, SchemeMiddlewares, MainRouter, TrustedRouters, StaticRouters, PlainHttpRouters;
  }
}

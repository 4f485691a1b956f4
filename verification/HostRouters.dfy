/**
 The routers of a proxy host: which there are, and how they rank.

 A router is the main one, the one for plain HTTP, the one for static assets, the one for trusted
 addresses, or that of a location. Each kind has its name and its own rule and priority; a router
 without a priority ranks by the length of its rule, as Traefik ranks it.
 */
module HostRouters {
  import opened Text
  import opened Hosts
  import opened HostRule
  import opened RenderSpec
  import opened RenderClosure
  import opened RenderGating
  import LocationRouters
  import Ordering

  /** Traefik ranks routers by their priority; a router without one gets the length of its rule. */
  function Rank(r: Router): int { if r.priority != 0 then r.priority else |r.rule| }

  function StaticName(id: string): string { RouterName(id) + "-static" }
  function PlainName(id: string): string { RouterName(id) + "-http" }

  function TrustedRouter(h: Host, inp: Inputs): Router {
    Router("(" + RuleOf(h.domains) + ") && (" + Join(ClientIps(BypassIps(h.accessListIds, inp.accessLists)), OR) + ")",
           ServiceName(h.id), [Entry(h, inp)], Kept(h, inp), 2000, TlsOn(h))
  }

  function StaticRouter(h: Host, inp: Inputs): Router {
    Router("(" + RuleOf(h.domains) + ") && PathRegexp(`" + STATIC_ASSETS + "`)", ServiceName(h.id), [Entry(h, inp)],
           Chain(h, inp) + [CacheName(h.id)], 900, TlsOn(h))
  }

  function PlainRouter(h: Host, inp: Inputs): Router {
    Router(RuleOf(h.domains), ServiceName(h.id), [inp.httpEntry], [RedirectName(h.id)], 0, false)
  }

  predicate HasBypass(h: Host, inp: Inputs) { BypassIps(h.accessListIds, inp.accessLists) != [] }

  /** The router `r` of a proxy host under the name `k` is one of five kinds. */
  datatype RouterKind = IsMain | IsTrusted | IsStatic | IsPlain | IsLocation(i: nat)

  predicate IsKind(h: Host, inp: Inputs, k: string, r: Router, kind: RouterKind) {
    match kind
    case IsMain => k == RouterName(h.id) && r == MainRouter(h, inp)
    case IsTrusted => HasBypass(h, inp) && k == TrustedName(h.id) && r == TrustedRouter(h, inp)
    case IsStatic => h.cacheAssets && k == StaticName(h.id) && r == StaticRouter(h, inp)
    case IsPlain => TlsOn(h) && h.forceTls && k == PlainName(h.id) && r == PlainRouter(h, inp)
    case IsLocation(i) =>
      && i < |h.locations| && RendersLocation(h, inp, h.locations[i])
      && k == LocRouterName(h.id, i) && r == LocRouter(h, inp, i)
  }

  lemma {:induction false} LocationKinds(h: Host, inp: Inputs, n: nat, k: string)
    requires n <= |h.locations| && k in LocParts(h, inp, n).routers
    ensures exists i: nat :: i < n && IsKind(h, inp, k, LocParts(h, inp, n).routers[k], IsLocation(i))
  {
    NoLocParts(h, inp);
    hide LocParts, LocRouter, LocRouterName, LocServiceName, StripName;
    if n > 0 {
      LocPartsStep(h, inp, n - 1);
      if k in LocParts(h, inp, n - 1).routers && LocParts(h, inp, n).routers[k] == LocParts(h, inp, n - 1).routers[k] {
        LocationKinds(h, inp, n - 1, k);
        var i: nat :| i < n - 1 && IsKind(h, inp, k, LocParts(h, inp, n - 1).routers[k], IsLocation(i));
      } else {
        assert IsKind(h, inp, k, LocParts(h, inp, n).routers[k], IsLocation(n - 1));
      }
    }
  }

  ghost predicate HasKind(h: Host, inp: Inputs, k: string, r: Router) {
    exists kind :: IsKind(h, inp, k, r, kind)
  }

  ghost predicate AllHaveKind(h: Host, inp: Inputs, m: map<string, Router>) {
    forall k :: k in m ==> HasKind(h, inp, k, m[k])
  }

  lemma KindsOver(h: Host, inp: Inputs, a: map<string, Router>, b: map<string, Router>)
    requires AllHaveKind(h, inp, a) && AllHaveKind(h, inp, b)
    ensures AllHaveKind(h, inp, a + b)
  {
    hide HasKind;
  }

  lemma SideKinds(h: Host, inp: Inputs)
    ensures AllHaveKind(h, inp, map[RouterName(h.id) := MainRouter(h, inp)])
    ensures AllHaveKind(h, inp, TrustedRouters(h, inp)) && AllHaveKind(h, inp, StaticRouters(h, inp))
    ensures AllHaveKind(h, inp, PlainHttpRouters(h, inp))
  {
    hide Chain, RuleOf, Entry, ClientIps, Join, BypassIps, Dropped, RouterName, MainRouter;
    assert IsKind(h, inp, RouterName(h.id), MainRouter(h, inp), IsMain);
    forall k | k in TrustedRouters(h, inp) ensures HasKind(h, inp, k, TrustedRouters(h, inp)[k]) {
      assert IsKind(h, inp, k, TrustedRouters(h, inp)[k], IsTrusted);
    }
    forall k | k in StaticRouters(h, inp) ensures HasKind(h, inp, k, StaticRouters(h, inp)[k]) {
      assert IsKind(h, inp, k, StaticRouters(h, inp)[k], IsStatic);
    }
    forall k | k in PlainHttpRouters(h, inp) ensures HasKind(h, inp, k, PlainHttpRouters(h, inp)[k]) {
      assert IsKind(h, inp, k, PlainHttpRouters(h, inp)[k], IsPlain);
    }
  }

  lemma LocKinds(h: Host, inp: Inputs)
    ensures AllHaveKind(h, inp, LocParts(h, inp, |h.locations|).routers)
  {
    var m := LocParts(h, inp, |h.locations|).routers;
    forall k | k in m ensures HasKind(h, inp, k, m[k]) {
      LocationKinds(h, inp, |h.locations|, k);
      hide IsKind, LocParts;
      var i: nat :| i < |h.locations| && IsKind(h, inp, k, m[k], IsLocation(i));
    }
  }

  /** Every router of a proxy host is of one of the five kinds. */
  lemma EveryRouterHasKind(h: Host, inp: Inputs)
    ensures AllHaveKind(h, inp, ProxyParts(h, inp).routers)
  {
    SideKinds(h, inp);
    LocKinds(h, inp);
    hide AllHaveKind, LocParts, MainRouter, TrustedRouters, StaticRouters, PlainHttpRouters, MainServices,
         RawServices, RawMiddlewares, CollectedMiddlewares, ErrorMiddlewares, CacheMiddlewares, SchemeMiddlewares,
         RouterName;
    var main, trusted := map[RouterName(h.id) := MainRouter(h, inp)], TrustedRouters(h, inp);
    var stat, locs, plain := StaticRouters(h, inp), LocParts(h, inp, |h.locations|).routers, PlainHttpRouters(h, inp);
    KindsOver(h, inp, main, trusted);
    KindsOver(h, inp, main + trusted, stat);
    KindsOver(h, inp, main + trusted + stat, locs);
    KindsOver(h, inp, main + trusted + stat + locs, plain);
  }

  lemma NamesDiffer(id: string, i: nat)
    ensures RouterName(id) != TrustedName(id) && RouterName(id) != StaticName(id) && RouterName(id) != PlainName(id)
    ensures RouterName(id) != LocRouterName(id, i)
    ensures TrustedName(id) != StaticName(id) && TrustedName(id) != PlainName(id)
        && TrustedName(id) != LocRouterName(id, i)
    ensures StaticName(id) != PlainName(id) && StaticName(id) != LocRouterName(id, i)
        && PlainName(id) != LocRouterName(id, i)
  {
    var n := |RouterName(id)| + 1;
    assert |TrustedName(id)| > n && |StaticName(id)| > n && |PlainName(id)| > n && |LocRouterName(id, i)| > n;
    assert TrustedName(id)[n] == 't' && StaticName(id)[n] == 's' && PlainName(id)[n] == 'h'
        && LocRouterName(id, i)[n] == 'l';
  }

  /** And each kind that the host asks for is there. */
  lemma EveryKindIsThere(h: Host, inp: Inputs)
    ensures var rs := ProxyParts(h, inp).routers;
            && RouterName(h.id) in rs && rs[RouterName(h.id)] == MainRouter(h, inp)
            && (HasBypass(h, inp) ==> TrustedName(h.id) in rs && rs[TrustedName(h.id)] == TrustedRouter(h, inp))
            && (h.cacheAssets ==> StaticName(h.id) in rs && rs[StaticName(h.id)] == StaticRouter(h, inp))
            && (TlsOn(h) && h.forceTls ==> PlainName(h.id) in rs && rs[PlainName(h.id)] == PlainRouter(h, inp))
  {
    ProxyRouterKeys(h, inp);
    NoSideLocs(h, inp, |h.locations|);
    NamesDiffer(h.id, 0);
    SideRouters(h, inp);
    RoutersSum(h, inp);
    hide ProxyParts, LocParts, MainRouter, TrustedRouters, StaticRouters, PlainHttpRouters, RouterName, TrustedName,
         StaticName, PlainName, TrustedRouter, StaticRouter, PlainRouter, HasBypass, TlsOn, Under;
    var main, locs := map[RouterName(h.id) := MainRouter(h, inp)], LocParts(h, inp, |h.locations|).routers;
    Layers(main + TrustedRouters(h, inp), StaticRouters(h, inp), locs, PlainHttpRouters(h, inp),
           TrustedName(h.id), StaticName(h.id), PlainName(h.id));
  }

  lemma RoutersSum(h: Host, inp: Inputs)
    ensures ProxyParts(h, inp).routers
         == map[RouterName(h.id) := MainRouter(h, inp)] + TrustedRouters(h, inp) + StaticRouters(h, inp)
            + LocParts(h, inp, |h.locations|).routers + PlainHttpRouters(h, inp)
  {
    hide LocParts, MainRouter, TrustedRouters, StaticRouters, PlainHttpRouters, MainServices, RawServices,
         RawMiddlewares, CollectedMiddlewares, ErrorMiddlewares, CacheMiddlewares, SchemeMiddlewares, RouterName;
  }

  // Later maps do not overwrite names that they do not hold.
  lemma Layers<V>(first: map<string, V>, stat: map<string, V>, locs: map<string, V>, plain: map<string, V>,
                  t: string, s: string, p: string)
    requires t !in stat && t !in locs && t !in plain && s !in locs && s !in plain
    ensures var sum := first + stat + locs + plain;
            && (t in first ==> t in sum && sum[t] == first[t])
            && (s in stat ==> s in sum && sum[s] == stat[s])
            && (p in plain ==> p in sum && sum[p] == plain[p])
  {}

  lemma SideRouters(h: Host, inp: Inputs)
    ensures TrustedRouters(h, inp)
         == if HasBypass(h, inp) then map[TrustedName(h.id) := TrustedRouter(h, inp)] else map[]
    ensures StaticRouters(h, inp) == if h.cacheAssets then map[StaticName(h.id) := StaticRouter(h, inp)] else map[]
    ensures PlainHttpRouters(h, inp)
         == if TlsOn(h) && h.forceTls then map[PlainName(h.id) := PlainRouter(h, inp)] else map[]
  {
    hide Chain, RuleOf, Entry, ClientIps, Join, BypassIps, Dropped, RouterName;
  }

  lemma {:induction false} NoSideLocs(h: Host, inp: Inputs, n: nat)
    requires n <= |h.locations|
    ensures TrustedName(h.id) !in LocParts(h, inp, n).routers && StaticName(h.id) !in LocParts(h, inp, n).routers
    ensures PlainName(h.id) !in LocParts(h, inp, n).routers
  {
    NoLocParts(h, inp);
    if n > 0 {
      NamesDiffer(h.id, n - 1);
      hide LocParts, LocRouter, LocRouterName, LocServiceName, StripName, TrustedName, StaticName, PlainName,
           RouterName;
      NoSideLocs(h, inp, n - 1);
      LocPartsStep(h, inp, n - 1);
    }
  }

  lemma KindOf(h: Host, inp: Inputs, k: string) returns (kind: RouterKind)
    requires k in ProxyParts(h, inp).routers
    ensures IsKind(h, inp, k, ProxyParts(h, inp).routers[k], kind)
  {
    EveryRouterHasKind(h, inp);
    hide IsKind, ProxyParts;
    assert HasKind(h, inp, k, ProxyParts(h, inp).routers[k]);
    kind :| IsKind(h, inp, k, ProxyParts(h, inp).routers[k], kind);
  }

  lemma LocationIsThere(h: Host, inp: Inputs, i: nat)
    requires i < |h.locations| && RendersLocation(h, inp, h.locations[i])
    ensures LocRouterName(h.id, i) in ProxyParts(h, inp).routers
    ensures ProxyParts(h, inp).routers[LocRouterName(h.id, i)] == LocRouter(h, inp, i)
  {
    LocationRouters.LocRouterIsHosts(h, inp, i);
    hide ProxyParts, LocRouter;
  }

  // ---------------------------------------------------------------- ranks

  lemma RuleIsLong(domains: seq<string>)
    ensures |RuleOf(domains)| > 1
  {
    if domains != [] {
      var parts := Ordering.Sort(Parts(QuoteAll(domains)));
      PartsAreLong(Parts(QuoteAll(domains)));
      assert |multiset(parts)| == |multiset(Parts(QuoteAll(domains)))| == |domains|;
      assert parts[0] in multiset(parts) && parts[0] in multiset(Parts(QuoteAll(domains)));
      hide HostPart;
      assert Join(parts, OR)[..|parts[0]|] == parts[0];
    }
  }

  lemma PartsAreLong(parts: seq<string>)
    ensures forall d: string :: |HostPart(d)| > 1
  {}

  /** What each kind of router ranks. */
  function RankOfKind(h: Host, kind: RouterKind): int {
    match kind
    case IsMain => |RuleOf(h.domains)|
    case IsTrusted => 2000
    case IsStatic => 900
    case IsPlain => |RuleOf(h.domains)|
    case IsLocation(i) => if i < |h.locations| then 1000 + |h.locations[i].pathPrefix| else 0
  }

  lemma KindRanks(h: Host, inp: Inputs, k: string, r: Router, kind: RouterKind)
    requires IsKind(h, inp, k, r, kind)
    ensures Rank(r) == RankOfKind(h, kind)
  {
    hide RuleOf, Chain, BaseChain, Entry, ClientIps, Join;
  }
}

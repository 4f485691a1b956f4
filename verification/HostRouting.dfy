/** Who serves a visitor of a proxy host. */
module HostRouting {
  import opened Hosts
  import opened HostRule
  import opened RenderSpec
  import opened RenderGating
  import opened RenderClosure
  import opened RouterRules
  import opened HostRouters
  import opened Locations
  import LocationRouters
  import EdgeServer

  // Of all the routers that the renderer writes for the host, those whose rule the visitor satisfies
  // compete by rank. The edge, when it serves the host itself, goes by the longest matching location
  // instead.

  function Routers(h: Host, inp: Inputs): map<string, Router> { ProxyParts(h, inp).routers }

  ghost predicate Takes(h: Host, r: Router, v: Visit) {
    v.entry in r.entryPoints && Satisfies(h.domains, r.rule, v)
  }

  /** Traefik may serve the visitor by router `k`: none of the host's that takes the visitor ranks higher. */
  ghost predicate Top(h: Host, inp: Inputs, v: Visit, k: string) {
    && k in Routers(h, inp) && Takes(h, Routers(h, inp)[k], v)
    && forall j :: j in Routers(h, inp) && Takes(h, Routers(h, inp)[j], v) ==>
         Rank(Routers(h, inp)[j]) <= Rank(Routers(h, inp)[k])
  }

  /** Traefik can only serve the visitor by router `k`. */
  ghost predicate TopAlone(h: Host, inp: Inputs, v: Visit, k: string) {
    Top(h, inp, v, k) && forall j :: Top(h, inp, v, j) ==> j == k
  }

  /** The visitor comes from an address that some attached satisfy-any list trusts. */
  predicate Bypasses(h: Host, inp: Inputs, v: Visit) { InAnyRange(BypassIps(h.accessListIds, inp.accessLists), v) }

  /** The router for location `i` takes the path. */
  predicate LocationTakes(h: Host, inp: Inputs, path: string, i: nat) {
    i < |h.locations| && RendersLocation(h, inp, h.locations[i]) && RouterMatches(h.locations[i], path)
  }

  // ---------------------------------------------------------------- which router takes whom

  /** A visitor at the host's own entry point satisfies each kind of router by its own condition. */
  predicate KindTakes(h: Host, inp: Inputs, v: Visit, kind: RouterKind) {
    match kind
    case IsMain => true
    case IsTrusted => Bypasses(h, inp, v)
    case IsStatic => v.isAsset
    case IsPlain => v.entry == inp.httpEntry
    case IsLocation(i) => LocationTakes(h, inp, v.path, i)
  }

  lemma KindTakesWhom(h: Host, inp: Inputs, v: Visit, k: string, r: Router, kind: RouterKind)
    requires IsKind(h, inp, k, r, kind) && v.entry == Entry(h, inp)
    ensures Takes(h, r, v) <==> KindTakes(h, inp, v, kind)
  {
    hide Chain, BaseChain, RuleOf, BypassIps, InAnyRange, Satisfies, Kept, Entry, RouterName, TrustedName, StaticName,
         PlainName, LocRouterName, RuleQuote;
    match kind
    case IsMain => MainMeans(h.domains, v);
    case IsTrusted =>
      ClientMeans(h.domains, BypassIps(h.accessListIds, inp.accessLists), v);
      assert r.rule == AndClient(h.domains, BypassIps(h.accessListIds, inp.accessLists));
    case IsStatic =>
      AssetMeans(h.domains, v);
      assert r.rule == AndAsset(h.domains);
    case IsPlain => MainMeans(h.domains, v);
    case IsLocation(i) =>
      var p := RuleQuote(h.locations[i].pathPrefix);
      PathMeans(h.domains, p, v);
      assert r.rule == AndPath(h.domains, p);
  }

  lemma MainMeans(domains: seq<string>, v: Visit)
    ensures Satisfies(domains, RuleOf(domains), v)
  {}

  /** A taker of the visitor: its kind, its rank, and the service it leads to. */
  lemma TakerOf(h: Host, inp: Inputs, v: Visit, k: string) returns (kind: RouterKind)
    requires v.entry == Entry(h, inp) && k in Routers(h, inp)
    ensures IsKind(h, inp, k, Routers(h, inp)[k], kind) && (kind.IsLocation? ==> kind.i < |h.locations|)
    ensures Takes(h, Routers(h, inp)[k], v) <==> KindTakes(h, inp, v, kind)
    ensures Rank(Routers(h, inp)[k]) == RankOfKind(h, kind)
    ensures Routers(h, inp)[k].service == if kind.IsLocation? then LocServiceName(h.id, kind.i) else ServiceName(h.id)
  {
    kind := KindOf(h, inp, k);
    KindTakesWhom(h, inp, v, k, Routers(h, inp)[k], kind);
    KindRanks(h, inp, k, Routers(h, inp)[k], kind);
    hide Chain, BaseChain, RuleOf, Kept, Entry, ServiceName, LocServiceName, RouterName, TrustedName, StaticName,
         PlainName, LocRouterName, KindTakes, Takes, ProxyParts, Rank, RankOfKind, HasBypass;
  }

  /** A kind that takes the visitor has its router, unless the host does not ask for it. */
  predicate Asked(h: Host, inp: Inputs, kind: RouterKind) {
    match kind
    case IsMain => true
    case IsTrusted => HasBypass(h, inp)
    case IsStatic => h.cacheAssets
    case IsPlain => TlsOn(h) && h.forceTls
    case IsLocation(i) => i < |h.locations| && RendersLocation(h, inp, h.locations[i])
  }

  function NameOf(h: Host, kind: RouterKind): string {
    match kind
    case IsMain => RouterName(h.id)
    case IsTrusted => TrustedName(h.id)
    case IsStatic => StaticName(h.id)
    case IsPlain => PlainName(h.id)
    case IsLocation(i) => LocRouterName(h.id, i)
  }

  lemma RouterOfKind(h: Host, inp: Inputs, v: Visit, kind: RouterKind)
    requires v.entry == Entry(h, inp) && Asked(h, inp, kind)
    ensures NameOf(h, kind) in Routers(h, inp)
    ensures Takes(h, Routers(h, inp)[NameOf(h, kind)], v) <==> KindTakes(h, inp, v, kind)
    ensures Rank(Routers(h, inp)[NameOf(h, kind)]) == RankOfKind(h, kind)
    ensures Routers(h, inp)[NameOf(h, kind)].service
         == if kind.IsLocation? then LocServiceName(h.id, kind.i) else ServiceName(h.id)
  {
    EveryKindIsThere(h, inp);
    if kind.IsLocation? { LocationIsThere(h, inp, kind.i); }
    var k := NameOf(h, kind);
    hide ProxyParts, Chain, BaseChain, RuleOf, Kept, Entry, ServiceName, LocServiceName, RouterName, TrustedName,
         StaticName, PlainName, LocRouterName, KindTakes, Takes, Rank, RankOfKind, HasBypass;
    assert IsKind(h, inp, k, Routers(h, inp)[k], kind);
    KindTakesWhom(h, inp, v, k, Routers(h, inp)[k], kind);
    KindRanks(h, inp, k, Routers(h, inp)[k], kind);
  }

  /** The kind of router `kind` takes the visitor, and every other kind that does ranks at most as high. */
  ghost predicate KindTop(h: Host, inp: Inputs, v: Visit, kind: RouterKind) {
    && Asked(h, inp, kind) && KindTakes(h, inp, v, kind)
    && forall other :: Asked(h, inp, other) && KindTakes(h, inp, v, other) ==>
      RankOfKind(h, other) <= RankOfKind(h, kind)
  }

  lemma KindIsAsked(h: Host, inp: Inputs, k: string, r: Router, kind: RouterKind)
    requires IsKind(h, inp, k, r, kind)
    ensures Asked(h, inp, kind) && k == NameOf(h, kind)
  {
    hide Chain, BaseChain, RuleOf, Kept, Entry, ServiceName, LocServiceName, RouterName, TrustedName, StaticName,
         PlainName, LocRouterName, HasBypass, MainRouter, TrustedRouter, StaticRouter, PlainRouter, LocRouter,
         RendersLocation;
  }

  lemma TopOfKind(h: Host, inp: Inputs, v: Visit, kind: RouterKind)
    requires v.entry == Entry(h, inp) && Asked(h, inp, kind)
    ensures Top(h, inp, v, NameOf(h, kind)) <==> KindTop(h, inp, v, kind)
  {
    RouterOfKind(h, inp, v, kind);
    hide Routers, Takes, Rank, RankOfKind, KindTakes, NameOf, Asked, IsKind;
    var k := NameOf(h, kind);
    if KindTop(h, inp, v, kind) {
      forall j | j in Routers(h, inp) && Takes(h, Routers(h, inp)[j], v)
        ensures Rank(Routers(h, inp)[j]) <= Rank(Routers(h, inp)[k])
      {
        var other := TakerOf(h, inp, v, j);
        KindIsAsked(h, inp, j, Routers(h, inp)[j], other);
      }
    }
    if Top(h, inp, v, k) {
      forall other | Asked(h, inp, other) && KindTakes(h, inp, v, other)
        ensures RankOfKind(h, other) <= RankOfKind(h, kind)
      {
        RouterOfKind(h, inp, v, other);
      }
    }
  }

  /** Every router that may serve the visitor is of a kind that may, and leads to its service. */
  lemma TopHasKind(h: Host, inp: Inputs, v: Visit, k: string) returns (kind: RouterKind)
    requires v.entry == Entry(h, inp) && Top(h, inp, v, k)
    ensures KindTop(h, inp, v, kind) && k == NameOf(h, kind)
    ensures Routers(h, inp)[k].service == if kind.IsLocation? then LocServiceName(h.id, kind.i) else ServiceName(h.id)
  {
    kind := TakerOf(h, inp, v, k);
    KindIsAsked(h, inp, k, Routers(h, inp)[k], kind);
    TopOfKind(h, inp, v, kind);
  }

  lemma NamesAreKinds(h: Host, inp: Inputs, a: RouterKind, b: RouterKind)
    ensures NameOf(h, a) == NameOf(h, b) ==> a == b
  {
    var i, j := if a.IsLocation? then a.i else 0, if b.IsLocation? then b.i else 0;
    NamesDiffer(h.id, i);
    NamesDiffer(h.id, j);
    LocationRouters.LocNamesInjective(h.id, i, j);
    hide RouterName, TrustedName, StaticName, PlainName, LocRouterName;
  }

  lemma AloneOfKind(h: Host, inp: Inputs, v: Visit, kind: RouterKind)
    requires v.entry == Entry(h, inp) && Asked(h, inp, kind)
    ensures TopAlone(h, inp, v, NameOf(h, kind))
       <==> KindTop(h, inp, v, kind) && forall other :: KindTop(h, inp, v, other) ==> other == kind
  {
    TopOfKind(h, inp, v, kind);
    hide Top, KindTop, NameOf, Asked;
    if TopAlone(h, inp, v, NameOf(h, kind)) {
      forall other | KindTop(h, inp, v, other) ensures other == kind {
        TopIsAsked(h, inp, v, other);
        TopOfKind(h, inp, v, other);
        NamesAreKinds(h, inp, other, kind);
      }
    }
    if KindTop(h, inp, v, kind) && forall other :: KindTop(h, inp, v, other) ==> other == kind {
      forall j | Top(h, inp, v, j) ensures j == NameOf(h, kind) {
        var other := TopHasKind(h, inp, v, j);
      }
    }
  }

  lemma TopIsAsked(h: Host, inp: Inputs, v: Visit, kind: RouterKind)
    requires KindTop(h, inp, v, kind)
    ensures Asked(h, inp, kind)
  {}

  // ---------------------------------------------------------------- who wins

  lemma InRangeHasBypass(h: Host, inp: Inputs, v: Visit)
    ensures Bypasses(h, inp, v) ==> HasBypass(h, inp)
  {}

  /** If this kind of router is there and takes the visitor, it ranks below `n`. */
  predicate Below(h: Host, inp: Inputs, v: Visit, kind: RouterKind, n: int) {
    Asked(h, inp, kind) && KindTakes(h, inp, v, kind) ==> RankOfKind(h, kind) < n
  }

  ghost predicate OthersBelow(h: Host, inp: Inputs, v: Visit, kind: RouterKind, n: int) {
    forall other :: other != kind ==> Below(h, inp, v, other, n)
  }

  lemma AloneMeans(h: Host, inp: Inputs, v: Visit, kind: RouterKind)
    requires v.entry == Entry(h, inp) && Asked(h, inp, kind) && KindTakes(h, inp, v, kind)
    ensures TopAlone(h, inp, v, NameOf(h, kind)) <==> OthersBelow(h, inp, v, kind, RankOfKind(h, kind))
  {
    AloneOfKind(h, inp, v, kind);
    hide TopAlone, NameOf, Asked, KindTakes, RankOfKind, KindTop, Below;
    forall other
      ensures KindTop(h, inp, v, kind) && !Below(h, inp, v, other, RankOfKind(h, kind)) ==> KindTop(h, inp, v, other)
    {
      TieIsTop(h, inp, v, kind, other);
    }
    if OthersBelow(h, inp, v, kind, RankOfKind(h, kind)) {
      TopIfOthersBelow(h, inp, v, kind);
      forall other | other != kind ensures !KindTop(h, inp, v, other) {
        assert Below(h, inp, v, other, RankOfKind(h, kind));
        NotTopIfBelow(h, inp, v, kind, other);
      }
    }
  }

  lemma TieIsTop(h: Host, inp: Inputs, v: Visit, kind: RouterKind, other: RouterKind)
    ensures KindTop(h, inp, v, kind) && !Below(h, inp, v, other, RankOfKind(h, kind)) ==> KindTop(h, inp, v, other)
  {
    hide Asked, KindTakes, RankOfKind;
  }

  lemma TopIfOthersBelow(h: Host, inp: Inputs, v: Visit, kind: RouterKind)
    requires Asked(h, inp, kind) && KindTakes(h, inp, v, kind) && OthersBelow(h, inp, v, kind, RankOfKind(h, kind))
    ensures KindTop(h, inp, v, kind)
  {
    hide Asked, KindTakes, RankOfKind;
    forall other | Asked(h, inp, other) && KindTakes(h, inp, v, other)
      ensures RankOfKind(h, other) <= RankOfKind(h, kind)
    {
      assert other != kind ==> Below(h, inp, v, other, RankOfKind(h, kind));
    }
  }

  lemma NotTopIfBelow(h: Host, inp: Inputs, v: Visit, kind: RouterKind, other: RouterKind)
    requires Asked(h, inp, kind) && KindTakes(h, inp, v, kind) && Below(h, inp, v, other, RankOfKind(h, kind))
    ensures !KindTop(h, inp, v, other)
  {
    hide Asked, KindTakes, RankOfKind;
  }

  // The other kinds, one by one.
  lemma OthersOneByOne(h: Host, inp: Inputs, v: Visit, kind: RouterKind, n: int)
    ensures OthersBelow(h, inp, v, kind, n) <==>
              && (kind != IsMain ==> Below(h, inp, v, IsMain, n))
              && (kind != IsTrusted ==> Below(h, inp, v, IsTrusted, n))
              && (kind != IsStatic ==> Below(h, inp, v, IsStatic, n))
              && (kind != IsPlain ==> Below(h, inp, v, IsPlain, n))
              && forall i: nat :: kind != IsLocation(i) ==> Below(h, inp, v, IsLocation(i), n)
  {
    hide Below;
  }

  lemma SidesBelow(h: Host, inp: Inputs, v: Visit, n: int)
    ensures Below(h, inp, v, IsMain, n) <==> |RuleOf(h.domains)| < n
    ensures Below(h, inp, v, IsMain, n) ==> Below(h, inp, v, IsPlain, n)
    ensures Below(h, inp, v, IsTrusted, n) <==> (Bypasses(h, inp, v) ==> 2000 < n)
    ensures Below(h, inp, v, IsStatic, n) <==> (h.cacheAssets && v.isAsset ==> 900 < n)
    ensures forall i: nat :: Below(h, inp, v, IsLocation(i), n) <==>
              (LocationTakes(h, inp, v.path, i) ==> 1000 + |h.locations[i].pathPrefix| < n)
  {
    InRangeHasBypass(h, inp, v);
    hide RuleOf, Bypasses, HasBypass, RouterMatches;
  }

  /**
   A visitor that the edge would serve from location `i`, of a host with distinct, well-formed
   prefixes and without the WAF, is served by that location's router and no other if and only if
   the router outranks the host's main rule and, for a visitor that a satisfy-any list trusts, the
   trusted router.
   */
  lemma LocationWins(h: Host, inp: Inputs, v: Visit, i: nat)
    requires v.entry == Entry(h, inp) && !(h.waf && inp.wafEnabled) && DistinctPrefixes(h.locations)
    requires forall loc :: loc in h.locations && loc.Usable() ==> WellFormed(loc.pathPrefix)
    requires EdgeServes(h.locations, v.path, i)
    ensures TopAlone(h, inp, v, LocRouterName(h.id, i)) <==>
              && |RuleOf(h.domains)| < 1000 + |h.locations[i].pathPrefix|
              && (Bypasses(h, inp, v) ==> |h.locations[i].pathPrefix| > 1000)
  {
    AgreeOnWellFormed(h.locations, v.path);
    OnlyLocation(h, v.path, i);
    hide RuleOf, EdgeServes, Bypasses, HasBypass, TopAlone, RouterMatches, DistinctPrefixes, WellFormed, Agree;
    var n := 1000 + |h.locations[i].pathPrefix|;
    assert LocationTakes(h, inp, v.path, i);
    AloneMeans(h, inp, v, IsLocation(i));
    SidesBelow(h, inp, v, n);
    hide Below, OthersBelow;
    OthersOneByOne(h, inp, v, IsLocation(i), n);
  }

  // Among the location routers that take the path, the one of the edge's location stands alone on top.
  lemma OnlyLocation(h: Host, path: string, i: nat)
    requires EdgeServes(h.locations, path, i) && Agree(h.locations, path)
    ensures i < |h.locations| && RouterMatches(h.locations[i], path) && h.locations[i].Usable()
    ensures forall j :: 0 <= j < |h.locations| && j != i && RouterMatches(h.locations[j], path) ==>
              |h.locations[j].pathPrefix| < |h.locations[i].pathPrefix|
  {
    assert TraefikServes(h.locations, path, i);
    forall j | 0 <= j < |h.locations| && j != i && RouterMatches(h.locations[j], path)
      ensures |h.locations[j].pathPrefix| < |h.locations[i].pathPrefix|
    {
      EdgeServesOne(h.locations, path, i, j);
      SameRankServes(h.locations, path, i, j);
    }
  }

  lemma EdgeServesOne(locs: seq<Location>, path: string, i: nat, j: nat)
    requires EdgeServes(locs, path, i) && i != j
    ensures !EdgeServes(locs, path, j)
  {}

  lemma SameRankServes(locs: seq<Location>, path: string, i: nat, j: nat)
    requires TraefikServes(locs, path, i) && j < |locs| && RouterMatches(locs[j], path)
    ensures |locs[j].pathPrefix| <= |locs[i].pathPrefix|
    ensures |locs[j].pathPrefix| == |locs[i].pathPrefix| ==> TraefikServes(locs, path, j)
  {}

  /**
   A visitor from a trusted address is served by the trusted router and no other, which is what
   lets it skip the auth, if and only if the host rule is shorter than 2000 and no location router
   that takes the path has a prefix of 1000 characters or more.
   */
  lemma TrustedWins(h: Host, inp: Inputs, v: Visit)
    requires v.entry == Entry(h, inp) && Bypasses(h, inp, v)
    ensures TopAlone(h, inp, v, TrustedName(h.id)) <==>
              && |RuleOf(h.domains)| < 2000
              && forall i: nat :: LocationTakes(h, inp, v.path, i) ==> |h.locations[i].pathPrefix| < 1000
  {
    InRangeHasBypass(h, inp, v);
    hide RuleOf, Bypasses, HasBypass, TopAlone, RouterMatches;
    AloneMeans(h, inp, v, IsTrusted);
    SidesBelow(h, inp, v, 2000);
    hide Below, OthersBelow, LocationTakes;
    OthersOneByOne(h, inp, v, IsTrusted, 2000);
  }

  /**
   A static asset outside all locations, for a visitor without a trusted address, is served by the
   static-asset router and no other if and only if the host rule is shorter than 900.
   */
  lemma StaticWins(h: Host, inp: Inputs, v: Visit)
    requires v.entry == Entry(h, inp) && h.cacheAssets && v.isAsset && !Bypasses(h, inp, v)
    requires forall i: nat :: !LocationTakes(h, inp, v.path, i)
    ensures TopAlone(h, inp, v, StaticName(h.id)) <==> |RuleOf(h.domains)| < 900
  {
    hide RuleOf, Bypasses, HasBypass, TopAlone, RouterMatches;
    AloneMeans(h, inp, v, IsStatic);
    SidesBelow(h, inp, v, 900);
    hide Below, OthersBelow, LocationTakes;
    OthersOneByOne(h, inp, v, IsStatic, 900);
  }

  // ---------------------------------------------------------------- the two routing paths

  /** The service `s` is that of the location the edge would serve the path from, else the host's own. */
  ghost predicate LeadsAlike(h: Host, path: string, s: string) {
    && (forall i: nat :: EdgeServes(h.locations, path, i) ==> s == LocServiceName(h.id, i))
    && ((forall i :: 0 <= i < |h.locations| ==> !EdgeMatches(h.locations[i], path)) ==> s == ServiceName(h.id))
  }

  /** By whichever router Traefik serves the visitor, it leads where the edge would lead. */
  ghost predicate RoutedAlike(h: Host, inp: Inputs, v: Visit) {
    forall k :: Top(h, inp, v, k) ==> LeadsAlike(h, v.path, Routers(h, inp)[k].service)
  }

  /** The location outranks the host's main rule and, if there is one, the trusted router. */
  predicate Outranks(h: Host, inp: Inputs, loc: Location) {
    |RuleOf(h.domains)| < 1000 + |loc.pathPrefix| && (HasBypass(h, inp) ==> |loc.pathPrefix| > 1000)
  }

  lemma ServicesDiffer(id: string, i: nat, j: nat)
    ensures ServiceName(id) != LocServiceName(id, i) && (LocServiceName(id, i) == LocServiceName(id, j) ==> i == j)
  {
    assert |LocServiceName(id, i)| > |ServiceName(id)|;
    LocationRouters.LocNamesInjective(id, i, j);
  }

  lemma EdgeServesOrNone(locs: seq<Location>, path: string) returns (i: nat)
    ensures EdgeServes(locs, path, i) || forall j :: 0 <= j < |locs| ==> !EdgeMatches(locs[j], path)
  {
    i := 0;
    var found, n := false, 0;
    while n < |locs|
      invariant n <= |locs| && (found ==> i < n && EdgeMatches(locs[i], path))
      invariant !found ==> forall j :: 0 <= j < n ==> !EdgeMatches(locs[j], path)
      invariant found ==> forall j :: 0 <= j < n && EdgeMatches(locs[j], path) ==>
                  |locs[j].pathPrefix| < |locs[i].pathPrefix|
                    || (|locs[j].pathPrefix| == |locs[i].pathPrefix| && i <= j)
    {
      if EdgeMatches(locs[n], path) && (!found || |locs[n].pathPrefix| > |locs[i].pathPrefix|) {
        found, i := true, n;
      }
      n := n + 1;
    }
  }

  // A path on which some kind of router is on top that leads elsewhere.
  lemma LedElsewhere(h: Host, inp: Inputs, v: Visit, kind: RouterKind)
    requires v.entry == Entry(h, inp) && KindTop(h, inp, v, kind)
    requires !LeadsAlike(h, v.path, if kind.IsLocation? then LocServiceName(h.id, kind.i) else ServiceName(h.id))
    ensures !RoutedAlike(h, inp, v)
  {
    TopIsAsked(h, inp, v, kind);
    TopOfKind(h, inp, v, kind);
    RouterOfKind(h, inp, v, kind);
    hide Top, KindTop, LeadsAlike, Routers, Asked, NameOf, ServiceName, LocServiceName, Rank, RankOfKind, Takes,
         KindTakes;
    assert Top(h, inp, v, NameOf(h, kind));
  }

  // With all locations well formed and on top, every visitor is led alike.
  lemma AlikeIfOutranking(h: Host, inp: Inputs, v: Visit)
    requires v.entry == Entry(h, inp) && !(h.waf && inp.wafEnabled) && DistinctPrefixes(h.locations)
    requires forall loc :: loc in h.locations && loc.Usable() ==> WellFormed(loc.pathPrefix) && Outranks(h, inp, loc)
    ensures RoutedAlike(h, inp, v)
  {
    var i := EdgeServesOrNone(h.locations, v.path);
    if EdgeServes(h.locations, v.path, i) {
      LocationOnTop(h, inp, v, i);
      ServedByLocation(h, inp, v, i);
    } else {
      AgreeOnWellFormed(h.locations, v.path);
      ServedByHost(h, inp, v);
    }
  }

  lemma LocationOnTop(h: Host, inp: Inputs, v: Visit, i: nat)
    requires v.entry == Entry(h, inp) && !(h.waf && inp.wafEnabled) && DistinctPrefixes(h.locations)
    requires forall loc :: loc in h.locations && loc.Usable() ==> WellFormed(loc.pathPrefix) && Outranks(h, inp, loc)
    requires EdgeServes(h.locations, v.path, i)
    ensures TopAlone(h, inp, v, LocRouterName(h.id, i))
  {
    LocationWins(h, inp, v, i);
    InRangeHasBypass(h, inp, v);
    hide TopAlone, RuleOf, Bypasses, HasBypass, WellFormed, DistinctPrefixes;
    assert Outranks(h, inp, h.locations[i]);
  }

  lemma ServedByLocation(h: Host, inp: Inputs, v: Visit, i: nat)
    requires v.entry == Entry(h, inp) && EdgeServes(h.locations, v.path, i)
        && TopAlone(h, inp, v, LocRouterName(h.id, i))
    ensures RoutedAlike(h, inp, v)
  {
    LeadsToLocation(h, v.path, i);
    LocationService(h, inp, v, i);
    hide Top, KindTop, LeadsAlike, LocRouterName, LocServiceName, ServiceName, EdgeServes, Routers;
    assert forall k :: Top(h, inp, v, k) ==> k == LocRouterName(h.id, i);
  }

  lemma LocationService(h: Host, inp: Inputs, v: Visit, i: nat)
    requires v.entry == Entry(h, inp) && Top(h, inp, v, LocRouterName(h.id, i))
    ensures LocRouterName(h.id, i) in Routers(h, inp)
    ensures Routers(h, inp)[LocRouterName(h.id, i)].service == LocServiceName(h.id, i)
  {
    hide KindTop, LocRouterName, LocServiceName, ServiceName, Routers, Takes, Rank, RouterName, TrustedName,
         StaticName, PlainName;
    var kind := TopHasKind(h, inp, v, LocRouterName(h.id, i));
    NamesAreKinds(h, inp, kind, IsLocation(i));
  }

  lemma LeadsToLocation(h: Host, path: string, i: nat)
    requires EdgeServes(h.locations, path, i)
    ensures LeadsAlike(h, path, LocServiceName(h.id, i))
  {
    hide LocServiceName, ServiceName, EdgeMatches;
  }

  lemma ServedByHost(h: Host, inp: Inputs, v: Visit)
    requires v.entry == Entry(h, inp) && Agree(h.locations, v.path)
    requires forall i :: 0 <= i < |h.locations| ==> !EdgeMatches(h.locations[i], v.path)
    ensures RoutedAlike(h, inp, v)
  {
    forall k | Top(h, inp, v, k) ensures LeadsAlike(h, v.path, Routers(h, inp)[k].service) {
      var kind := TopHasKind(h, inp, v, k);
      NoLocationTakes(h, inp, v);
      hide Top, Routers, RankOfKind, LocServiceName, ServiceName, RouterMatches, EdgeMatches, NameOf;
      TopTakes(h, inp, v, kind);
    }
  }

  lemma TopTakes(h: Host, inp: Inputs, v: Visit, kind: RouterKind)
    requires KindTop(h, inp, v, kind)
    ensures KindTakes(h, inp, v, kind)
  {}

  lemma NoLocationTakes(h: Host, inp: Inputs, v: Visit)
    requires Agree(h.locations, v.path)
    requires forall i :: 0 <= i < |h.locations| ==> !EdgeMatches(h.locations[i], v.path)
    ensures forall i: nat :: !LocationTakes(h, inp, v.path, i)
  {
    forall i: nat ensures !LocationTakes(h, inp, v.path, i) {
      if LocationTakes(h, inp, v.path, i) {
        var w := LongestMatch(h.locations, v.path, i);
        ServesSomething(h.locations, v.path, w);
      }
    }
  }

  lemma ServesSomething(locs: seq<Location>, path: string, w: nat)
    requires Agree(locs, path) && TraefikServes(locs, path, w)
    ensures exists i :: 0 <= i < |locs| && EdgeMatches(locs[i], path)
  {
    assert EdgeServes(locs, path, w);
  }

  // ---------------------------------------------------------------- and where they part

  lemma EdgeServesItself(locs: seq<Location>, i: nat)
    requires i < |locs| && locs[i].Usable() && DistinctPrefixes(locs)
    ensures EdgeServes(locs, locs[i].pathPrefix, i)
  {
    var path := locs[i].pathPrefix;
    assert path[|path|..] == "";
    forall j | 0 <= j < |locs| && EdgeMatches(locs[j], path) && j != i ensures |locs[j].pathPrefix| < |path| {
      assert locs[j].pathPrefix == path[..|locs[j].pathPrefix|];
    }
  }

  lemma SomeKindOnTop(h: Host, inp: Inputs, v: Visit) returns (kind: RouterKind)
    ensures KindTop(h, inp, v, kind)
  {
    hide RuleOf, LocationTakes, Bypasses, HasBypass;
    kind := IsMain;
    if TlsOn(h) && h.forceTls && v.entry == inp.httpEntry && RankOfKind(h, IsPlain) > RankOfKind(h, kind) {
      kind := IsPlain;
    }
    if h.cacheAssets && v.isAsset && 900 > RankOfKind(h, kind) { kind := IsStatic; }
    if HasBypass(h, inp) && Bypasses(h, inp, v) && 2000 > RankOfKind(h, kind) { kind := IsTrusted; }
    var n := 0;
    while n < |h.locations|
      invariant n <= |h.locations| && Asked(h, inp, kind) && KindTakes(h, inp, v, kind)
      invariant forall other ::
                  Asked(h, inp, other) && KindTakes(h, inp, v, other) && (!other.IsLocation? || other.i < n) ==>
                    RankOfKind(h, other) <= RankOfKind(h, kind)
    {
      if Asked(h, inp, IsLocation(n)) && KindTakes(h, inp, v, IsLocation(n))
         && RankOfKind(h, IsLocation(n)) > RankOfKind(h, kind) {
        kind := IsLocation(n);
      }
      n := n + 1;
    }
  }

  // A kind of router that leads to the host's own service and ranks as high as location `i`.
  lemma OutrankedElsewhere(h: Host, inp: Inputs, v: Visit, i: nat, other: RouterKind)
    requires v.entry == Entry(h, inp) && EdgeServes(h.locations, v.path, i) && !other.IsLocation?
    requires Asked(h, inp, other) && KindTakes(h, inp, v, other) && RankOfKind(h, other) >= RankOfKind(h, IsLocation(i))
    ensures !RoutedAlike(h, inp, v)
  {
    var kind := SomeKindOnTop(h, inp, v);
    ServicesDiffer(h.id, i, if kind.IsLocation? then kind.i else i);
    NotAlike(h, v.path, i);
    hide RankOfKind, KindTakes, Asked, EdgeServes, LeadsAlike, RoutedAlike, ServiceName, LocServiceName;
    if kind == IsLocation(i) {
      TopTooIfAsHigh(h, inp, v, kind, other);
      LedElsewhere(h, inp, v, other);
    } else {
      LedElsewhere(h, inp, v, kind);
    }
  }

  lemma TopTooIfAsHigh(h: Host, inp: Inputs, v: Visit, kind: RouterKind, other: RouterKind)
    requires KindTop(h, inp, v, kind) && Asked(h, inp, other) && KindTakes(h, inp, v, other)
    requires RankOfKind(h, other) >= RankOfKind(h, kind)
    ensures KindTop(h, inp, v, other)
  {
    hide RankOfKind, KindTakes, Asked;
  }

  lemma NotAlike(h: Host, path: string, i: nat)
    requires EdgeServes(h.locations, path, i)
    ensures forall s :: LeadsAlike(h, path, s) ==> s == LocServiceName(h.id, i)
  {}

  /** Whether Traefik and the edge lead every visitor of the path, or every trusted one, apart. */
  ghost predicate AllPart(h: Host, inp: Inputs, path: string, trusted: bool) {
    forall v: Visit :: v.entry == Entry(h, inp) && v.path == path && (trusted ==> Bypasses(h, inp, v)) ==>
      !RoutedAlike(h, inp, v)
  }

  lemma PartIfNotOutranking(h: Host, inp: Inputs, i: nat)
    requires !(h.waf && inp.wafEnabled) && DistinctPrefixes(h.locations)
    requires i < |h.locations| && h.locations[i].Usable() && !Outranks(h, inp, h.locations[i])
    ensures AllPart(h, inp, h.locations[i].pathPrefix, |RuleOf(h.domains)| < 1000 + |h.locations[i].pathPrefix|)
    ensures |RuleOf(h.domains)| < 1000 + |h.locations[i].pathPrefix| ==> HasBypass(h, inp)
  {
    var path := h.locations[i].pathPrefix;
    EdgeServesItself(h.locations, i);
    hide EdgeServes, RuleOf, RoutedAlike, DistinctPrefixes, Bypasses, HasBypass, Entry;
    var byRule := |RuleOf(h.domains)| >= 1000 + |path|;
    forall v: Visit | v.entry == Entry(h, inp) && v.path == path && (!byRule ==> Bypasses(h, inp, v))
      ensures !RoutedAlike(h, inp, v)
    {
      OutrankedElsewhere(h, inp, v, i, if byRule then IsMain else IsTrusted);
    }
  }

  // Where the location routers disagree with the edge, so do all routers of the host.
  lemma PartIfDisagreeing(h: Host, inp: Inputs, v: Visit)
    requires v.entry == Entry(h, inp) && !(h.waf && inp.wafEnabled) && !Agree(h.locations, v.path)
    requires forall loc :: loc in h.locations && loc.Usable() ==> Outranks(h, inp, loc)
    ensures !RoutedAlike(h, inp, v)
  {
    var path := v.path;
    var i: nat :| i < |h.locations| && (EdgeServes(h.locations, path, i) <==> !TraefikServes(h.locations, path, i));
    if w :| 0 <= w < |h.locations| && TraefikServes(h.locations, path, w) && !EdgeServes(h.locations, path, w) {
      PartAtLocation(h, inp, v, w);
    } else {
      NoneMatchesThen(h.locations, path, i);
      var kind := SomeKindOnTop(h, inp, v);
      TopTakes(h, inp, v, kind);
      NotAlike(h, path, i);
      ServicesDiffer(h.id, i, i);
      hide LeadsAlike, RoutedAlike, EdgeServes, TraefikServes, KindTop, ServiceName, LocServiceName, RouterMatches;
      assert !kind.IsLocation?;
      LedElsewhere(h, inp, v, kind);
    }
  }

  lemma NoneMatchesThen(locs: seq<Location>, path: string, i: nat)
    requires i < |locs| && EdgeServes(locs, path, i) && !TraefikServes(locs, path, i)
    requires forall w :: 0 <= w < |locs| && TraefikServes(locs, path, w) ==> EdgeServes(locs, path, w)
    ensures forall j :: 0 <= j < |locs| ==> !RouterMatches(locs[j], path)
  {
    forall j | 0 <= j < |locs| ensures !RouterMatches(locs[j], path) {
      if RouterMatches(locs[j], path) {
        var w := LongestMatch(locs, path, j);
        EdgeServesUnique(locs, path, i, w);
      }
    }
  }

  lemma EdgeServesUnique(locs: seq<Location>, path: string, i: nat, w: nat)
    requires EdgeServes(locs, path, i)
    ensures EdgeServes(locs, path, w) ==> w == i
  {}

  lemma PartAtLocation(h: Host, inp: Inputs, v: Visit, w: nat)
    requires v.entry == Entry(h, inp) && !(h.waf && inp.wafEnabled) && w < |h.locations|
    requires TraefikServes(h.locations, v.path, w) && !EdgeServes(h.locations, v.path, w)
    requires forall loc :: loc in h.locations && loc.Usable() ==> Outranks(h, inp, loc)
    ensures !RoutedAlike(h, inp, v)
  {
    var i := EdgeServesOrNone(h.locations, v.path);
    LocationTops(h, inp, v, w);
    ServicesDiffer(h.id, w, i);
    hide KindTop, RoutedAlike, ServiceName, LocServiceName, TraefikServes, Outranks, RouterMatches;
    if EdgeServes(h.locations, v.path, i) { NotAlike(h, v.path, i); }
    assert !LeadsAlike(h, v.path, LocServiceName(h.id, w));
    hide LeadsAlike;
    LedElsewhere(h, inp, v, IsLocation(w));
  }

  lemma LocationTops(h: Host, inp: Inputs, v: Visit, w: nat)
    requires v.entry == Entry(h, inp) && !(h.waf && inp.wafEnabled)
    requires w < |h.locations| && TraefikServes(h.locations, v.path, w)
    requires forall loc :: loc in h.locations && loc.Usable() ==> Outranks(h, inp, loc)
    ensures KindTop(h, inp, v, IsLocation(w))
  {
    assert Outranks(h, inp, h.locations[w]);
    InRangeHasBypass(h, inp, v);
    hide RuleOf, Bypasses, HasBypass, RouterMatches;
    forall other | Asked(h, inp, other) && KindTakes(h, inp, v, other)
      ensures RankOfKind(h, other) <= RankOfKind(h, IsLocation(w))
    {
      if other.IsLocation? { assert RouterMatches(h.locations[other.i], v.path); }
    }
  }

  /**
   Moving a host with distinct prefixes from Traefik to the edge, which happens when its WAF is
   switched on, leads every visitor to the same location as before, or to the host's own service
   as before, if and only if every usable prefix ends in a slash, holds no backtick, and makes its
   router outrank the host rule and, on hosts with a satisfy-any list, the trusted router.
   */
  lemma RoutingPathsAgree(h: Host, inp: Inputs)
    requires !(h.waf && inp.wafEnabled) && DistinctPrefixes(h.locations)
    ensures (forall v: Visit :: v.entry == Entry(h, inp) ==> RoutedAlike(h, inp, v))
       <==> (forall loc :: loc in h.locations && loc.Usable() ==> WellFormed(loc.pathPrefix) && Outranks(h, inp, loc))
  {
    hide RoutedAlike, Outranks, Entry, DistinctPrefixes, Agree;
    if forall loc :: loc in h.locations && loc.Usable() ==> WellFormed(loc.pathPrefix) && Outranks(h, inp, loc) {
      forall v: Visit | v.entry == Entry(h, inp) ensures RoutedAlike(h, inp, v) { AlikeIfOutranking(h, inp, v); }
    } else {
      var path, trusted := PartingPath(h, inp);
      var v := SomeVisitor(h, inp, path, trusted);
    }
  }

  lemma SomeVisitor(h: Host, inp: Inputs, path: string, trusted: bool) returns (v: Visit)
    requires trusted ==> HasBypass(h, inp)
    ensures v.entry == Entry(h, inp) && v.path == path && (trusted ==> Bypasses(h, inp, v))
  {
    var ips := BypassIps(h.accessListIds, inp.accessLists);
    v := Visit(Entry(h, inp), path, false, r => trusted && r == RuleQuote(ips[0]));
    assert trusted ==> v.inRange(RuleQuote(ips[0]));
  }

  /**
   For every other host there is a path on which Traefik and the edge lead all visitors to
   different places, or all visitors from a bypass range, whether the path is a static asset's or
   not and whichever other ranges they are in.
   */
  lemma PartingPath(h: Host, inp: Inputs) returns (path: string, trusted: bool)
    requires !(h.waf && inp.wafEnabled) && DistinctPrefixes(h.locations)
    requires !(forall loc :: loc in h.locations && loc.Usable() ==> WellFormed(loc.pathPrefix) && Outranks(h, inp, loc))
    ensures AllPart(h, inp, path, trusted) && (trusted ==> HasBypass(h, inp))
  {
    hide RoutedAlike, Outranks, Entry, DistinctPrefixes, Agree, WellFormed, RuleOf, HasBypass;
    if i: nat :| i < |h.locations| && h.locations[i].Usable() && !Outranks(h, inp, h.locations[i]) {
      path, trusted := h.locations[i].pathPrefix, |RuleOf(h.domains)| < 1000 + |h.locations[i].pathPrefix|;
      PartIfNotOutranking(h, inp, i);
    } else {
      path := DisagreeingPath(h.locations);
      trusted := false;
      forall v: Visit | v.entry == Entry(h, inp) && v.path == path ensures !RoutedAlike(h, inp, v) {
        PartIfDisagreeing(h, inp, v);
      }
    }
  }

  // ---------------------------------------------------------------- upstream lists

  /**
   Then the location's router is the only one that can serve the visitor, and its service has the
   very upstream list that the edge settles on for the path.
   */
  lemma EdgeKeepsUpstreams(h: Host, inp: Inputs, v: Visit, i: nat, b: EdgeServer.Backend)
    requires v.entry == Entry(h, inp) && !(h.waf && inp.wafEnabled) && DistinctPrefixes(h.locations)
    requires forall loc :: loc in h.locations && loc.Usable() ==> WellFormed(loc.pathPrefix) && Outranks(h, inp, loc)
    requires EdgeServes(h.locations, v.path, i) && EdgeServer.IsBackend(EdgeServer.EdgeViewOf(h), v.path, b)
    ensures TopAlone(h, inp, v, LocRouterName(h.id, i))
    ensures Routers(h, inp)[LocRouterName(h.id, i)].service in ProxyParts(h, inp).services
    ensures ProxyParts(h, inp).services[Routers(h, inp)[LocRouterName(h.id, i)].service] == Servers(b.upstreams)
  {
    LocationOnTop(h, inp, v, i);
    LocationRouters.LocRouterIsHosts(h, inp, i);
    hide ProxyParts, TopAlone, Outranks, WellFormed, DistinctPrefixes;
  }
}

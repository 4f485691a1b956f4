/**
 What the middleware names of a host stand for in the whole output.

 The names of one host are told apart by the letters after its prefix, and shared names by their
 first letter. So what a part of a host or of the shared configuration defines is what the output
 holds, and each definition is read off the fields of the row it comes from.
 */
module HostMiddlewares {
  import opened Text
  import opened Hosts
  import opened RenderSpec
  import opened RenderClosure
  import opened RenderOutput
  import opened HostChains
  import LocationRouters

  // ---------------------------------------------------------------- the names of one host are told apart

  /** The middlewares of one part of a host, by the letters of their names. */
  predicate KeysHave<T>(m: map<string, T>, h: Host, a: char, b: char) { forall k :: k in m ==> HasLetters(h, k, a, b) }

  lemma GeneratedKeys(h: Host, inp: Inputs)
    ensures KeysHave(ErrorMiddlewares(h, inp.contentBackend), h, 'e', 'r') && KeysHave(CacheMiddlewares(h), h, 'c', 'a')
    ensures KeysHave(SchemeMiddlewares(h), h, 'r', 'e')
    ensures HasLetters(h, HstsName(h.id), 'h', 's') && HasLetters(h, CorsName(h.id), 'c', 'o')
  {
    var p := |RouterName(h.id)|;
    assert HstsName(h.id)[p..] == "-hsts" && CorsName(h.id)[p..] == "-cors" && ErrorsName(h.id)[p..] == "-errors";
    assert CacheName(h.id)[p..] == "-cache" && RedirectName(h.id)[p..] == "-redirect-mw";
    hide HasErrorPages, NonEmpty;
  }

  lemma {:induction false} RawKeysHave(h: Host, names: seq<string>)
    ensures KeysHave(RawMiddlewares(h.id, names), h, 'r', 'a')
  {
    if names != [] {
      RawKeysHave(h, names[..|names| - 1]);
      var n := RawName(h.id, names[|names| - 1]);
      assert n[|RouterName(h.id)|..] == "-raw-" + names[|names| - 1];
      assert HasLetters(h, n, 'r', 'a');
      hide RawName, HasLetters;
    }
  }

  lemma StripLetters(h: Host, i: nat)
    ensures HasLetters(h, StripName(h.id, i), 'l', 'o')
  {
    assert StripName(h.id, i)[|RouterName(h.id)|..] == "-loc" + Itoa(i) + "-strip";
  }

  lemma {:induction false} StripKeysHave(h: Host, inp: Inputs, n: nat)
    requires n <= |h.locations|
    ensures KeysHave(LocParts(h, inp, n).middlewares, h, 'l', 'o')
  {
    NoLocParts(h, inp);
    if n > 0 {
      StripLetters(h, n - 1);
      StripKeysHave(h, inp, n - 1);
      LocPartsStep(h, inp, n - 1);
      hide LocParts, LocRouter, LocRouterName, LocServiceName, StripName, HasLetters;
    }
  }

  lemma SumOfSix<T>(a: map<string, T>, b: map<string, T>, c: map<string, T>, d: map<string, T>, e: map<string, T>,
                    f: map<string, T>, k: string)
    ensures var m := a + b + c + d + e + f;
            && (k !in b && k !in c && k !in d && k !in e && k !in f ==> SameAt(m, a, k))
            && (k !in a && k !in c && k !in d && k !in e && k !in f ==> SameAt(m, b, k))
            && (k !in a && k !in b && k !in d && k !in e && k !in f ==> SameAt(m, c, k))
            && (k !in a && k !in b && k !in c && k !in e && k !in f ==> SameAt(m, d, k))
            && (k !in a && k !in b && k !in c && k !in d && k !in f ==> SameAt(m, e, k))
            && (k !in a && k !in b && k !in c && k !in d && k !in e ==> SameAt(m, f, k))
  {}

  /** Which letters the parts of a proxy host put into their names. */
  function LettersOf(part: nat): (char, char) {
    match part
    case 0 => ('e', 'r')
    case 1 => ('r', 'a')
    case 2 => ('c', 'a')
    case 3 => ('l', 'o')
    case _ => ('r', 'e')
  }

  function PartOf(h: Host, inp: Inputs, part: nat): map<string, Middleware> {
    match part
    case 0 => ErrorMiddlewares(h, inp.contentBackend)
    case 1 => RawMiddlewares(h.id, FragmentOf(h).middlewares)
    case 2 => CacheMiddlewares(h)
    case 3 => LocParts(h, inp, |h.locations|).middlewares
    case _ => SchemeMiddlewares(h)
  }

  lemma PartHasLetters(h: Host, inp: Inputs, part: nat, k: string)
    ensures k in PartOf(h, inp, part) ==> HasLetters(h, k, LettersOf(part).0, LettersOf(part).1)
  {
    GeneratedKeys(h, inp);
    RawKeysHave(h, FragmentOf(h).middlewares);
    StripKeysHave(h, inp, |h.locations|);
    hide ErrorMiddlewares, RawMiddlewares, CacheMiddlewares, LocParts, SchemeMiddlewares, HasLetters;
  }

  lemma CollectedHaveLetters(h: Host, inp: Inputs, k: string)
    requires k in CollectedMiddlewares(h)
    ensures HasLetters(h, k, 'h', 's') || HasLetters(h, k, 'c', 'o')
  {
    GeneratedKeys(h, inp);
    hide HasLetters;
  }

  lemma ProxySum(h: Host, inp: Inputs, k: string)
    ensures ProxyParts(h, inp).middlewares
         == CollectedMiddlewares(h) + PartOf(h, inp, 0) + PartOf(h, inp, 1) + PartOf(h, inp, 2) + PartOf(h, inp, 3)
          + PartOf(h, inp, 4)
  {
    hide CollectedMiddlewares, ErrorMiddlewares, RawMiddlewares, CacheMiddlewares, LocParts, SchemeMiddlewares,
         MainServices, RawServices, MainRouter, TrustedRouters, StaticRouters, PlainHttpRouters;
  }

  lemma OneLetters(h: Host, k: string, a: char, b: char, a': char, b': char)
    ensures HasLetters(h, k, a, b) && HasLetters(h, k, a', b') ==> a == a' && b == b'
  {}

  lemma NotInPart(h: Host, inp: Inputs, k: string, a: char, b: char, part: nat)
    requires HasLetters(h, k, a, b) && (a, b) != LettersOf(part)
    ensures k !in PartOf(h, inp, part)
  {
    PartHasLetters(h, inp, part, k);
    OneLetters(h, k, a, b, LettersOf(part).0, LettersOf(part).1);
    hide HasLetters, PartOf, LettersOf;
  }

  lemma NotCollected(h: Host, inp: Inputs, k: string, part: nat)
    requires part < 5 && HasLetters(h, k, LettersOf(part).0, LettersOf(part).1)
    ensures k !in CollectedMiddlewares(h)
  {
    OneLetters(h, k, LettersOf(part).0, LettersOf(part).1, 'h', 's');
    OneLetters(h, k, LettersOf(part).0, LettersOf(part).1, 'c', 'o');
    if k in CollectedMiddlewares(h) { CollectedHaveLetters(h, inp, k); }
    hide HasLetters, CollectedMiddlewares;
  }

  // A key of one part is in no other, so the sum has what that part has.
  lemma PartsOf(h: Host, inp: Inputs, k: string, part: nat)
    requires part < 5 && HasLetters(h, k, LettersOf(part).0, LettersOf(part).1)
    ensures SameAt(ProxyParts(h, inp).middlewares, PartOf(h, inp, part), k)
  {
    var (a, b) := LettersOf(part);
    ProxySum(h, inp, k);
    NotCollected(h, inp, k, part);
    if part != 0 { NotInPart(h, inp, k, a, b, 0); }
    if part != 1 { NotInPart(h, inp, k, a, b, 1); }
    if part != 2 { NotInPart(h, inp, k, a, b, 2); }
    if part != 3 { NotInPart(h, inp, k, a, b, 3); }
    if part != 4 { NotInPart(h, inp, k, a, b, 4); }
    hide ProxyParts, CollectedMiddlewares, PartOf, SameAt, HasLetters;
    SumOfSix(CollectedMiddlewares(h), PartOf(h, inp, 0), PartOf(h, inp, 1), PartOf(h, inp, 2), PartOf(h, inp, 3),
             PartOf(h, inp, 4), k);
  }

  lemma CollectedOf(h: Host, inp: Inputs, k: string)
    requires HasLetters(h, k, 'h', 's') || HasLetters(h, k, 'c', 'o')
    ensures SameAt(ProxyParts(h, inp).middlewares, CollectedMiddlewares(h), k)
  {
    var b := if HasLetters(h, k, 'h', 's') then 's' else 'o';
    var a := if HasLetters(h, k, 'h', 's') then 'h' else 'c';
    ProxySum(h, inp, k);
    NotInPart(h, inp, k, a, b, 0);
    NotInPart(h, inp, k, a, b, 1);
    NotInPart(h, inp, k, a, b, 2);
    NotInPart(h, inp, k, a, b, 3);
    NotInPart(h, inp, k, a, b, 4);
    hide ProxyParts, CollectedMiddlewares, PartOf, SameAt, HasLetters;
    SumOfSix(CollectedMiddlewares(h), PartOf(h, inp, 0), PartOf(h, inp, 1), PartOf(h, inp, 2), PartOf(h, inp, 3),
             PartOf(h, inp, 4), k);
  }

  // ---------------------------------------------------------------- what each name stands for

  lemma GeneratedMean(h: Host, inp: Inputs)
    ensures DefinesHeaders(ProxyParts(h, inp).middlewares, h)
  {
    GeneratedKeys(h, inp);
    CollectedOf(h, inp, HstsName(h.id));
    CollectedOf(h, inp, CorsName(h.id));
    OwnNamesDiffer(h);
    hide ProxyParts, HasLetters, HstsName, CorsName;
  }

  /** The statuses that are not empty, in their order. */
  ghost predicate AreStatuses(statuses: seq<string>, all: seq<string>) {
    exists idx: seq<nat> :: PicksStatuses(statuses, all, idx)
  }

  ghost predicate PicksStatuses(statuses: seq<string>, all: seq<string>, idx: seq<nat>) {
    && Picks(idx, |all|) && |statuses| == |idx|
    && (forall j :: 0 <= j < |idx| ==> statuses[j] == all[idx[j]])
    && (forall i: nat :: i < |all| ==> (i in idx <==> all[i] != ""))
  }

  lemma ErrorsMean(h: Host, inp: Inputs)
    ensures DefinesErrors(ProxyParts(h, inp).middlewares, h, inp)
  {
    ErrorLetters(h);
    PartsOf(h, inp, ErrorsName(h.id), 0);
    ErrorPartMeans(h, inp);
    hide ProxyParts, HasLetters, ErrorsName, ErrorMiddlewares, WantsErrorPages, AreStatuses;
  }

  lemma ErrorLetters(h: Host)
    ensures HasLetters(h, ErrorsName(h.id), 'e', 'r')
  {
    assert ErrorsName(h.id)[|RouterName(h.id)|..] == "-errors";
  }

  lemma ErrorPartMeans(h: Host, inp: Inputs)
    ensures DefinesErrors(ErrorMiddlewares(h, inp.contentBackend), h, inp)
  {
    ErrorPagesMean(h, inp);
    var idx := NonEmptyMeans(h.errorStatuses);
    assert PicksStatuses(NonEmpty(h.errorStatuses), h.errorStatuses, idx);
    hide ErrorsName, WantsErrorPages, HasErrorPages, NonEmpty, PicksStatuses;
  }

  lemma FixedMean(h: Host, inp: Inputs)
    ensures DefinesFixed(ProxyParts(h, inp).middlewares, h)
  {
    var p := |RouterName(h.id)|;
    assert CacheName(h.id)[p..] == "-cache" && RedirectName(h.id)[p..] == "-redirect-mw";
    assert HasLetters(h, CacheName(h.id), LettersOf(2).0, LettersOf(2).1);
    assert HasLetters(h, RedirectName(h.id), LettersOf(4).0, LettersOf(4).1);
    PartsOf(h, inp, CacheName(h.id), 2);
    PartsOf(h, inp, RedirectName(h.id), 4);
    hide ProxyParts, HasLetters, CacheName, RedirectName;
  }

  lemma RawMean(h: Host, inp: Inputs, n: string)
    ensures var m := ProxyParts(h, inp).middlewares;
            && (RawName(h.id, n) in m <==> n in FragmentOf(h).middlewares)
            && (RawName(h.id, n) in m ==> m[RawName(h.id, n)] == RawMiddleware)
  {
    assert RawName(h.id, n)[|RouterName(h.id)|..] == "-raw-" + n;
    assert HasLetters(h, RawName(h.id, n), LettersOf(1).0, LettersOf(1).1);
    PartsOf(h, inp, RawName(h.id, n), 1);
    RawDefines(h.id, FragmentOf(h).middlewares, n);
    hide ProxyParts, HasLetters, RawMiddlewares, RawName;
  }

  lemma {:induction false} RawDefines(id: string, names: seq<string>, n: string)
    ensures RawName(id, n) in RawMiddlewares(id, names) <==> n in names
    ensures RawName(id, n) in RawMiddlewares(id, names) ==> RawMiddlewares(id, names)[RawName(id, n)] == RawMiddleware
  {
    if names != [] {
      RawDefines(id, names[..|names| - 1], n);
      RawNamesDiffer(id, n, names[|names| - 1]);
      hide RawName;
    }
  }

  lemma RawNamesDiffer(id: string, a: string, b: string)
    ensures RawName(id, a) == RawName(id, b) ==> a == b
  {
    var p := |"host-" + id + "-raw-"|;
    assert RawName(id, a)[p..] == a && RawName(id, b)[p..] == b;
  }

  /** The location has a router of its own: it is complete, and the WAF does not take its requests to the edge. */
  predicate HasRouter(h: Host, inp: Inputs, i: nat) {
    && i < |h.locations| && h.locations[i].pathPrefix != "" && h.locations[i].upstreams != []
    && !(h.waf && inp.wafEnabled)
  }

  lemma StripMeans(h: Host, inp: Inputs, i: nat)
    ensures var m := ProxyParts(h, inp).middlewares;
            && (StripName(h.id, i) in m <==> HasRouter(h, inp, i) && h.locations[i].stripPrefix)
            && (StripName(h.id, i) in m ==> m[StripName(h.id, i)] == StripPrefix(h.locations[i].pathPrefix))
  {
    StripLetters(h, i);
    PartsOf(h, inp, StripName(h.id, i), 3);
    StripDefined(h, inp, |h.locations|, i);
    hide ProxyParts, HasLetters, LocParts, StripName, HasRouter;
  }

  lemma {:induction false} StripDefined(h: Host, inp: Inputs, n: nat, i: nat)
    requires n <= |h.locations|
    ensures var m := LocParts(h, inp, n).middlewares;
            && (StripName(h.id, i) in m <==> i < n && HasRouter(h, inp, i) && h.locations[i].stripPrefix)
            && (StripName(h.id, i) in m ==> m[StripName(h.id, i)] == StripPrefix(h.locations[i].pathPrefix))
  {
    NoLocParts(h, inp);
    if n > 0 {
      StripDefined(h, inp, n - 1, i);
      LocPartsStep(h, inp, n - 1);
      StripNamesDiffer(h.id, i, n - 1);
      hide LocParts, LocRouter, LocRouterName, LocServiceName, StripName;
    }
  }

  lemma StripNamesDiffer(id: string, i: nat, j: nat)
    ensures StripName(id, i) == StripName(id, j) ==> i == j
  {
    LocationRouters.LocNamesInjective(id, i, j);
    assert StripName(id, i)[..|StripName(id, i)| - 6] == LocRouterName(id, i);
    assert StripName(id, j)[..|StripName(id, j)| - 6] == LocRouterName(id, j);
  }

  // ---------------------------------------------------------------- in the whole output

  lemma OneMoreHost(c: Cfg, hosts: seq<Host>, inp: Inputs)
    requires hosts != []
    ensures AddHosts(c, hosts, inp).middlewares
         == AddHosts(c, hosts[..|hosts| - 1], inp).middlewares + HostParts(hosts[|hosts| - 1], inp).middlewares
  {
    var (d, h) := (AddHosts(c, hosts[..|hosts| - 1], inp), hosts[|hosts| - 1]);
    OverMiddlewares(d, HostParts(h, inp));
    OverMiddlewares(WithNoop(d), HostParts(h, inp));
    PlusEmptyMap(d.middlewares);
    assert WithNoop(d).middlewares == d.middlewares;
    hide ProxyParts, RedirectionParts, DeadParts, StreamParts, Over, WithNoop;
  }

  lemma OverMiddlewares(c: Cfg, d: Cfg)
    ensures Over(c, d).middlewares == c.middlewares + d.middlewares
  {}

  lemma MiddlewareKeys(h: Host, inp: Inputs)
    ensures Under(HostParts(h, inp).middlewares, h.id)
  {
    ProxyMiddlewareKeys(h, inp);
    OtherKindKeys(h, inp);
    hide ProxyParts, RedirectionParts, DeadParts, StreamParts;
  }

  lemma NoHostsYet(c: Cfg, inp: Inputs)
    ensures AddHosts(c, [], inp) == c
  {}

  lemma {:induction false} NoneDefines(c: Cfg, hosts: seq<Host>, inp: Inputs, k: string)
    requires forall h :: h in hosts ==> !(RouterName(h.id) <= k)
    ensures SameAt(AddHosts(c, hosts, inp).middlewares, c.middlewares, k)
  {
    hide AddHosts, HostParts, RouterName;
    if hosts == [] {
      NoHostsYet(c, inp);
    } else {
      NoneDefines(c, hosts[..|hosts| - 1], inp, k);
      OneMoreHost(c, hosts, inp);
      MiddlewareKeys(hosts[|hosts| - 1], inp);
    }
  }

  lemma {:induction false} HostDefines(c: Cfg, hosts: seq<Host>, inp: Inputs, i: nat, k: string)
    requires i < |hosts| && IdsPrefixFree(hosts) && RouterName(hosts[i].id) <= k && k !in c.middlewares
    ensures SameAt(AddHosts(c, hosts, inp).middlewares, HostParts(hosts[i], inp).middlewares, k)
  {
    hide AddHosts, HostParts, RouterName, IdsPrefixFree;
    var (before, last) := (hosts[..|hosts| - 1], hosts[|hosts| - 1]);
    OneMoreHost(c, hosts, inp);
    PrefixFreeBefore(hosts);
    if i < |before| {
      HostDefines(c, before, inp, i, k);
      MiddlewareKeys(last, inp);
      OthersPrefix(hosts, i, |before|, k);
    } else {
      NoneBefore(hosts, i, k);
      NoneDefines(c, before, inp, k);
    }
  }

  // The first letters of the shared names: no host's name begins with them.
  lemma {:induction false} UserKeys(ms: seq<UserMiddleware>)
    ensures forall k :: k in UserMiddlewares(ms) ==> k != "" && k[0] == 'm'
  {
    if ms != [] {
      UserKeys(ms[..|ms| - 1]);
      assert MwName(ms[|ms| - 1].id)[0] == 'm';
    }
  }

  lemma {:induction false} ListKeys(acls: seq<AccessList>)
    ensures forall k :: k in AccessListMiddlewares(acls) ==> k != "" && k[0] == 'a'
  {
    if acls != [] {
      ListKeys(acls[..|acls| - 1]);
      assert AuthName(acls[|acls| - 1].id)[0] == 'a' && IpName(acls[|acls| - 1].id)[0] == 'a';
      hide Credentials;
    }
  }

  lemma SharedKeys(inp: Inputs, k: string)
    requires k in BaseParts(inp).middlewares || k in DefaultParts(inp).middlewares || k in BannedParts(inp).middlewares
    ensures k != "" && k[0] != 'h'
  {
    UserKeys(inp.middlewares);
    ListKeys(inp.accessLists);
    hide UserMiddlewares, AccessListMiddlewares, QuotedIps, Join;
    assert TOKEN_MW[0] == 'x' && DEFAULT_PATH[0] == 'x' && BANNED_PATH[0] == 'x';
  }

  /** With prefix-free ids the output defines under a host's names exactly what that host does. */
  lemma MiddlewaresOfHost(inp: Inputs, i: nat, k: string)
    requires i < |inp.hosts| && IdsPrefixFree(inp.hosts) && RouterName(inp.hosts[i].id) <= k
    ensures SameAt(Rendered(inp).middlewares, HostParts(inp.hosts[i], inp).middlewares, k)
  {
    assert k[0] == RouterName(inp.hosts[i].id)[0] == 'h';
    if k in BaseParts(inp).middlewares || k in DefaultParts(inp).middlewares || k in BannedParts(inp).middlewares {
      SharedKeys(inp, k);
    }
    HostDefines(BaseParts(inp), inp.hosts, inp, i, k);
    hide AddHosts, HostParts, BaseParts, DefaultParts, BannedParts, RouterName;
  }

  /** Each of the host's names is defined exactly if the host's fields ask for it, as they say. */
  ghost predicate DefinesOwn(m: map<string, Middleware>, h: Host, inp: Inputs) {
    && DefinesHeaders(m, h) && DefinesFixed(m, h) && DefinesErrors(m, h, inp)
    && DefinesStrips(m, h, inp) && DefinesRaws(m, h)
  }

  predicate DefinesHeaders(m: map<string, Middleware>, h: Host) {
    && (HstsName(h.id) in m <==> h.hsts) && (HstsName(h.id) in m ==> m[HstsName(h.id)] == Hsts)
    && (CorsName(h.id) in m <==> h.corsEnabled && h.corsAllowOrigins != [])
    && (CorsName(h.id) in m ==> m[CorsName(h.id)] == Cors(h.corsAllowOrigins, h.corsAllowCredentials))
  }

  predicate DefinesFixed(m: map<string, Middleware>, h: Host) {
    && (CacheName(h.id) in m <==> h.cacheAssets) && (CacheName(h.id) in m ==> m[CacheName(h.id)] == CacheControl)
    && (RedirectName(h.id) in m <==> h.tls in {TlsAcme, TlsCustom, TlsExternal} && h.forceTls)
    && (RedirectName(h.id) in m ==> m[RedirectName(h.id)] == RedirectScheme)
  }

  ghost predicate DefinesErrors(m: map<string, Middleware>, h: Host, inp: Inputs) {
    && (ErrorsName(h.id) in m <==> WantsErrorPages(h, inp))
    && (ErrorsName(h.id) in m ==>
          && m[ErrorsName(h.id)].Errors? && AreStatuses(m[ErrorsName(h.id)].statuses, h.errorStatuses)
          && m[ErrorsName(h.id)].service == CONTENT
          && m[ErrorsName(h.id)].query == "/__xgress/error/" + h.id + "/{status}")
  }

  ghost predicate DefinesStrips(m: map<string, Middleware>, h: Host, inp: Inputs) {
    forall i: nat ::
      && (StripName(h.id, i) in m <==> HasRouter(h, inp, i) && h.locations[i].stripPrefix)
      && (StripName(h.id, i) in m ==> m[StripName(h.id, i)] == StripPrefix(h.locations[i].pathPrefix))
  }

  ghost predicate DefinesRaws(m: map<string, Middleware>, h: Host) {
    forall n ::
      && (RawName(h.id, n) in m <==> h.raw.Some? && n in h.raw.value.middlewares)
      && (RawName(h.id, n) in m ==> m[RawName(h.id, n)] == RawMiddleware)
  }

  lemma ProxyDefinesOwn(h: Host, inp: Inputs)
    ensures DefinesOwn(ProxyParts(h, inp).middlewares, h, inp)
  {
    GeneratedMean(h, inp);
    ErrorsMean(h, inp);
    FixedMean(h, inp);
    ProxyDefinesStrips(h, inp);
    ProxyDefinesRaws(h, inp);
    hide ProxyParts, DefinesHeaders, DefinesFixed, DefinesErrors, DefinesStrips, DefinesRaws;
  }

  lemma ProxyDefinesStrips(h: Host, inp: Inputs)
    ensures DefinesStrips(ProxyParts(h, inp).middlewares, h, inp)
  {
    forall i: nat
      ensures var m := ProxyParts(h, inp).middlewares;
              && (StripName(h.id, i) in m <==> HasRouter(h, inp, i) && h.locations[i].stripPrefix)
              && (StripName(h.id, i) in m ==> m[StripName(h.id, i)] == StripPrefix(h.locations[i].pathPrefix))
    {
      StripMeans(h, inp, i);
    }
    hide ProxyParts, StripName, HasRouter;
  }

  lemma ProxyDefinesRaws(h: Host, inp: Inputs)
    ensures DefinesRaws(ProxyParts(h, inp).middlewares, h)
  {
    forall n
      ensures var m := ProxyParts(h, inp).middlewares;
              && (RawName(h.id, n) in m <==> h.raw.Some? && n in h.raw.value.middlewares)
              && (RawName(h.id, n) in m ==> m[RawName(h.id, n)] == RawMiddleware)
    {
      RawMean(h, inp, n);
    }
    hide ProxyParts, RawName;
  }

  lemma OwnNamesBegin(id: string)
    ensures RouterName(id) <= HstsName(id) && RouterName(id) <= CorsName(id) && RouterName(id) <= ErrorsName(id)
    ensures RouterName(id) <= CacheName(id) && RouterName(id) <= RedirectName(id)
    ensures forall i: nat :: RouterName(id) <= StripName(id, i)
    ensures forall n :: RouterName(id) <= RawName(id, n)
  {
    forall i: nat ensures RouterName(id) <= StripName(id, i) {
      assert StripName(id, i)[..|RouterName(id)|] == RouterName(id);
    }
    forall n ensures RouterName(id) <= RawName(id, n) { assert RawName(id, n)[..|RouterName(id)|] == RouterName(id); }
  }

  lemma DefinesLikewise(a: map<string, Middleware>, b: map<string, Middleware>, h: Host, inp: Inputs)
    requires DefinesOwn(a, h, inp) && forall k :: RouterName(h.id) <= k ==> SameAt(b, a, k)
    ensures DefinesOwn(b, h, inp)
  {
    OwnNamesBegin(h.id);
    hide RouterName, HstsName, CorsName, ErrorsName, CacheName, RedirectName, StripName, RawName, HasRouter,
         WantsErrorPages, AreStatuses;
    assert SameAt(b, a, HstsName(h.id)) && SameAt(b, a, CorsName(h.id)) && SameAt(b, a, ErrorsName(h.id));
    assert SameAt(b, a, CacheName(h.id)) && SameAt(b, a, RedirectName(h.id));
    forall i: nat ensures SameAt(b, a, StripName(h.id, i)) {}
    forall n ensures SameAt(b, a, RawName(h.id, n)) {}
  }

  /**
   In the whole output, the names of an enabled proxy host are defined exactly if the host asks for
   them, and stand for what its fields say.
   */
  lemma OwnInOutput(inp: Inputs, i: nat)
    requires i < |inp.hosts| && IdsPrefixFree(inp.hosts) && inp.hosts[i].enabled && inp.hosts[i].kind == Proxy
    ensures DefinesOwn(Rendered(inp).middlewares, inp.hosts[i], inp)
  {
    var h := inp.hosts[i];
    ProxyDefinesOwn(h, inp);
    hide Rendered, ProxyParts, RouterName, DefinesOwn;
    forall k | RouterName(h.id) <= k ensures SameAt(Rendered(inp).middlewares, ProxyParts(h, inp).middlewares, k) {
      MiddlewaresOfHost(inp, i, k);
    }
    DefinesLikewise(ProxyParts(h, inp).middlewares, Rendered(inp).middlewares, h, inp);
  }

  // ---------------------------------------------------------------- shared names

  // A name that no host's begins, but for the two shared pages, stands for what the shared part says.
  lemma SharedSame(inp: Inputs, k: string)
    requires k != "" && k[0] != 'h' && k !in {DEFAULT_PATH, BANNED_PATH}
    ensures SameAt(Rendered(inp).middlewares, BaseParts(inp).middlewares, k)
  {
    assert forall id :: RouterName(id)[0] == 'h';
    NoneDefines(BaseParts(inp), inp.hosts, inp, k);
    PageNames(inp);
    hide AddHosts, BaseParts, DefaultParts, BannedParts, RouterName;
  }

  lemma PageNames(inp: Inputs)
    ensures DefaultParts(inp).middlewares.Keys <= {DEFAULT_PATH} && BannedParts(inp).middlewares.Keys <= {BANNED_PATH}
  {
    hide QuotedIps, Join;
  }

  function TokenPart(inp: Inputs): map<string, Middleware> {
    if EdgeIsGated(inp) then map[TOKEN_MW := TokenHeader(inp.cacheToken)] else map[]
  }

  lemma BaseSum(inp: Inputs, k: string)
    ensures var m := BaseParts(inp).middlewares;
            && (k != "" && k[0] == 'm' ==> SameAt(m, UserMiddlewares(inp.middlewares), k))
            && (k != "" && k[0] == 'a' ==> SameAt(m, AccessListMiddlewares(inp.accessLists), k))
            && (k == TOKEN_MW ==> SameAt(m, TokenPart(inp), k))
  {
    UserKeys(inp.middlewares);
    ListKeys(inp.accessLists);
    assert TOKEN_MW[0] == 'x' && forall n :: n in TokenPart(inp) ==> n == TOKEN_MW;
    BaseIsSum(inp);
    SumOfThree(UserMiddlewares(inp.middlewares), AccessListMiddlewares(inp.accessLists), TokenPart(inp), k);
    hide UserMiddlewares, AccessListMiddlewares, BaseParts, TokenPart, SameAt;
  }

  lemma SumOfThree<T>(a: map<string, T>, b: map<string, T>, c: map<string, T>, k: string)
    ensures k !in b && k !in c ==> SameAt(a + b + c, a, k)
    ensures k !in a && k !in c ==> SameAt(a + b + c, b, k)
    ensures k !in a && k !in b ==> SameAt(a + b + c, c, k)
  {}

  lemma BaseIsSum(inp: Inputs)
    ensures BaseParts(inp).middlewares
         == UserMiddlewares(inp.middlewares) + AccessListMiddlewares(inp.accessLists) + TokenPart(inp)
  {
    hide UserMiddlewares, AccessListMiddlewares;
  }

  /** The credentials of the users with a name and a hash, in their order. */
  ghost predicate AreCredentials(cs: seq<string>, us: seq<AccessUser>) {
    exists idx: seq<nat> :: PicksCredentials(cs, us, idx)
  }

  function Credential(u: AccessUser): string { u.username + ":" + u.hash }

  ghost predicate PicksCredentials(cs: seq<string>, us: seq<AccessUser>, idx: seq<nat>) {
    && Picks(idx, |us|) && |cs| == |idx|
    && (forall j :: 0 <= j < |idx| ==> cs[j] == Credential(us[idx[j]]))
    && (forall i: nat :: i < |us| ==> (i in idx <==> us[i].username != "" && us[i].hash != ""))
  }

  lemma PickOneMore(cs: seq<string>, us: seq<AccessUser>, u: AccessUser, idx: seq<nat>)
    requires PicksCredentials(cs, us, idx)
    ensures u.username != "" && u.hash != "" ==> PicksCredentials(cs + [Credential(u)], us + [u], idx + [|us|])
    ensures !(u.username != "" && u.hash != "") ==> PicksCredentials(cs, us + [u], idx)
  {
    hide Credential;
    assert forall i :: 0 <= i < |us| ==> (us + [u])[i] == us[i];
    assert forall i: nat :: i in idx + [|us|] <==> i in idx || i == |us|;
  }

  lemma {:induction false} CredentialsMean(us: seq<AccessUser>) returns (idx: seq<nat>)
    ensures PicksCredentials(Credentials(us), us, idx)
  {
    idx := [];
    if us != [] {
      var (before, u) := (us[..|us| - 1], us[|us| - 1]);
      assert us == before + [u];
      assert Credentials(us) == if u.Valid() then Credentials(before) + [Credential(u)] else Credentials(before);
      idx := CredentialsMean(before);
      PickOneMore(Credentials(before), before, u, idx);
      hide Credentials, Credential, PicksCredentials;
      if u.Valid() { idx := idx + [|before|]; }
    }
  }

  predicate HasUsableUser(a: AccessList) { exists u :: u in a.users && u.username != "" && u.hash != "" }

  lemma UsableMeans(a: AccessList)
    ensures Credentials(a.users) != [] <==> HasUsableUser(a)
    ensures AreCredentials(Credentials(a.users), a.users)
  {
    var idx := CredentialsMean(a.users);
    if u :| u in a.users && u.username != "" && u.hash != "" {
      var i: nat :| i < |a.users| && a.users[i] == u;
      assert i in idx;
    }
    if idx != [] { assert idx[0] in idx && a.users[idx[0]] in a.users; }
  }

  predicate DistinctLists(acls: seq<AccessList>) { forall i, j :: 0 <= i < j < |acls| ==> acls[i].id != acls[j].id }

  lemma ListNamesDiffer(a: string, b: string)
    ensures AuthName(a) != IpName(b) && (AuthName(a) == AuthName(b) ==> a == b) && (IpName(a) == IpName(b) ==> a == b)
  {
    assert AuthName(a)[|AuthName(a)| - 1] == 'h' && IpName(b)[|IpName(b)| - 1] == 'p';
    assert AuthName(a)[4..|AuthName(a)| - 5] == a && AuthName(b)[4..|AuthName(b)| - 5] == b;
    assert IpName(a)[4..|IpName(a)| - 3] == a && IpName(b)[4..|IpName(b)| - 3] == b;
  }

  /** The pair of an access list: the credentials of its usable users, and its address ranges. */
  ghost predicate DefinesList(m: map<string, Middleware>, a: AccessList) {
    && (AuthName(a.id) in m <==> HasUsableUser(a))
    && (AuthName(a.id) in m ==> m[AuthName(a.id)].BasicAuth? && AreCredentials(m[AuthName(a.id)].users, a.users))
    && (IpName(a.id) in m <==> a.allowIps != []) && (IpName(a.id) in m ==> m[IpName(a.id)] == IpAllowList(a.allowIps))
  }

  lemma {:induction false} NotDefinedYet(acls: seq<AccessList>, id: string)
    requires forall a :: a in acls ==> a.id != id
    ensures AuthName(id) !in AccessListMiddlewares(acls) && IpName(id) !in AccessListMiddlewares(acls)
  {
    if acls != [] {
      var (before, last) := (acls[..|acls| - 1], acls[|acls| - 1]);
      NotDefinedYet(before, id);
      ListNamesDiffer(last.id, id);
      ListNamesDiffer(id, last.id);
      assert last in acls;
      hide AuthName, IpName, Credentials;
    }
  }

  // What one more list adds: its own pair, and nothing else changes.
  lemma OneMoreList(acls: seq<AccessList>, k: string)
    requires acls != []
    ensures var (before, a) := (acls[..|acls| - 1], acls[|acls| - 1]);
            var (m, m') := (AccessListMiddlewares(before), AccessListMiddlewares(acls));
            && (k !in {AuthName(a.id), IpName(a.id)} ==> SameAt(m', m, k))
            && (k !in m ==>
                  (k in m' <==>
                     (k == AuthName(a.id) && Credentials(a.users) != []) || (k == IpName(a.id) && a.allowIps != [])))
            && (Credentials(a.users) != [] ==>
                  AuthName(a.id) in m' && m'[AuthName(a.id)] == BasicAuth(Credentials(a.users)))
            && (a.allowIps != [] ==> IpName(a.id) in m' && m'[IpName(a.id)] == IpAllowList(a.allowIps))
  {
    ListNamesDiffer(acls[|acls| - 1].id, acls[|acls| - 1].id);
    hide AuthName, IpName, Credentials;
  }

  lemma {:induction false} ListsDefined(acls: seq<AccessList>, i: nat)
    requires i < |acls| && DistinctLists(acls)
    ensures DefinesList(AccessListMiddlewares(acls), acls[i])
  {
    var (before, last, a) := (acls[..|acls| - 1], acls[|acls| - 1], acls[i]);
    ListNamesDiffer(last.id, a.id);
    ListNamesDiffer(a.id, last.id);
    UsableMeans(last);
    OneMoreList(acls, AuthName(a.id));
    OneMoreList(acls, IpName(a.id));
    if i < |before| { ListsDefined(before, i); } else { NotDefinedYet(before, last.id); }
    hide AuthName, IpName, Credentials, HasUsableUser, AreCredentials, AccessListMiddlewares;
  }

  lemma {:induction false} UsersDefined(ms: seq<UserMiddleware>, id: string)
    ensures MwName(id) in UserMiddlewares(ms) <==> HasRow(ms, id)
    ensures MwName(id) in UserMiddlewares(ms) ==> UserMiddlewares(ms)[MwName(id)] == UserDefined(id)
  {
    if ms != [] {
      UsersDefined(ms[..|ms| - 1], id);
      UserNameIs(id, ms[|ms| - 1].id);
      assert forall m :: m in ms <==> m in ms[..|ms| - 1] || m == ms[|ms| - 1];
    }
  }

  /**
   In the whole output, whatever its hosts, each access list is defined as its users and ranges say,
   each user middleware by its own row, and the edge's token if an enabled feature needs it.
   */
  lemma SharedInOutput(inp: Inputs)
    requires DistinctLists(inp.accessLists)
    ensures var m := Rendered(inp).middlewares;
            && (forall a :: a in inp.accessLists ==> DefinesList(m, a))
            && (forall id :: HasRow(inp.middlewares, id) ==> MwName(id) in m && m[MwName(id)] == UserDefined(id))
            && (TOKEN_MW in m <==>
                  inp.cacheBackend != "" && inp.cacheToken != "" && (inp.cacheEnabled || inp.wafEnabled))
            && (TOKEN_MW in m ==> m[TOKEN_MW] == TokenHeader(inp.cacheToken))
  {
    forall a | a in inp.accessLists ensures DefinesList(Rendered(inp).middlewares, a) {
      var i :| 0 <= i < |inp.accessLists| && inp.accessLists[i] == a;
      ListsDefined(inp.accessLists, i);
      ListStays(inp, a);
    }
    forall id | HasRow(inp.middlewares, id)
      ensures MwName(id) in Rendered(inp).middlewares && Rendered(inp).middlewares[MwName(id)] == UserDefined(id)
    {
      UserStays(inp, id);
    }
    TokenStays(inp);
    hide Rendered, DefinesList, HasRow, MwName;
  }

  lemma ListStays(inp: Inputs, a: AccessList)
    requires DefinesList(AccessListMiddlewares(inp.accessLists), a)
    ensures DefinesList(Rendered(inp).middlewares, a)
  {
    assert AuthName(a.id)[0] == IpName(a.id)[0] == 'a' && DEFAULT_PATH[0] == BANNED_PATH[0] == 'x';
    SharedSame(inp, AuthName(a.id));
    SharedSame(inp, IpName(a.id));
    BaseSum(inp, AuthName(a.id));
    BaseSum(inp, IpName(a.id));
    hide Rendered, BaseParts, AccessListMiddlewares, AuthName, IpName, HasUsableUser, AreCredentials;
  }

  lemma UserStays(inp: Inputs, id: string)
    requires HasRow(inp.middlewares, id)
    ensures MwName(id) in Rendered(inp).middlewares && Rendered(inp).middlewares[MwName(id)] == UserDefined(id)
  {
    assert MwName(id)[0] == 'm' && DEFAULT_PATH[0] == BANNED_PATH[0] == 'x';
    SharedSame(inp, MwName(id));
    BaseSum(inp, MwName(id));
    UsersDefined(inp.middlewares, id);
    hide Rendered, BaseParts, UserMiddlewares, MwName, HasRow;
  }

  lemma TokenStays(inp: Inputs)
    ensures var m := Rendered(inp).middlewares;
            && (TOKEN_MW in m <==>
                  inp.cacheBackend != "" && inp.cacheToken != "" && (inp.cacheEnabled || inp.wafEnabled))
            && (TOKEN_MW in m ==> m[TOKEN_MW] == TokenHeader(inp.cacheToken))
  {
    assert TOKEN_MW[0] == 'x' && TOKEN_MW[7] == 'c' && DEFAULT_PATH[7] == 'd' && BANNED_PATH[7] == 'b';
    SharedSame(inp, TOKEN_MW);
    BaseSum(inp, TOKEN_MW);
    hide Rendered, BaseParts;
  }
}

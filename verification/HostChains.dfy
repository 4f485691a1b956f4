/** What the routers of a host carry besides access lists. */
module HostChains {
  import opened Hosts
  import opened RenderSpec
  import opened RenderClosure
  import opened RenderGating
  import opened HostRouters
  import opened RenderOutput
  import Ordering

  // Its own middlewares, in order, in the whole output.

  // ---------------------------------------------------------------- what the host asks for

  /** Places of a list of length `n`, in order. */
  predicate Picks(idx: seq<nat>, n: nat) {
    (forall j :: 0 <= j < |idx| ==> idx[j] < n) && forall j, k :: 0 <= j < k < |idx| ==> idx[j] < idx[k]
  }

  /** Some row of the table has the id. */
  predicate HasRow(ms: seq<UserMiddleware>, id: string) { exists m :: m in ms && m.id == id }

  /** The names of the attached middlewares that have a row, each at its place of the order of `ids`. */
  ghost predicate IsUserPart(users: seq<string>, ids: seq<string>, ms: seq<UserMiddleware>) {
    exists idx: seq<nat> :: PicksUsers(users, ids, ms, idx)
  }

  ghost predicate PicksUsers(users: seq<string>, ids: seq<string>, ms: seq<UserMiddleware>, idx: seq<nat>) {
    && Picks(idx, |ids|) && |users| == |idx|
    && (forall j :: 0 <= j < |idx| ==> users[j] == "mw-" + ids[idx[j]])
    && (forall i: nat :: i < |ids| ==> (i in idx <==> HasRow(ms, ids[i])))
  }

  lemma {:induction false} RowFound(ms: seq<UserMiddleware>, id: string)
    ensures MiddlewareById(ms, id).Some? <==> HasRow(ms, id)
    ensures MiddlewareById(ms, id).Some? ==> MiddlewareById(ms, id).value.id == id
  {
    if ms != [] {
      RowFound(ms[..|ms| - 1], id);
      assert forall m :: m in ms <==> m in ms[..|ms| - 1] || m == ms[|ms| - 1];
    }
  }

  lemma {:induction false} UserNamesMean(ids: seq<string>, ms: seq<UserMiddleware>) returns (idx: seq<nat>)
    ensures PicksUsers(UserNames(ids, ms), ids, ms, idx)
  {
    idx := [];
    if ids != [] {
      var (before, id) := (ids[..|ids| - 1], ids[|ids| - 1]);
      idx := UserNamesMean(before, ms);
      RowFound(ms, id);
      hide HasRow;
      if HasRow(ms, id) { idx := idx + [|before|]; }
    }
  }

  /** The host has a custom page for some status, and there is a service to get it from. */
  predicate WantsErrorPages(h: Host, inp: Inputs) {
    inp.contentBackend != "" && exists s :: s in h.errorStatuses && s != ""
  }

  lemma {:induction false} NonEmptyMeans(ss: seq<string>) returns (idx: seq<nat>)
    ensures Picks(idx, |ss|) && |NonEmpty(ss)| == |idx|
    ensures forall j :: 0 <= j < |idx| ==> NonEmpty(ss)[j] == ss[idx[j]]
    ensures forall i: nat :: i < |ss| ==> (i in idx <==> ss[i] != "")
  {
    idx := [];
    if ss != [] {
      idx := NonEmptyMeans(ss[..|ss| - 1]);
      if ss[|ss| - 1] != "" { idx := idx + [|ss| - 1]; }
    }
  }

  lemma ErrorPagesMean(h: Host, inp: Inputs)
    ensures HasErrorPages(h, inp.contentBackend) <==> WantsErrorPages(h, inp)
  {
    var idx := NonEmptyMeans(h.errorStatuses);
    if s :| s in h.errorStatuses && s != "" {
      var i: nat :| i < |h.errorStatuses| && h.errorStatuses[i] == s;
      assert i in idx;
    }
    if idx != [] { assert idx[0] in idx && h.errorStatuses[idx[0]] in h.errorStatuses; }
  }

  /** Generated middlewares first, then the user's: each exactly if the host's own fields ask for it. */
  ghost predicate IsOwnPart(own: seq<string>, h: Host, inp: Inputs, errors: bool) {
    exists users :: IsUserPart(users, h.middlewareIds, inp.middlewares)
      && own == (if h.hsts then [HstsName(h.id)] else [])
              + (if h.corsEnabled && h.corsAllowOrigins != [] then [CorsName(h.id)] else [])
              + users + (if errors && WantsErrorPages(h, inp) then [ErrorsName(h.id)] else [])
  }

  /** One name for each middleware of the host's raw fragment, sorted. */
  ghost predicate IsRawPart(raws: seq<string>, h: Host) {
    var names := if h.raw.Some? then h.raw.value.middlewares else [];
    && |raws| == |names| && (forall x :: x in raws <==> exists n :: n in names && x == RawName(h.id, n))
    && forall i, j :: 0 <= i < j < |raws| ==> Ordering.StrLe(raws[i], raws[j])
  }

  /** Names of access lists, then the host's own part, then the raw one, then `extra`. */
  ghost predicate Carries(mws: seq<string>, h: Host, inp: Inputs, extra: seq<string>) {
    exists lists, own, raws :: mws == lists + own + raws + extra && AreParts(lists, own, raws, h, inp)
  }

  ghost predicate AreParts(lists: seq<string>, own: seq<string>, raws: seq<string>, h: Host, inp: Inputs) {
    && (forall n :: n in lists ==> "acl-" <= n)
    && IsOwnPart(own, h, inp, true) && IsRawPart(raws, h)
  }

  // ---------------------------------------------------------------- the chains have it

  lemma CollectedMean(h: Host, inp: Inputs)
    ensures IsOwnPart(CollectedNames(h, inp.middlewares)
                      + (if HasErrorPages(h, inp.contentBackend) then [ErrorsName(h.id)] else []), h, inp, true)
    ensures IsOwnPart(CollectedNames(h, inp.middlewares), h, inp, false)
  {
    var idx := UserNamesMean(h.middlewareIds, inp.middlewares);
    var users := UserNames(h.middlewareIds, inp.middlewares);
    assert IsUserPart(users, h.middlewareIds, inp.middlewares);
    ErrorPagesMean(h, inp);
    hide IsUserPart, WantsErrorPages, HasErrorPages, UserNames, HstsName, CorsName, ErrorsName;
    assert CollectedNames(h, inp.middlewares) + [] == CollectedNames(h, inp.middlewares);
  }

  lemma {:induction false} RawNamesMean(id: string, names: seq<string>)
    ensures |RawNames(id, names)| == |names|
    ensures forall x :: x in RawNames(id, names) <==> exists n :: n in names && x == RawName(id, n)
  {
    if names != [] {
      var (before, last) := (names[..|names| - 1], names[|names| - 1]);
      RawNamesMean(id, before);
      hide RawName;
      assert forall n :: n in names <==> n in before || n == last;
    }
  }

  lemma RawPartMeans(h: Host)
    ensures IsRawPart(Ordering.Sort(RawNames(h.id, FragmentOf(h).middlewares)), h)
  {
    var raws := RawNames(h.id, FragmentOf(h).middlewares);
    RawNamesMean(h.id, FragmentOf(h).middlewares);
    Ordering.SortSorted(raws);
    SortMembers(raws);
    assert |Ordering.Sort(raws)| == |multiset(Ordering.Sort(raws))| == |multiset(raws)|;
  }

  lemma {:induction false} ListNames(ids: seq<string>, acls: seq<AccessList>)
    ensures forall n :: n in AccessListNames(ids, acls) ==> "acl-" <= n
  {
    if ids != [] { ListNames(ids[..|ids| - 1], acls); }
  }

  // The base chain has all three parts.
  lemma BaseHasParts(h: Host, inp: Inputs) returns (lists: seq<string>, own: seq<string>, raws: seq<string>)
    ensures AreParts(lists, own, raws, h, inp) && BaseChain(h, inp) == lists + own + raws
    ensures raws == Ordering.Sort(RawNames(h.id, FragmentOf(h).middlewares))
  {
    lists := AccessListNames(h.accessListIds, inp.accessLists);
    own := CollectedNames(h, inp.middlewares) + if HasErrorPages(h, inp.contentBackend) then [ErrorsName(h.id)] else [];
    raws := Ordering.Sort(RawNames(h.id, FragmentOf(h).middlewares));
    ListNames(h.accessListIds, inp.accessLists);
    CollectedMean(h, inp);
    RawPartMeans(h);
    hide AccessListNames, CollectedNames, HasErrorPages, RawNames, IsOwnPart, IsRawPart, ErrorsName;
  }

  predicate NoList(names: seq<string>) { forall n :: n in names ==> !("acl-" <= n) }

  lemma UsersAreNoLists(users: seq<string>, ids: seq<string>, ms: seq<UserMiddleware>)
    requires IsUserPart(users, ids, ms)
    ensures NoList(users)
  {
    var idx :| PicksUsers(users, ids, ms, idx);
    forall n | n in users ensures !("acl-" <= n) {
      var j :| 0 <= j < |users| && users[j] == n;
      assert n[0] == ("mw-" + ids[idx[j]])[0] == 'm';
    }
  }

  lemma GeneratedAreNoLists(id: string)
    ensures NoList([HstsName(id)]) && NoList([CorsName(id)]) && NoList([ErrorsName(id)])
  {
    assert HstsName(id)[0] == 'h' && CorsName(id)[0] == 'h' && ErrorsName(id)[0] == 'h';
  }

  lemma NoListPlus(a: seq<string>, b: seq<string>)
    requires NoList(a) && NoList(b)
    ensures NoList(a + b)
  {}

  lemma OwnIsNoList(own: seq<string>, h: Host, inp: Inputs, errors: bool)
    requires IsOwnPart(own, h, inp, errors)
    ensures NoList(own)
  {
    GeneratedAreNoLists(h.id);
    hide NoList, HstsName, CorsName, ErrorsName, IsUserPart, WantsErrorPages;
    assert NoList([]) by { NothingIsNoList(); }
    var users :| IsUserPart(users, h.middlewareIds, inp.middlewares)
      && own == (if h.hsts then [HstsName(h.id)] else [])
              + (if h.corsEnabled && h.corsAllowOrigins != [] then [CorsName(h.id)] else [])
              + users + (if errors && WantsErrorPages(h, inp) then [ErrorsName(h.id)] else []);
    UsersAreNoLists(users, h.middlewareIds, inp.middlewares);
    var hsts := if h.hsts then [HstsName(h.id)] else [];
    var cors := if h.corsEnabled && h.corsAllowOrigins != [] then [CorsName(h.id)] else [];
    NoListPlus(hsts, cors);
    NoListPlus(hsts + cors, users);
    NoListPlus(hsts + cors + users, if errors && WantsErrorPages(h, inp) then [ErrorsName(h.id)] else []);
  }

  lemma NothingIsNoList()
    ensures NoList([])
  {}

  lemma RawsAreNoLists(h: Host)
    ensures NoList(Ordering.Sort(RawNames(h.id, FragmentOf(h).middlewares)))
  {
    var raws := RawNames(h.id, FragmentOf(h).middlewares);
    SortMembers(raws);
    RawsBegin(h.id, FragmentOf(h).middlewares);
  }

  lemma {:induction false} RawsBegin(id: string, names: seq<string>)
    ensures NoList(RawNames(id, names))
  {
    if names != [] {
      RawsBegin(id, names[..|names| - 1]);
      assert RawName(id, names[|names| - 1])[0] == 'h';
    }
  }

  // ---------------------------------------------------------------- what the bypass leaves

  lemma {:induction false} WithoutPlus(a: seq<string>, b: seq<string>, drop: set<string>)
    ensures Without(a + b, drop) == Without(a, drop) + Without(b, drop)
  {
    if b == [] {
      assert a + b == a;
    } else {
      assert (a + b)[..|a + b| - 1] == a + b[..|b| - 1];
      WithoutPlus(a, b[..|b| - 1], drop);
    }
  }

  lemma {:induction false} WithoutNothing(a: seq<string>, drop: set<string>)
    requires forall n :: n in a ==> n !in drop
    ensures Without(a, drop) == a
  {
    if a != [] {
      WithoutNothing(a[..|a| - 1], drop);
      assert a == a[..|a| - 1] + [a[|a| - 1]];
    }
  }

  lemma OnlyListsAreDropped(ids: seq<string>, acls: seq<AccessList>, n: string)
    ensures n in Dropped(ids, acls) ==> "acl-" <= n
  {
    DroppedMeans(ids, acls, n);
    hide Dropped;
    forall id ensures "acl-" <= AuthName(id) && "acl-" <= IpName(id) {}
  }

  lemma NotDropped(names: seq<string>, ids: seq<string>, acls: seq<AccessList>)
    requires NoList(names)
    ensures Without(names, Dropped(ids, acls)) == names
  {
    forall n | n in names ensures n !in Dropped(ids, acls) { OnlyListsAreDropped(ids, acls, n); }
    WithoutNothing(names, Dropped(ids, acls));
  }

  lemma TokenIsNoList()
    ensures NoList([TOKEN_MW])
  {
    assert TOKEN_MW[0] == 'x';
  }

  lemma FewerLists(lists: seq<string>, own: seq<string>, raws: seq<string>, h: Host, inp: Inputs, drop: set<string>)
    requires AreParts(lists, own, raws, h, inp)
    ensures AreParts(Without(lists, drop), own, raws, h, inp)
  {
    hide IsOwnPart, IsRawPart;
  }

  lemma KeptHasParts(h: Host, inp: Inputs, rest: seq<string>)
    requires Chain(h, inp) == BaseChain(h, inp) + rest && NoList(rest)
    ensures Carries(Kept(h, inp), h, inp, rest)
  {
    var lists, own, raws := BaseHasParts(h, inp);
    var (ids, acls) := (h.accessListIds, inp.accessLists);
    var drop := Dropped(ids, acls);
    OwnIsNoList(own, h, inp, true);
    RawsAreNoLists(h);
    hide BaseChain, Chain, Dropped, Without, AreParts, NoList;
    WithoutPlus(lists + own + raws, rest, drop);
    WithoutPlus(lists + own, raws, drop);
    WithoutPlus(lists, own, drop);
    NotDropped(own, ids, acls);
    NotDropped(raws, ids, acls);
    NotDropped(rest, ids, acls);
    FewerLists(lists, own, raws, h, inp, drop);
    assert Kept(h, inp) == Without(lists, drop) + own + raws + rest;
  }

  // ---------------------------------------------------------------- the whole output

  /** The edge answers for the host and wants its token. */
  predicate NeedsToken(h: Host, inp: Inputs) {
    inp.cacheBackend != "" && inp.cacheToken != "" && ((h.waf && inp.wafEnabled) || (h.cache && inp.cacheEnabled))
  }

  /** What a router of each kind carries after the rest. */
  function Extra(h: Host, inp: Inputs, kind: RouterKind): seq<string> {
    var token := if NeedsToken(h, inp) then [TOKEN_MW] else [];
    match kind
    case IsStatic => token + [CacheName(h.id)]
    case IsLocation(i) => if i < |h.locations| && h.locations[i].stripPrefix then [StripName(h.id, i)] else []
    case _ => token
  }

  lemma ChainHasParts(h: Host, inp: Inputs, rest: seq<string>)
    ensures Carries(BaseChain(h, inp) + rest, h, inp, rest)
  {
    var lists, own, raws := BaseHasParts(h, inp);
    hide BaseChain, AreParts;
  }

  lemma KindCarries(h: Host, inp: Inputs, k: string, r: Router, kind: RouterKind)
    requires IsKind(h, inp, k, r, kind)
    ensures if kind.IsPlain? then r.middlewares == [RedirectName(h.id)]
            else Carries(r.middlewares, h, inp, Extra(h, inp, kind))
  {
    var token := if NeedsToken(h, inp) then [TOKEN_MW] else [];
    assert Chain(h, inp) == BaseChain(h, inp) + token;
    TokenIsNoList();
    assert NoList(token);
    hide BaseChain, Chain, Kept, Carries, Entry, ClientIps, BypassIps, RouterName, CacheName, StripName, NoList;
    ChainHasParts(h, inp, Extra(h, inp, kind));
    if kind.IsTrusted? { KeptHasParts(h, inp, token); }
    assert BaseChain(h, inp) + token + [CacheName(h.id)] == BaseChain(h, inp) + (token + [CacheName(h.id)]);
  }

  /**
   In the whole output, every router under the names of an enabled proxy host carries the names of
   access lists, the host's own middlewares, those of its raw fragment, and what its kind needs,
   in this order; only the redirect to HTTPS carries just its own.
   */
  lemma RouterCarriesOwn(inp: Inputs, i: nat, k: string) returns (kind: RouterKind)
    requires i < |inp.hosts| && IdsPrefixFree(inp.hosts) && inp.hosts[i].enabled && inp.hosts[i].kind == Proxy
    requires k in Rendered(inp).routers && RouterName(inp.hosts[i].id) <= k
    ensures IsKind(inp.hosts[i], inp, k, Rendered(inp).routers[k], kind)
    ensures if kind.IsPlain? then Rendered(inp).routers[k].middlewares == [RedirectName(inp.hosts[i].id)]
            else Carries(Rendered(inp).routers[k].middlewares, inp.hosts[i], inp, Extra(inp.hosts[i], inp, kind))
  {
    var h := inp.hosts[i];
    RoutersOfHost(inp, i, k);
    hide Rendered, RouterName, IsKind, Carries, ProxyParts;
    assert k in ProxyParts(h, inp).routers && Rendered(inp).routers[k] == ProxyParts(h, inp).routers[k];
    kind := KindOf(h, inp, k);
    KindCarries(h, inp, k, Rendered(inp).routers[k], kind);
  }

  /**
   In the whole output, the router of an enabled redirection host carries the redirect and then the
   host's own part, without error pages.
   */
  lemma RedirectionCarriesOwn(inp: Inputs, i: nat) returns (own: seq<string>)
    requires i < |inp.hosts| && IdsPrefixFree(inp.hosts) && inp.hosts[i].enabled && inp.hosts[i].kind == Redirection
    ensures var (h, name) := (inp.hosts[i], RouterName(inp.hosts[i].id));
            && name in Rendered(inp).routers && IsOwnPart(own, h, inp, false)
            && Rendered(inp).routers[name].middlewares == [name + "-redirect"] + own
  {
    var h := inp.hosts[i];
    var name := RouterName(h.id);
    own := CollectedNames(h, inp.middlewares);
    CollectedMean(h, inp);
    RedirectionRouter(h, inp);
    RoutersOfHost(inp, i, name);
    hide Rendered, RedirectionParts, IsOwnPart, CollectedNames, RouterName, HasErrorPages;
  }

  lemma RedirectionRouter(h: Host, inp: Inputs)
    ensures RouterName(h.id) in RedirectionParts(h, inp).routers
    ensures RedirectionParts(h, inp).routers[RouterName(h.id)].middlewares
         == [RouterName(h.id) + "-redirect"] + CollectedNames(h, inp.middlewares)
  {
    hide CollectedNames, CollectedMiddlewares, TrimRightSlashes, RouterName;
  }

  // ---------------------------------------------------------------- each name exactly if it is wanted

  /** The name is that of a generated or a user's middleware. */
  predicate IsOwnName(h: Host, n: string) { n in {HstsName(h.id), CorsName(h.id), ErrorsName(h.id)} || "mw-" <= n }

  // The letters that tell the names of a host apart: the first, and the two after the host's prefix.
  predicate HasLetters(h: Host, n: string, a: char, b: char) {
    var p := |RouterName(h.id)|; |n| > p + 2 && n[0] == 'h' && n[p + 1] == a && n[p + 2] == b
  }

  lemma OwnLetters(h: Host, n: string)
    requires IsOwnName(h, n)
    ensures n[0] == 'm' || HasLetters(h, n, 'h', 's') || HasLetters(h, n, 'c', 'o') || HasLetters(h, n, 'e', 'r')
  {
    var p := |RouterName(h.id)|;
    assert HstsName(h.id)[p..] == "-hsts" && CorsName(h.id)[p..] == "-cors" && ErrorsName(h.id)[p..] == "-errors";
  }

  lemma ListIsNotOwn(h: Host, n: string)
    requires "acl-" <= n
    ensures !IsOwnName(h, n)
  {
    assert n[0] == 'a';
    if IsOwnName(h, n) { OwnLetters(h, n); }
  }

  lemma RawIsNotOwn(h: Host, name: string)
    ensures !IsOwnName(h, RawName(h.id, name))
  {
    var n := RawName(h.id, name);
    assert n[|RouterName(h.id)|..] == "-raw-" + name;
    assert HasLetters(h, n, 'r', 'a');
    hide RawName;
    if IsOwnName(h, n) { OwnLetters(h, n); }
  }

  lemma ExtraIsNotOwn(h: Host, inp: Inputs, kind: RouterKind, n: string)
    requires n in Extra(h, inp, kind)
    ensures !IsOwnName(h, n)
  {
    var p := |RouterName(h.id)|;
    assert TOKEN_MW[0] == 'x';
    assert CacheName(h.id)[p..] == "-cache" && HasLetters(h, CacheName(h.id), 'c', 'a');
    if kind.IsLocation? {
      assert StripName(h.id, kind.i)[p..] == "-loc" + Itoa(kind.i) + "-strip";
      assert HasLetters(h, StripName(h.id, kind.i), 'l', 'o');
    }
    hide RouterName, CacheName, StripName;
    if IsOwnName(h, n) { OwnLetters(h, n); }
  }

  /** What the own part holds: each generated name exactly if the fields ask for it, and the user's own. */
  ghost predicate HoldsOwn(names: seq<string>, h: Host, inp: Inputs, errors: bool) {
    && (HstsName(h.id) in names <==> h.hsts)
    && (CorsName(h.id) in names <==> h.corsEnabled && h.corsAllowOrigins != [])
    && (ErrorsName(h.id) in names <==> errors && WantsErrorPages(h, inp))
    && forall id :: "mw-" + id in names <==> id in h.middlewareIds && HasRow(inp.middlewares, id)
  }

  lemma UsersAre(users: seq<string>, ids: seq<string>, ms: seq<UserMiddleware>, n: string)
    requires IsUserPart(users, ids, ms)
    ensures n in users <==> exists id :: n == "mw-" + id && id in ids && HasRow(ms, id)
  {
    var idx :| PicksUsers(users, ids, ms, idx);
    hide HasRow;
    if n in users {
      var j :| 0 <= j < |users| && users[j] == n;
      assert idx[j] in idx && ids[idx[j]] in ids;
    }
    if id :| n == "mw-" + id && id in ids && HasRow(ms, id) {
      var i: nat :| i < |ids| && ids[i] == id;
      var j :| 0 <= j < |idx| && idx[j] == i;
      assert users[j] == n;
    }
  }

  lemma UserNameIs(a: string, b: string)
    ensures "mw-" + a == "mw-" + b ==> a == b
  {
    assert ("mw-" + a)[3..] == a && ("mw-" + b)[3..] == b;
  }

  lemma OwnPartHolds(own: seq<string>, h: Host, inp: Inputs, errors: bool)
    requires IsOwnPart(own, h, inp, errors)
    ensures HoldsOwn(own, h, inp, errors)
  {
    var (a, b, c) := (HstsName(h.id), CorsName(h.id), ErrorsName(h.id));
    OwnLetters(h, a);
    OwnLetters(h, b);
    OwnLetters(h, c);
    assert a[0] == b[0] == c[0] == 'h';
    OwnNamesDiffer(h);
    hide HstsName, CorsName, ErrorsName, IsUserPart, HasRow, WantsErrorPages;
    var users :| IsUserPart(users, h.middlewareIds, inp.middlewares)
      && own == (if h.hsts then [a] else []) + (if h.corsEnabled && h.corsAllowOrigins != [] then [b] else [])
              + users + (if errors && WantsErrorPages(h, inp) then [c] else []);
    forall n
      ensures n in users <==> exists id :: n == "mw-" + id && id in h.middlewareIds && HasRow(inp.middlewares, id)
    {
      UsersAre(users, h.middlewareIds, inp.middlewares, n);
    }
    forall id ensures "mw-" + id in own <==> id in h.middlewareIds && HasRow(inp.middlewares, id) {
      assert ("mw-" + id)[0] == 'm';
      forall other ensures "mw-" + id == "mw-" + other ==> id == other { UserNameIs(id, other); }
    }
  }

  lemma OwnNamesDiffer(h: Host)
    ensures HstsName(h.id) != CorsName(h.id) && HstsName(h.id) != ErrorsName(h.id) && CorsName(h.id) != ErrorsName(h.id)
  {
    var p := |RouterName(h.id)|;
    assert HstsName(h.id)[p..] == "-hsts" && CorsName(h.id)[p..] == "-cors" && ErrorsName(h.id)[p..] == "-errors";
  }

  /**
   In the whole output, every router of an enabled proxy host but the redirect to HTTPS carries each
   middleware exactly if the host asks for it: HSTS, CORS, error pages, and the attached middlewares
   that have a row.
   */
  lemma EachIfWanted(inp: Inputs, i: nat, k: string)
    requires i < |inp.hosts| && IdsPrefixFree(inp.hosts) && inp.hosts[i].enabled && inp.hosts[i].kind == Proxy
    requires k in Rendered(inp).routers && RouterName(inp.hosts[i].id) <= k
    requires !OnlyRedirects(inp.hosts[i], Rendered(inp).routers[k])
    ensures HoldsOwn(Rendered(inp).routers[k].middlewares, inp.hosts[i], inp, true)
  {
    var (h, mws) := (inp.hosts[i], Rendered(inp).routers[k].middlewares);
    var kind := RouterCarriesOwn(inp, i, k);
    hide Rendered, IsKind, RouterName, Extra, Carries, HoldsOwn;
    CarriedIsHeld(mws, h, inp, kind);
  }

  lemma CarriedIsHeld(mws: seq<string>, h: Host, inp: Inputs, kind: RouterKind)
    requires Carries(mws, h, inp, Extra(h, inp, kind))
    ensures HoldsOwn(mws, h, inp, true)
  {
    hide Extra, HoldsOwn, IsOwnName, IsOwnPart;
    var lists, own, raws :| mws == lists + own + raws + Extra(h, inp, kind) && AreParts(lists, own, raws, h, inp);
    OwnPartHolds(own, h, inp, true);
    forall n | IsOwnName(h, n) ensures n in mws <==> n in own {
      if n in lists { ListIsNotOwn(h, n); }
      if n in raws {
        var name :| RawName(h.id, name) == n;
        RawIsNotOwn(h, name);
      }
      if n in Extra(h, inp, kind) { ExtraIsNotOwn(h, inp, kind, n); }
    }
    SameOwnNames(mws, own, h, inp);
  }

  lemma SameOwnNames(a: seq<string>, b: seq<string>, h: Host, inp: Inputs)
    requires (forall n :: IsOwnName(h, n) ==> (n in a <==> n in b)) && HoldsOwn(b, h, inp, true)
    ensures HoldsOwn(a, h, inp, true)
  {
    hide HstsName, CorsName, ErrorsName, HasRow, WantsErrorPages;
    forall id ensures IsOwnName(h, "mw-" + id) {}
  }
}

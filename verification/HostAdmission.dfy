/** Who gets through the access lists of a proxy host. */
module HostAdmission {
  import opened Options
  import opened Hosts
  import opened HostRule
  import opened RenderSpec
  import opened RenderClosure
  import opened RenderGating
  import opened RouterRules
  import opened HostRouters
  import opened HostRouting

  /** The visitor is in a range of the list, as its address middleware checks it. */
  predicate InList(a: AccessList, v: Visit) { exists i :: 0 <= i < |a.allowIps| && v.inRange(a.allowIps[i]) }

  /** Both conditions of a list that are set: an address of the list, credentials of the list. */
  predicate MeetsBoth(a: AccessList, v: Visit, creds: string -> bool) {
    (a.allowIps != [] ==> InList(a, v)) && (a.users != [] ==> creds(a.id))
  }

  /** The middlewares of a router let the visitor through, as far as the list is concerned. */
  predicate Passes(a: AccessList, mws: seq<string>, v: Visit, creds: string -> bool) {
    && (a.allowIps != [] && IpName(a.id) in mws ==> InList(a, v))
    && (a.users != [] && AuthName(a.id) in mws ==> creds(a.id))
  }

  ghost predicate PassesAll(h: Host, inp: Inputs, mws: seq<string>, v: Visit, creds: string -> bool) {
    forall id :: id in h.accessListIds && AccessListById(inp.accessLists, id).Some? ==>
      Passes(AccessListById(inp.accessLists, id).value, mws, v, creds)
  }

  /** What the lists of a host ask of a visitor: all of them, but for satisfy-any lists when `trusted`. */
  ghost predicate MeetsLists(h: Host, inp: Inputs, v: Visit, creds: string -> bool, trusted: bool) {
    forall id :: id in h.accessListIds && AccessListById(inp.accessLists, id).Some? ==>
      var a := AccessListById(inp.accessLists, id).value;
      (trusted && SatisfiesAny(a)) || MeetsBoth(a, v, creds)
  }

  lemma {:induction false} IpIsNamed(ids: seq<string>, acls: seq<AccessList>, id: string)
    requires id in ids && AccessListById(acls, id).Some? && AccessListById(acls, id).value.allowIps != []
    ensures IpName(id) in AccessListNames(ids, acls)
  {
    if ids[|ids| - 1] != id { IpIsNamed(ids[..|ids| - 1], acls, id); }
  }

  lemma FullChainAsksAll(h: Host, inp: Inputs, mws: seq<string>, v: Visit, creds: string -> bool)
    requires BaseChain(h, inp) <= mws
    ensures PassesAll(h, inp, mws, v, creds) <==> MeetsLists(h, inp, v, creds, false)
  {
    forall id | id in h.accessListIds && AccessListById(inp.accessLists, id).Some?
      ensures Passes(AccessListById(inp.accessLists, id).value, mws, v, creds)
         <==> MeetsBoth(AccessListById(inp.accessLists, id).value, v, creds)
    {
      var a := AccessListById(inp.accessLists, id).value;
      if a.users != [] {
        AuthIsNamed(h.accessListIds, inp.accessLists, id);
        AuthInChains(h, inp, AuthName(id));
        InPrefix(AuthName(id), BaseChain(h, inp), mws);
      }
      if a.allowIps != [] {
        IpIsNamed(h.accessListIds, inp.accessLists, id);
        AuthInChains(h, inp, IpName(id));
        InPrefix(IpName(id), BaseChain(h, inp), mws);
      }
    }
    hide BaseChain, Passes, MeetsBoth;
  }

  lemma KeptAsksRest(h: Host, inp: Inputs, v: Visit, creds: string -> bool)
    ensures PassesAll(h, inp, Kept(h, inp), v, creds) <==> MeetsLists(h, inp, v, creds, true)
  {
    forall id | id in h.accessListIds && AccessListById(inp.accessLists, id).Some?
      ensures var a := AccessListById(inp.accessLists, id).value;
              Passes(a, Kept(h, inp), v, creds) <==> SatisfiesAny(a) || MeetsBoth(a, v, creds)
    {
      KeptAsksOne(h, inp, id, v, creds);
    }
    hide Kept, Passes, MeetsBoth, SatisfiesAny;
  }

  lemma KeptAsksOne(h: Host, inp: Inputs, id: string, v: Visit, creds: string -> bool)
    requires id in h.accessListIds && AccessListById(inp.accessLists, id).Some?
    ensures var a := AccessListById(inp.accessLists, id).value;
            Passes(a, Kept(h, inp), v, creds) <==> SatisfiesAny(a) || MeetsBoth(a, v, creds)
  {
    var a := AccessListById(inp.accessLists, id).value;
    if a.users != [] { BypassSkipsExactly(h, inp, id); }
    if a.allowIps != [] { BypassSkipsRanges(h, inp, id); }
    hide Kept, AuthName, IpName, InList;
  }

  lemma BypassSkipsRanges(h: Host, inp: Inputs, id: string)
    requires id in h.accessListIds && AccessListById(inp.accessLists, id).Some?
    requires AccessListById(inp.accessLists, id).value.allowIps != []
    ensures IpName(id) in Kept(h, inp) <==> !SatisfiesAny(AccessListById(inp.accessLists, id).value)
  {
    IpIsNamed(h.accessListIds, inp.accessLists, id);
    DroppedMeans(h.accessListIds, inp.accessLists, IpName(id));
    AuthInChains(h, inp, IpName(id));
    forall other | IpName(id) in {AuthName(other), IpName(other)} ensures other == id { IpNameIs(id, other); }
    hide AuthName, IpName, SatisfiesAny, AccessListNames, Chain, BaseChain, Dropped;
  }

  lemma IpNameIs(id: string, other: string)
    requires IpName(id) == AuthName(other) || IpName(id) == IpName(other)
    ensures other == id
  {
    assert IpName(id)[|IpName(id)| - 1] == 'p' && AuthName(other)[|AuthName(other)| - 1] == 'h';
    assert IpName(id)[4..|IpName(id)| - 3] == id && IpName(other)[4..|IpName(other)| - 3] == other;
  }

  /**
   What a router of the host asks of a visitor that it serves, the redirect to HTTPS aside: both
   conditions of every attached list; on the trusted router, of those that are not satisfy-any.
   */
  lemma Admission(h: Host, inp: Inputs, v: Visit, creds: string -> bool)
    ensures forall k :: k in Routers(h, inp) && !OnlyRedirects(h, Routers(h, inp)[k]) ==>
              (PassesAll(h, inp, Routers(h, inp)[k].middlewares, v, creds)
               <==> MeetsLists(h, inp, v, creds, k == TrustedName(h.id)))
  {
    KnownChains(h, inp);
    hide ProxyParts, BaseChain, Chain, Kept, TrustedName, ServiceName, PassesAll, MeetsLists, OnlyRedirects;
    forall k | k in Routers(h, inp) && !OnlyRedirects(h, Routers(h, inp)[k])
      ensures PassesAll(h, inp, Routers(h, inp)[k].middlewares, v, creds)
         <==> MeetsLists(h, inp, v, creds, k == TrustedName(h.id))
    {
      assert HasKnownChain(h, inp, k, Routers(h, inp)[k]);
      ChainAdmits(h, inp, v, creds, k, Routers(h, inp)[k]);
    }
  }

  lemma ChainAdmits(h: Host, inp: Inputs, v: Visit, creds: string -> bool, k: string, r: Router)
    requires HasKnownChain(h, inp, k, r) && !OnlyRedirects(h, r)
    ensures PassesAll(h, inp, r.middlewares, v, creds) <==> MeetsLists(h, inp, v, creds, k == TrustedName(h.id))
  {
    hide BaseChain, Chain, Kept, TrustedName, ServiceName, PassesAll, MeetsLists, OnlyRedirects;
    if k == TrustedName(h.id) {
      KeptAsksRest(h, inp, v, creds);
    } else {
      ChainHasBase(h, inp, r.middlewares);
      FullChainAsksAll(h, inp, r.middlewares, v, creds);
    }
  }

  lemma ChainHasBase(h: Host, inp: Inputs, mws: seq<string>)
    ensures Chain(h, inp) <= mws ==> BaseChain(h, inp) <= mws
  {
    hide BaseChain;
    if Chain(h, inp) <= mws { assert mws[..|Chain(h, inp)|] == Chain(h, inp); }
  }

  /**
   The page for access lists promises of satisfy-any lists that a trusted address or valid
   credentials are enough. Credentials never are: a visitor from an untrusted address is refused
   by every router, because the other routers ask for both.
   */
  lemma SatisfyAnyRefusesCredentials(h: Host, inp: Inputs, v: Visit, creds: string -> bool, id: string)
    requires v.entry == Entry(h, inp) && !Bypasses(h, inp, v)
    requires id in h.accessListIds && AccessListById(inp.accessLists, id).Some?
    requires var a := AccessListById(inp.accessLists, id).value;
             SatisfiesAny(a) && forall ip :: ip in a.allowIps ==> BACKTICK !in ip
    ensures forall k ::
              k in Routers(h, inp) && Takes(h, Routers(h, inp)[k], v) && !OnlyRedirects(h, Routers(h, inp)[k]) ==>
              !PassesAll(h, inp, Routers(h, inp)[k].middlewares, v, creds)
  {
    Admission(h, inp, v, creds);
    RangesBypass(h.accessListIds, inp.accessLists, id, v);
    NotBoth(h, inp, v, creds, id);
    hide Routers, Takes, PassesAll, OnlyRedirects, BypassIps, MeetsLists, TrustedName;
    forall k | k in Routers(h, inp) && Takes(h, Routers(h, inp)[k], v) && !OnlyRedirects(h, Routers(h, inp)[k])
      ensures !PassesAll(h, inp, Routers(h, inp)[k].middlewares, v, creds)
    {
      TrustedTakesNone(h, inp, v, k);
    }
  }

  lemma NotBoth(h: Host, inp: Inputs, v: Visit, creds: string -> bool, id: string)
    requires id in h.accessListIds && AccessListById(inp.accessLists, id).Some?
    requires var a := AccessListById(inp.accessLists, id).value; SatisfiesAny(a) && !InList(a, v)
    ensures !MeetsLists(h, inp, v, creds, false)
  {
    assert !MeetsBoth(AccessListById(inp.accessLists, id).value, v, creds);
  }

  lemma TrustedTakesNone(h: Host, inp: Inputs, v: Visit, k: string)
    requires v.entry == Entry(h, inp) && k in Routers(h, inp) && Takes(h, Routers(h, inp)[k], v) && !Bypasses(h, inp, v)
    ensures k != TrustedName(h.id)
  {
    var kind := TakerOf(h, inp, v, k);
    KindIsAsked(h, inp, k, Routers(h, inp)[k], kind);
    NamesAreKinds(h, inp, kind, IsTrusted);
    hide Routers, Takes, Bypasses, Rank, RankOfKind, RouterName, StaticName, PlainName, LocRouterName, IsKind;
  }

  lemma {:induction false} RangesBypass(ids: seq<string>, acls: seq<AccessList>, id: string, v: Visit)
    requires id in ids && AccessListById(acls, id).Some? && SatisfiesAny(AccessListById(acls, id).value)
    requires forall ip :: ip in AccessListById(acls, id).value.allowIps ==> BACKTICK !in ip
    ensures InList(AccessListById(acls, id).value, v) ==> InAnyRange(BypassIps(ids, acls), v)
  {
    var a, before, last := AccessListById(acls, id).value, ids[..|ids| - 1], ids[|ids| - 1];
    if InList(a, v) {
      if last == id {
        var i :| 0 <= i < |a.allowIps| && v.inRange(a.allowIps[i]);
        var ips := BypassIps(ids, acls);
        assert ips == BypassIps(before, acls) + a.allowIps;
        assert ips[|BypassIps(before, acls)| + i] == a.allowIps[i] == RuleQuote(a.allowIps[i]);
      } else {
        RangesBypass(before, acls, id, v);
        PrefixRanges(BypassIps(before, acls), BypassIps(ids, acls), v);
      }
    }
  }

  lemma PrefixRanges(a: seq<string>, b: seq<string>, v: Visit)
    requires a <= b && InAnyRange(a, v)
    ensures InAnyRange(b, v)
  {
    var i :| 0 <= i < |a| && v.inRange(RuleQuote(a[i]));
    assert b[i] == a[i];
  }

  // ---------------------------------------------------------------- several satisfy-any lists

  ghost predicate IsAttached(h: Host, inp: Inputs, a: AccessList) {
    exists id :: id in h.accessListIds && AccessListById(inp.accessLists, id) == Some(a)
  }

  /** Of every attached satisfy-any list, the visitor has an address or credentials. */
  ghost predicate MeetsEachAny(h: Host, inp: Inputs, v: Visit, creds: string -> bool) {
    forall a :: IsAttached(h, inp, a) && SatisfiesAny(a) ==> InList(a, v) || creds(a.id)
  }

  predicate Covers(a: AccessList, c: AccessList) { forall r :: r in c.allowIps ==> r in a.allowIps }

  /**
   By the mere text of the ranges, whoever is in a bypass range is in a range of `a`, or whoever
   is in a range of some other list that is not satisfy-any, which the trusted router still checks.
   */
  ghost predicate BypassedByItsOwn(h: Host, inp: Inputs, a: AccessList) {
    || (forall ip :: ip in BypassIps(h.accessListIds, inp.accessLists) ==> RuleQuote(ip) in a.allowIps)
    || exists c :: IsAttached(h, inp, c) && !SatisfiesAny(c) && c.allowIps != [] && Covers(a, c)
  }

  /** The trusted router takes the visitor and lets it through. */
  ghost predicate TrustedLetsIn(h: Host, inp: Inputs, v: Visit, creds: string -> bool) {
    && v.entry == Entry(h, inp) && TrustedName(h.id) in Routers(h, inp)
    && Takes(h, Routers(h, inp)[TrustedName(h.id)], v)
    && PassesAll(h, inp, Routers(h, inp)[TrustedName(h.id)].middlewares, v, creds)
  }

  lemma TrustedLetsInWhom(h: Host, inp: Inputs, v: Visit, creds: string -> bool)
    ensures TrustedLetsIn(h, inp, v, creds) <==>
              v.entry == Entry(h, inp) && Bypasses(h, inp, v) && MeetsLists(h, inp, v, creds, true)
  {
    if v.entry == Entry(h, inp) {
      if Bypasses(h, inp, v) {
        TrustedTakesIts(h, inp, v);
        KeptAsksRest(h, inp, v, creds);
      } else if TrustedName(h.id) in Routers(h, inp) && Takes(h, Routers(h, inp)[TrustedName(h.id)], v) {
        TrustedTakesNone(h, inp, v, TrustedName(h.id));
      }
    }
  }

  lemma TrustedTakesIts(h: Host, inp: Inputs, v: Visit)
    requires v.entry == Entry(h, inp) && Bypasses(h, inp, v)
    ensures TrustedName(h.id) in Routers(h, inp) && Takes(h, Routers(h, inp)[TrustedName(h.id)], v)
    ensures Routers(h, inp)[TrustedName(h.id)].middlewares == Kept(h, inp)
  {
    InRangeHasBypass(h, inp, v);
    EveryKindIsThere(h, inp);
    hide Bypasses, HasBypass, ProxyParts, Takes, Kept, RuleOf, Rank, RankOfKind;
    RouterOfKind(h, inp, v, IsTrusted);
  }

  lemma OwnBypass(h: Host, inp: Inputs, a: AccessList, v: Visit, creds: string -> bool)
    requires Bypasses(h, inp, v) && MeetsLists(h, inp, v, creds, true) && BypassedByItsOwn(h, inp, a)
    ensures InList(a, v)
  {
    hide MeetsLists, SatisfiesAny, IsAttached, BypassIps;
    var ips := BypassIps(h.accessListIds, inp.accessLists);
    if c :| IsAttached(h, inp, c) && !SatisfiesAny(c) && c.allowIps != [] && Covers(a, c) {
      StrictIsMet(h, inp, c, v, creds);
      var i :| 0 <= i < |c.allowIps| && v.inRange(c.allowIps[i]);
      assert c.allowIps[i] in c.allowIps;
      assert c.allowIps[i] in a.allowIps;
    } else {
      var i :| 0 <= i < |ips| && v.inRange(RuleQuote(ips[i]));
      assert ips[i] in ips;
      assert RuleQuote(ips[i]) in a.allowIps;
    }
  }

  lemma StrictIsMet(h: Host, inp: Inputs, c: AccessList, v: Visit, creds: string -> bool)
    requires MeetsLists(h, inp, v, creds, true) && IsAttached(h, inp, c) && !SatisfiesAny(c)
    ensures MeetsBoth(c, v, creds)
  {
    hide SatisfiesAny, MeetsBoth;
  }

  /** Somebody outside all ranges of `a`, in a bypass range, and let in by the lists that are still checked. */
  lemma SomebodyElses(h: Host, inp: Inputs, a: AccessList) returns (v: Visit, creds: string -> bool)
    requires IsAttached(h, inp, a) && SatisfiesAny(a) && !BypassedByItsOwn(h, inp, a)
    ensures v.entry == Entry(h, inp) && Bypasses(h, inp, v) && MeetsLists(h, inp, v, creds, true)
    ensures !InList(a, v) && !creds(a.id)
  {
    v := Visit(Entry(h, inp), "/", false, r => r !in a.allowIps);
    creds := id => id != a.id;
    hide Entry, SatisfiesAny, BypassIps;
    var ips := BypassIps(h.accessListIds, inp.accessLists);
    var ip :| ip in ips && RuleQuote(ip) !in a.allowIps;
    var i :| 0 <= i < |ips| && ips[i] == ip;
    assert v.inRange(RuleQuote(ips[i]));
    forall id | id in h.accessListIds && AccessListById(inp.accessLists, id).Some?
      ensures var c := AccessListById(inp.accessLists, id).value; SatisfiesAny(c) || MeetsBoth(c, v, creds)
    {
      var c := AccessListById(inp.accessLists, id).value;
      if !SatisfiesAny(c) {
        assert IsAttached(h, inp, c);
        if c.allowIps != [] {
          assert !Covers(a, c);
          var r :| r in c.allowIps && r !in a.allowIps;
          var k :| 0 <= k < |c.allowIps| && c.allowIps[k] == r;
          assert v.inRange(c.allowIps[k]);
        }
      }
    }
  }

  /**
   The trusted router drops the middlewares of all satisfy-any lists for the ranges of any of them.
   Whatever the ranges stand for, it lets in only visitors who meet each of these lists by its own
   ranges or credentials if and only if each has the ranges of all the others, or all those of
   another attached list that is still checked.
   */
  lemma TrustedAdmission(h: Host, inp: Inputs)
    ensures (forall v: Visit, creds: string -> bool ::
               TrustedLetsIn(h, inp, v, creds) ==> MeetsEachAny(h, inp, v, creds))
       <==> forall a :: IsAttached(h, inp, a) && SatisfiesAny(a) ==> BypassedByItsOwn(h, inp, a)
  {
    hide TrustedLetsIn, MeetsLists, IsAttached, SatisfiesAny, BypassedByItsOwn, InList, Bypasses, Entry;
    forall v: Visit, creds: string -> bool
      ensures TrustedLetsIn(h, inp, v, creds) <==>
                v.entry == Entry(h, inp) && Bypasses(h, inp, v) && MeetsLists(h, inp, v, creds, true)
    {
      TrustedLetsInWhom(h, inp, v, creds);
    }
    if a :| IsAttached(h, inp, a) && SatisfiesAny(a) && !BypassedByItsOwn(h, inp, a) {
      var v, creds := SomebodyElses(h, inp, a);
      assert TrustedLetsIn(h, inp, v, creds) && !MeetsEachAny(h, inp, v, creds);
    } else {
      forall v: Visit, creds: string -> bool | TrustedLetsIn(h, inp, v, creds) ensures MeetsEachAny(h, inp, v, creds) {
        forall a | IsAttached(h, inp, a) && SatisfiesAny(a) ensures InList(a, v) { OwnBypass(h, inp, a, v, creds); }
      }
    }
  }
}

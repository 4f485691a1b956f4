/**
 How the routers of the whole output rank against one another, which entry points they listen on,
 and which of them serve TLS: those of bans, of the default site, of redirection hosts and of proxy
 hosts that force TLS.
 */
module OutputOrder {
  import opened Text
  import opened Hosts
  import opened HostRule
  import opened RenderSpec
  import opened RenderClosure
  import opened RenderGating
  import opened HostRouters
  import opened RenderOutput

  const BAN_RANK := 2000000

  // ---------------------------------------------------------------- the ranks of a host's routers

  /** Everything of the host that has no fixed priority stays below `n`. */
  predicate StaysBelow(h: Host, inp: Inputs, n: int) {
    h.enabled ==>
      && (h.kind == Proxy || h.kind == Redirection ==> |RuleOf(h.domains)| < n)
      && (h.kind == Proxy ==> forall i :: 0 <= i < |h.locations| && RendersLocation(h, inp, h.locations[i]) ==>
            1000 + |h.locations[i].pathPrefix| < n)
  }

  ghost predicate RanksBelow(m: map<string, Router>, n: int) { forall k :: k in m ==> Rank(m[k]) < n }

  lemma ProxyBelow(h: Host, inp: Inputs, n: int)
    requires n > 2000 && h.enabled && h.kind == Proxy
    ensures RanksBelow(ProxyParts(h, inp).routers, n) <==> StaysBelow(h, inp, n)
  {
    var m := ProxyParts(h, inp).routers;
    hide ProxyParts, RuleOf, Rank;
    if StaysBelow(h, inp, n) {
      forall k | k in m ensures Rank(m[k]) < n {
        var kind := KindOf(h, inp, k);
        KindRanks(h, inp, k, m[k], kind);
        LocationOfKind(h, inp, k, m[k], kind);
        hide IsKind, RendersLocation;
      }
    }
    if RanksBelow(m, n) {
      MainRanks(h, inp);
      forall i | 0 <= i < |h.locations| && RendersLocation(h, inp, h.locations[i])
        ensures 1000 + |h.locations[i].pathPrefix| < n
      {
        LocationRanks(h, inp, i);
      }
    }
  }

  lemma LocationOfKind(h: Host, inp: Inputs, k: string, r: Router, kind: RouterKind)
    requires IsKind(h, inp, k, r, kind)
    ensures kind.IsLocation? ==> kind.i < |h.locations| && RendersLocation(h, inp, h.locations[kind.i])
  {
    hide RuleOf, Chain, BaseChain;
  }

  lemma MainRanks(h: Host, inp: Inputs)
    ensures RouterName(h.id) in ProxyParts(h, inp).routers
    ensures Rank(ProxyParts(h, inp).routers[RouterName(h.id)]) == |RuleOf(h.domains)|
  {
    EveryKindIsThere(h, inp);
    KindRanks(h, inp, RouterName(h.id), MainRouter(h, inp), IsMain);
    hide ProxyParts, Rank, RuleOf, MainRouter;
  }

  lemma LocationRanks(h: Host, inp: Inputs, i: nat)
    requires i < |h.locations| && RendersLocation(h, inp, h.locations[i])
    ensures LocRouterName(h.id, i) in ProxyParts(h, inp).routers
    ensures Rank(ProxyParts(h, inp).routers[LocRouterName(h.id, i)]) == 1000 + |h.locations[i].pathPrefix|
  {
    LocationIsThere(h, inp, i);
    KindRanks(h, inp, LocRouterName(h.id, i), LocRouter(h, inp, i), IsLocation(i));
    hide ProxyParts, Rank, LocRouter;
  }

  lemma OtherRanks(h: Host, inp: Inputs)
    ensures RedirectionParts(h, inp).routers.Keys == {RouterName(h.id)} == DeadParts(h, inp).routers.Keys
    ensures Rank(RedirectionParts(h, inp).routers[RouterName(h.id)]) == |RuleOf(h.domains)|
    ensures Rank(DeadParts(h, inp).routers[RouterName(h.id)]) == 1
    ensures StreamParts(h).routers == map[]
  {
    hide RuleOf, CollectedNames, CollectedMiddlewares, TrimRightSlashes, RouterName, ToLower, SniParts, Join;
  }

  lemma HostBelow(h: Host, inp: Inputs, n: int)
    requires n > 2000
    ensures RanksBelow(HostParts(h, inp).routers, n) <==> StaysBelow(h, inp, n)
  {
    OtherRanks(h, inp);
    if h.enabled && h.kind == Proxy { ProxyBelow(h, inp, n); }
    hide ProxyParts, RedirectionParts, DeadParts, StreamParts, RuleOf, Rank, RouterName;
  }

  ghost predicate RanksAboveOne(m: map<string, Router>) { forall k :: k in m ==> Rank(m[k]) > 1 }

  lemma HostAboveOne(h: Host, inp: Inputs)
    ensures RanksAboveOne(HostParts(h, inp).routers) <==> !(h.enabled && h.kind == Dead)
  {
    OtherRanks(h, inp);
    RuleIsLong(h.domains);
    if h.enabled && h.kind == Proxy { ProxyAboveOne(h, inp); }
    hide ProxyParts, RedirectionParts, DeadParts, StreamParts, RuleOf, Rank, RouterName;
    assert h.kind == Dead ==> RouterName(h.id) in DeadParts(h, inp).routers;
  }

  lemma ProxyAboveOne(h: Host, inp: Inputs)
    ensures RanksAboveOne(ProxyParts(h, inp).routers)
  {
    var m := ProxyParts(h, inp).routers;
    RuleIsLong(h.domains);
    hide ProxyParts, RuleOf, Rank;
    forall k | k in m ensures Rank(m[k]) > 1 {
      var kind := KindOf(h, inp, k);
      KindRanks(h, inp, k, m[k], kind);
      LocationOfKind(h, inp, k, m[k], kind);
      hide IsKind, RendersLocation;
    }
  }

  // ---------------------------------------------------------------- bans first, default site last

  lemma SharedRanks(inp: Inputs)
    ensures forall k :: k in BaseParts(inp).routers ==> Rank(BaseParts(inp).routers[k]) == 1000000
    ensures forall k :: k in DefaultParts(inp).routers ==> Rank(DefaultParts(inp).routers[k]) == 1
    ensures forall k :: k in BannedParts(inp).routers ==> Rank(BannedParts(inp).routers[k]) == BAN_RANK
    ensures DefaultParts(inp).routers.Keys !! BannedParts(inp).routers.Keys
    ensures BaseParts(inp).routers.Keys !! DefaultParts(inp).routers.Keys
  {
    hide QuotedIps, UserMiddlewares, AccessListMiddlewares, Join;
    assert "xgress-default-site-http"[7] == 'd' && "xgress-default-site-https"[7] == 'd' && CHALLENGE[0] == 'a';
    assert "xgress-banned-http"[7] == 'b' && "xgress-banned-https"[7] == 'b';
  }

  lemma HostRouterInOutput(inp: Inputs, i: nat, k: string)
    requires i < |inp.hosts| && IdsPrefixFree(inp.hosts) && k in HostParts(inp.hosts[i], inp).routers
    ensures k in Rendered(inp).routers && Rendered(inp).routers[k] == HostParts(inp.hosts[i], inp).routers[k]
    ensures k !in DefaultParts(inp).routers && k !in BannedParts(inp).routers
  {
    HostRouterKeys(inp.hosts[i], inp);
    hide Rendered, HostParts, DefaultParts, BannedParts, RouterName;
    SharedRouters(inp, inp.hosts[i].id, k);
    RoutersOfHost(inp, i, k);
  }

  /** Every router of the output but the ban routers themselves ranks below them. */
  ghost predicate BansFirst(inp: Inputs) {
    forall k :: k in Rendered(inp).routers && k !in BannedParts(inp).routers ==>
      Rank(Rendered(inp).routers[k]) < BAN_RANK
  }

  lemma SharedBelowBans(inp: Inputs, k: string, r: Router)
    requires IsShared(inp, k, r) && k !in BannedParts(inp).routers
    ensures Rank(r) < BAN_RANK
  {
    SharedRanks(inp);
    hide BaseParts, DefaultParts, BannedParts, Rank;
  }

  /**
   The ban routers are evaluated before every other HTTP router if and only if no host rule and no
   location priority reaches two million: a host without an explicit priority goes by the length
   of its rule.
   */
  lemma BansOutrankAll(inp: Inputs)
    requires IdsPrefixFree(inp.hosts)
    ensures BansFirst(inp) <==> forall h :: h in inp.hosts ==> StaysBelow(h, inp, BAN_RANK)
    ensures forall k :: k in BannedParts(inp).routers ==>
              k in Rendered(inp).routers && Rank(Rendered(inp).routers[k]) == BAN_RANK
  {
    SharedRanks(inp);
    hide Rendered, HostParts, BaseParts, DefaultParts, BannedParts, Rank, StaysBelow, IsShared;
    BansAreOnTop(inp);
    if forall h :: h in inp.hosts ==> StaysBelow(h, inp, BAN_RANK) {
      forall k | k in Rendered(inp).routers && k !in BannedParts(inp).routers
        ensures Rank(Rendered(inp).routers[k]) < BAN_RANK
      {
        BelowBans(inp, k);
      }
    }
    if BansFirst(inp) {
      forall h | h in inp.hosts ensures StaysBelow(h, inp, BAN_RANK) {
        var i :| 0 <= i < |inp.hosts| && inp.hosts[i] == h;
        forall k | k in HostParts(h, inp).routers ensures Rank(HostParts(h, inp).routers[k]) < BAN_RANK {
          HostRouterInOutput(inp, i, k);
        }
        HostBelow(h, inp, BAN_RANK);
      }
    }
  }

  lemma BansAreOnTop(inp: Inputs)
    ensures forall k :: k in BannedParts(inp).routers ==>
              k in Rendered(inp).routers && Rendered(inp).routers[k] == BannedParts(inp).routers[k]
  {
    hide AddHosts, BaseParts, DefaultParts, BannedParts;
  }

  lemma BelowBans(inp: Inputs, k: string)
    requires k in Rendered(inp).routers && k !in BannedParts(inp).routers
    requires forall h :: h in inp.hosts ==> StaysBelow(h, inp, BAN_RANK)
    ensures Rank(Rendered(inp).routers[k]) < BAN_RANK
  {
    RouterOrigin(inp, k);
    hide Rendered, HostParts, BannedParts, Rank, StaysBelow, IsShared;
    var r := Rendered(inp).routers[k];
    if IsShared(inp, k, r) {
      SharedBelowBans(inp, k, r);
    } else {
      var j :| IsHosts(inp.hosts, inp, j, k, r);
      assert inp.hosts[j] in inp.hosts;
      HostBelow(inp.hosts[j], inp, BAN_RANK);
    }
  }

  /** Every router of the output but the default site's own ranks above it. */
  ghost predicate DefaultLast(inp: Inputs) {
    forall k :: k in Rendered(inp).routers && k !in DefaultParts(inp).routers ==> Rank(Rendered(inp).routers[k]) > 1
  }

  /**
   The default site comes after every other router if and only if no dead host is enabled. The
   routers of a dead host have the default site's own priority, so which of the two answers for
   its domains is open.
   */
  lemma DefaultSiteIsLast(inp: Inputs)
    requires IdsPrefixFree(inp.hosts)
    ensures DefaultLast(inp) <==> forall h :: h in inp.hosts ==> !(h.enabled && h.kind == Dead)
  {
    hide Rendered, HostParts, DefaultParts, Rank, IsShared;
    if forall h :: h in inp.hosts ==> !(h.enabled && h.kind == Dead) {
      forall k | k in Rendered(inp).routers && k !in DefaultParts(inp).routers
        ensures Rank(Rendered(inp).routers[k]) > 1
      {
        AboveDefault(inp, k);
      }
    }
    if DefaultLast(inp) {
      forall h | h in inp.hosts ensures !(h.enabled && h.kind == Dead) {
        var i :| 0 <= i < |inp.hosts| && inp.hosts[i] == h;
        forall k | k in HostParts(h, inp).routers ensures Rank(HostParts(h, inp).routers[k]) > 1 {
          HostRouterInOutput(inp, i, k);
        }
        HostAboveOne(h, inp);
      }
    }
  }

  lemma SharedAboveDefault(inp: Inputs, k: string, r: Router)
    requires IsShared(inp, k, r) && k !in DefaultParts(inp).routers
    ensures Rank(r) > 1
  {
    SharedRanks(inp);
    hide BaseParts, DefaultParts, BannedParts, Rank;
  }

  lemma AboveDefault(inp: Inputs, k: string)
    requires k in Rendered(inp).routers && k !in DefaultParts(inp).routers
    requires forall h :: h in inp.hosts ==> !(h.enabled && h.kind == Dead)
    ensures Rank(Rendered(inp).routers[k]) > 1
  {
    RouterOrigin(inp, k);
    hide Rendered, HostParts, DefaultParts, Rank, IsShared;
    var r := Rendered(inp).routers[k];
    if IsShared(inp, k, r) {
      SharedAboveDefault(inp, k, r);
    } else {
      var j :| IsHosts(inp.hosts, inp, j, k, r);
      assert inp.hosts[j] in inp.hosts;
      HostAboveOne(inp.hosts[j], inp);
    }
  }

  // ---------------------------------------------------------------- entry points and TLS

  lemma KindEntries(h: Host, inp: Inputs, k: string, r: Router, kind: RouterKind)
    requires IsKind(h, inp, k, r, kind)
    ensures r.entryPoints == [if kind.IsPlain? then inp.httpEntry else Entry(h, inp)]
    ensures kind.IsPlain? ==> TlsOn(h) && h.forceTls && OnlyRedirects(h, r)
    ensures r.tls == (TlsOn(h) && !kind.IsPlain?)
  {
    hide RuleOf, Chain, BaseChain, ClientIps, Join, RouterName, TrustedName, StaticName, PlainName, LocRouterName,
         RedirectName;
  }

  /** The router listens on the two web entry points only. */
  predicate OnWebEntries(r: Router, inp: Inputs) {
    forall e :: e in r.entryPoints ==> e in {inp.httpEntry, inp.httpsEntry}
  }

  lemma HostOnWebEntries(h: Host, inp: Inputs, k: string)
    requires k in HostParts(h, inp).routers
    ensures OnWebEntries(HostParts(h, inp).routers[k], inp)
  {
    if h.enabled && h.kind == Proxy {
      var r := ProxyParts(h, inp).routers[k];
      var kind := KindOf(h, inp, k);
      KindEntries(h, inp, k, r, kind);
      hide ProxyParts, IsKind;
    } else {
      hide ProxyParts, RuleOf, CollectedNames, CollectedMiddlewares, TrimRightSlashes, RouterName, ToLower, SniParts,
           Join;
    }
  }

  lemma SharedOnWebEntries(inp: Inputs, k: string, r: Router)
    requires IsShared(inp, k, r)
    ensures OnWebEntries(r, inp)
  {
    hide QuotedIps, UserMiddlewares, AccessListMiddlewares, Join;
  }

  lemma BansOnBothEntries(inp: Inputs, e: string)
    requires inp.bannedIps != [] && inp.contentBackend != "" && e in {inp.httpEntry, inp.httpsEntry}
    ensures exists b :: b in BannedParts(inp).routers && e in BannedParts(inp).routers[b].entryPoints
  {
    hide QuotedIps, Join;
    assert "xgress-banned-http" in BannedParts(inp).routers && "xgress-banned-https" in BannedParts(inp).routers;
    assert "xgress-banned-http" != "xgress-banned-https";
  }

  /** With bans in force there is a ban router on every entry point that some HTTP router of the output listens on. */
  lemma BansReachEveryEntry(inp: Inputs, k: string, e: string)
    requires inp.bannedIps != [] && inp.contentBackend != ""
    requires k in Rendered(inp).routers && e in Rendered(inp).routers[k].entryPoints
    ensures exists b :: b in BannedParts(inp).routers && e in BannedParts(inp).routers[b].entryPoints
  {
    RouterOrigin(inp, k);
    hide Rendered, HostParts, BannedParts, IsShared;
    var r := Rendered(inp).routers[k];
    if IsShared(inp, k, r) {
      SharedOnWebEntries(inp, k, r);
    } else {
      var j :| IsHosts(inp.hosts, inp, j, k, r);
      HostOnWebEntries(inp.hosts[j], inp, k);
    }
    BansOnBothEntries(inp, e);
  }

  ghost predicate OnPlainEntry(c: Cfg, inp: Inputs, h: Host, k: string) {
    k in c.routers && RouterName(h.id) <= k && inp.httpEntry in c.routers[k].entryPoints
  }

  /**
   No router of a TLS host lets anything through on the plain entry point: all that may listen
   there is the redirect, and it does exactly when the host forces TLS.
   */
  lemma PlainEntryOnlyRedirects(inp: Inputs, i: nat)
    requires i < |inp.hosts| && IdsPrefixFree(inp.hosts) && inp.hosts[i].enabled && inp.hosts[i].kind == Proxy
    requires TlsOn(inp.hosts[i]) && inp.httpEntry != inp.httpsEntry
    ensures forall k :: OnPlainEntry(Rendered(inp), inp, inp.hosts[i], k) ==>
        OnlyRedirects(inp.hosts[i], Rendered(inp).routers[k])
    ensures (exists k :: OnPlainEntry(Rendered(inp), inp, inp.hosts[i], k)) <==> inp.hosts[i].forceTls
  {
    var h := inp.hosts[i];
    hide Rendered, RouterName, OnlyRedirects;
    forall k | OnPlainEntry(Rendered(inp), inp, h, k)
      ensures OnlyRedirects(h, Rendered(inp).routers[k]) && h.forceTls
    {
      RoutersOfHost(inp, i, k);
      PlainEntryKind(h, inp, k);
      hide ProxyParts;
    }
    if h.forceTls { RedirectIsThere(inp, i); }
  }

  lemma PlainEntryKind(h: Host, inp: Inputs, k: string)
    requires k in ProxyParts(h, inp).routers && inp.httpEntry in ProxyParts(h, inp).routers[k].entryPoints
    requires TlsOn(h) && inp.httpEntry != inp.httpsEntry
    ensures OnlyRedirects(h, ProxyParts(h, inp).routers[k]) && h.forceTls
  {
    var kind := KindOf(h, inp, k);
    KindEntries(h, inp, k, ProxyParts(h, inp).routers[k], kind);
    hide ProxyParts, IsKind, OnlyRedirects;
  }

  lemma RedirectIsThere(inp: Inputs, i: nat)
    requires i < |inp.hosts| && IdsPrefixFree(inp.hosts) && inp.hosts[i].enabled && inp.hosts[i].kind == Proxy
    requires TlsOn(inp.hosts[i]) && inp.hosts[i].forceTls
    ensures OnPlainEntry(Rendered(inp), inp, inp.hosts[i], PlainName(inp.hosts[i].id))
  {
    var h := inp.hosts[i];
    EveryKindIsThere(h, inp);
    assert RouterName(h.id) <= PlainName(h.id);
    hide Rendered, ProxyParts, RouterName, PlainName, RuleOf;
    RoutersOfHost(inp, i, PlainName(h.id));
  }

  /**
   The router of a redirection host serves TLS as the routers of a proxy host in the same mode do
   if and only if the mode is one of the four. With any other text there, or none, the redirection
   host serves TLS and the proxy host does not.
   */
  lemma RedirectionTls(inp: Inputs, i: nat)
    requires i < |inp.hosts| && IdsPrefixFree(inp.hosts) && inp.hosts[i].enabled && inp.hosts[i].kind == Redirection
    ensures RouterName(inp.hosts[i].id) in Rendered(inp).routers
    ensures Rendered(inp).routers[RouterName(inp.hosts[i].id)].tls == TlsOn(inp.hosts[i])
       <==> !inp.hosts[i].tls.TlsOther?
  {
    var h := inp.hosts[i];
    OtherRanks(h, inp);
    RedirectionTlsOfParts(h, inp);
    hide Rendered, RouterName, RedirectionParts, Rank, RuleOf;
    RoutersOfHost(inp, i, RouterName(h.id));
  }

  lemma RedirectionTlsOfParts(h: Host, inp: Inputs)
    ensures RouterName(h.id) in RedirectionParts(h, inp).routers
    ensures RedirectionParts(h, inp).routers[RouterName(h.id)].tls == TlsOn(h) <==> !h.tls.TlsOther?
  {
    hide RuleOf, CollectedNames, CollectedMiddlewares, TrimRightSlashes, RouterName;
  }

  /** A redirection host in no known mode: its router is a TLS router, and none for the plain entry point. */
  lemma OtherRedirectionServesTls(h: Host, inp: Inputs)
    requires h.tls.TlsOther?
    ensures RouterName(h.id) in RedirectionParts(h, inp).routers
    ensures var r := RedirectionParts(h, inp).routers[RouterName(h.id)];
            r.tls && r.entryPoints == [inp.httpsEntry] && !TlsOn(h)
  {
    hide RuleOf, CollectedNames, CollectedMiddlewares, TrimRightSlashes, RouterName;
  }
}

/**
 Which routers and services a host has in the whole output, by its own fields.

 A proxy host has a router for each thing its row asks for, and a service by its mode; redirection
 and dead hosts have one router; a disabled host has nothing. The shared routers, of bans, of the
 default site and of the ACME challenge, are there if they are configured, whatever the hosts.
 */
module HostOutput {
  import opened Options
  import opened Text
  import opened Hosts
  import opened HostRule
  import opened RenderSpec
  import opened RenderClosure
  import opened RenderGating
  import opened HostRouters
  import opened RenderOutput
  import opened HostMiddlewares
  import HostRouting
  import RouterRules

  // ---------------------------------------------------------------- access lists by id

  /** The row of the access list with that id, the last one if there are several. */
  ghost predicate IsListOf(acls: seq<AccessList>, id: string, a: AccessList) {
    exists i :: IsLastOf(acls, id, a, i)
  }

  ghost predicate IsLastOf(acls: seq<AccessList>, id: string, a: AccessList, i: int) {
    0 <= i < |acls| && acls[i] == a && a.id == id && forall j :: i < j < |acls| ==> acls[j].id != id
  }

  lemma OneMoreRow(before: seq<AccessList>, last: AccessList, id: string, a: AccessList)
    ensures IsListOf(before + [last], id, a) <==> if last.id == id then a == last else IsListOf(before, id, a)
  {
    var acls := before + [last];
    assert acls[|before|] == last && forall j :: 0 <= j < |before| ==> acls[j] == before[j];
    if last.id == id {
      assert IsLastOf(acls, id, last, |before|);
    } else {
      forall i ensures IsLastOf(acls, id, a, i) <==> IsLastOf(before, id, a, i) {}
    }
  }

  lemma {:induction false} ListFound(acls: seq<AccessList>, id: string, a: AccessList)
    ensures AccessListById(acls, id) == Some(a) <==> IsListOf(acls, id, a)
  {
    if acls != [] {
      var (before, last) := (acls[..|acls| - 1], acls[|acls| - 1]);
      assert acls == before + [last];
      ListFound(before, id, a);
      OneMoreRow(before, last, id, a);
      hide IsListOf;
    }
  }

  /** Trusted addresses skip the auth of this attached list: it is satisfy-any and has both ranges and users. */
  ghost predicate Trusts(h: Host, inp: Inputs, a: AccessList) {
    && a.satisfyAny && a.allowIps != [] && a.users != []
    && exists id :: id in h.accessListIds && IsListOf(inp.accessLists, id, a)
  }

  predicate Gives(acls: seq<AccessList>, id: string, ip: string) {
    match AccessListById(acls, id)
    case Some(a) => a.satisfyAny && a.allowIps != [] && a.users != [] && ip in a.allowIps
    case None => false
  }

  lemma {:induction false} BypassMeans(ids: seq<string>, acls: seq<AccessList>, ip: string)
    ensures ip in BypassIps(ids, acls) <==> exists id :: id in ids && Gives(acls, id, ip)
  {
    if ids != [] {
      var (before, last) := (ids[..|ids| - 1], ids[|ids| - 1]);
      BypassMeans(before, acls, ip);
      assert ip in BypassIps(ids, acls) <==> ip in BypassIps(before, acls) || Gives(acls, last, ip);
      hide BypassIps, Gives;
      assert forall id :: id in ids <==> id in before || id == last;
    }
  }

  /** The ranges of the bypass are those of the lists that trust, all of them. */
  lemma BypassIsTrusted(h: Host, inp: Inputs, ip: string)
    ensures ip in BypassIps(h.accessListIds, inp.accessLists) <==> exists a :: Trusts(h, inp, a) && ip in a.allowIps
  {
    BypassMeans(h.accessListIds, inp.accessLists, ip);
    forall id, a ensures AccessListById(inp.accessLists, id) == Some(a) <==> IsListOf(inp.accessLists, id, a) {
      ListFound(inp.accessLists, id, a);
    }
    hide BypassIps, AccessListById, IsListOf;
  }

  lemma BypassMeansTrust(h: Host, inp: Inputs)
    ensures HasBypass(h, inp) <==> exists a :: Trusts(h, inp, a)
  {
    var ips := BypassIps(h.accessListIds, inp.accessLists);
    if ips != [] { BypassIsTrusted(h, inp, ips[0]); }
    if a :| Trusts(h, inp, a) { BypassIsTrusted(h, inp, a.allowIps[0]); }
  }

  // ---------------------------------------------------------------- routers

  predicate ServesTls(h: Host) { h.tls in {TlsAcme, TlsCustom, TlsExternal} }

  /** A router of the kind is wanted. */
  ghost predicate Wants(h: Host, inp: Inputs, kind: RouterKind) {
    match kind
    case IsMain => true
    case IsTrusted => exists a :: Trusts(h, inp, a)
    case IsStatic => h.cacheAssets
    case IsPlain => ServesTls(h) && h.forceTls
    case IsLocation(j) => HasRouter(h, inp, j)
  }

  /** What a router of the kind does: its rule, rank, entry point, TLS and service, by the host's fields. */
  ghost predicate DoesItsPart(h: Host, inp: Inputs, r: Router, kind: RouterKind) {
    var own := if ServesTls(h) then inp.httpsEntry else inp.httpEntry;
    && r.entryPoints == [if kind.IsPlain? then inp.httpEntry else own]
    && r.tls == (ServesTls(h) && !kind.IsPlain?)
    && match kind
       case IsMain => r.service == ServiceName(h.id) && r.priority == 0 && r.rule == RuleOf(h.domains)
       case IsPlain => r.service == ServiceName(h.id) && r.priority == 0 && r.rule == RuleOf(h.domains)
       case IsTrusted =>
         && r.service == ServiceName(h.id) && r.priority == 2000
         && r.rule == RouterRules.AndClient(h.domains, BypassIps(h.accessListIds, inp.accessLists))
       case IsStatic => r.service == ServiceName(h.id) && r.priority == 900 && r.rule == RouterRules.AndAsset(h.domains)
       case IsLocation(j) =>
         && j < |h.locations| && r.service == LocServiceName(h.id, j)
         && r.priority == 1000 + |h.locations[j].pathPrefix|
         && r.rule == RouterRules.AndPath(h.domains, RuleQuote(h.locations[j].pathPrefix))
  }

  lemma AskedMeans(h: Host, inp: Inputs, kind: RouterKind)
    ensures HostRouting.Asked(h, inp, kind) <==> Wants(h, inp, kind)
  {
    BypassMeansTrust(h, inp);
  }

  lemma KindDoes(h: Host, inp: Inputs, k: string, r: Router, kind: RouterKind)
    requires IsKind(h, inp, k, r, kind)
    ensures DoesItsPart(h, inp, r, kind)
  {
    hide RuleOf, Chain, BaseChain, BypassIps, ClientIps, Join, RouterName, Kept, RuleQuote;
  }

  /**
   In the whole output, an enabled proxy host has under its names exactly one router for each kind
   that its fields ask for, and each does its part.
   */
  lemma WhichRouters(inp: Inputs, i: nat)
    requires i < |inp.hosts| && IdsPrefixFree(inp.hosts) && inp.hosts[i].enabled && inp.hosts[i].kind == Proxy
    ensures forall kind :: Wants(inp.hosts[i], inp, kind) ==>
              && HostRouting.NameOf(inp.hosts[i], kind) in Rendered(inp).routers
              && DoesItsPart(inp.hosts[i], inp, Rendered(inp).routers[HostRouting.NameOf(inp.hosts[i], kind)], kind)
    ensures forall k :: k in Rendered(inp).routers && RouterName(inp.hosts[i].id) <= k ==>
              exists kind :: Wants(inp.hosts[i], inp, kind) && k == HostRouting.NameOf(inp.hosts[i], kind)
  {
    var h := inp.hosts[i];
    hide Rendered, RouterName, ProxyParts, Wants, DoesItsPart, HostRouting.NameOf, HostRouting.Asked, IsKind;
    forall kind | Wants(h, inp, kind)
      ensures HostRouting.NameOf(h, kind) in Rendered(inp).routers
      ensures DoesItsPart(h, inp, Rendered(inp).routers[HostRouting.NameOf(h, kind)], kind)
    {
      AskedMeans(h, inp, kind);
      RouterThere(h, inp, kind);
      NameBegins(h, kind);
      RoutersOfHost(inp, i, HostRouting.NameOf(h, kind));
      KindDoes(h, inp, HostRouting.NameOf(h, kind), ProxyParts(h, inp).routers[HostRouting.NameOf(h, kind)], kind);
    }
    forall k | k in Rendered(inp).routers && RouterName(h.id) <= k
      ensures exists kind :: Wants(h, inp, kind) && k == HostRouting.NameOf(h, kind)
    {
      RoutersOfHost(inp, i, k);
      var kind := KindOf(h, inp, k);
      HostRouting.KindIsAsked(h, inp, k, ProxyParts(h, inp).routers[k], kind);
      AskedMeans(h, inp, kind);
    }
  }

  lemma NameBegins(h: Host, kind: RouterKind)
    ensures RouterName(h.id) <= HostRouting.NameOf(h, kind)
  {
    if kind.IsLocation? { assert LocRouterName(h.id, kind.i)[..|RouterName(h.id)|] == RouterName(h.id); }
  }

  lemma RouterThere(h: Host, inp: Inputs, kind: RouterKind)
    requires HostRouting.Asked(h, inp, kind)
    ensures var k := HostRouting.NameOf(h, kind);
            k in ProxyParts(h, inp).routers && IsKind(h, inp, k, ProxyParts(h, inp).routers[k], kind)
  {
    EveryKindIsThere(h, inp);
    if kind.IsLocation? { LocationIsThere(h, inp, kind.i); }
    hide ProxyParts, MainRouter, TrustedRouter, StaticRouter, PlainRouter, LocRouter, RouterName, TrustedName,
         StaticName, PlainName, LocRouterName, HasBypass, TlsOn, RendersLocation;
  }

  // ---------------------------------------------------------------- the main service

  /** A proxy host's own service: the edge, a composed one with the groups' shares, or its upstreams. */
  ghost predicate IsMainService(s: Service, h: Host, inp: Inputs) {
    var (groups, n) := (h.backendGroups, |h.backendGroups|);
    if ServedByEdge(h, inp) then s == SingleUrl(inp.cacheBackend)
    else if h.serviceMode == "weighted" && n > 0 then
      && s.Weighted? && |s.children| == n
      && forall j: nat :: j < n ==>
           s.children[j] == Child(GroupName(h.id, j), if groups[j].weight > 0 then groups[j].weight else 1)
    else if h.serviceMode == "failover" && n > 0 then
      s == Failover(GroupName(h.id, 0), if n > 1 then GroupName(h.id, 1) else "")
    else if h.serviceMode == "mirroring" && n > 0 then
      && s.Mirroring? && s.main == GroupName(h.id, 0) && |s.mirrors| == n - 1
      && forall j: nat :: j < n - 1 ==> s.mirrors[j] == Child(GroupName(h.id, j + 1), groups[j + 1].percent)
    else s == Servers(h.upstreams)
  }

  lemma {:induction false} WeightedShares(h: Host, n: nat)
    requires n <= |h.backendGroups|
    ensures |WeightedChildren(h, n)| == n
    ensures forall j: nat :: j < n ==>
              WeightedChildren(h, n)[j]
              == Child(GroupName(h.id, j), if h.backendGroups[j].weight > 0 then h.backendGroups[j].weight else 1)
  {
    hide GroupName;
    if n > 0 { WeightedShares(h, n - 1); }
  }

  lemma {:induction false} MirrorShares(h: Host, n: nat)
    requires 1 <= n <= |h.backendGroups|
    ensures |MirrorChildren(h, n)| == n - 1
    ensures forall j: nat :: j < n - 1 ==>
              MirrorChildren(h, n)[j] == Child(GroupName(h.id, j + 1), h.backendGroups[j + 1].percent)
  {
    hide GroupName;
    if n > 1 { MirrorShares(h, n - 1); }
  }

  predicate ServedByEdge(h: Host, inp: Inputs) {
    inp.cacheBackend != "" && ((h.waf && inp.wafEnabled) || (h.cache && inp.cacheEnabled))
  }

  lemma MainIs(h: Host, inp: Inputs)
    ensures ServiceName(h.id) in MainServices(h, inp)
    ensures MainServices(h, inp)[ServiceName(h.id)]
         == if ServedByEdge(h, inp) then SingleUrl(inp.cacheBackend)
            else if h.serviceMode in {"weighted", "failover", "mirroring"} && h.backendGroups != [] then
              ComposedService(h)
            else Servers(h.upstreams)
  {
    hide ServiceName, GroupServices, WeightedChildren, MirrorChildren;
  }

  lemma ComposedIs(h: Host, inp: Inputs)
    requires h.serviceMode in {"weighted", "failover", "mirroring"} && h.backendGroups != [] && !ServedByEdge(h, inp)
    ensures IsMainService(ComposedService(h), h, inp)
  {
    WeightedShares(h, |h.backendGroups|);
    MirrorShares(h, |h.backendGroups|);
    hide GroupName, WeightedChildren, MirrorChildren;
  }

  lemma MainServiceMeans(h: Host, inp: Inputs)
    ensures ServiceName(h.id) in ProxyParts(h, inp).services
    ensures IsMainService(ProxyParts(h, inp).services[ServiceName(h.id)], h, inp)
  {
    MainServiceStays(h, inp);
    MainIs(h, inp);
    hide ProxyParts, MainServices, ServiceName, ComposedService;
    if h.serviceMode in {"weighted", "failover", "mirroring"} && h.backendGroups != [] && !ServedByEdge(h, inp) {
      ComposedIs(h, inp);
      hide IsMainService;
    }
  }

  /** In the whole output, the service of an enabled proxy host is the one that its mode and features ask for. */
  lemma MainServiceInOutput(inp: Inputs, i: nat)
    requires i < |inp.hosts| && IdsPrefixFree(inp.hosts) && inp.hosts[i].enabled && inp.hosts[i].kind == Proxy
    ensures ServiceName(inp.hosts[i].id) in Rendered(inp).services
    ensures IsMainService(Rendered(inp).services[ServiceName(inp.hosts[i].id)], inp.hosts[i], inp)
  {
    MainServiceMeans(inp.hosts[i], inp);
    hide Rendered, ProxyParts, ServiceName, IsMainService;
    ServiceOfHost(inp, i);
  }

  // ---------------------------------------------------------------- redirection and dead hosts

  /** The text without the slashes at its end. */
  ghost predicate IsTrimmed(base: string, s: string) {
    && base <= s && (forall j :: |base| <= j < |s| ==> s[j] == '/') && (base != "" ==> base[|base| - 1] != '/')
  }

  lemma {:induction false} TrimmedMeans(s: string)
    ensures IsTrimmed(TrimRightSlashes(s), s)
  {
    if s != "" && s[|s| - 1] == '/' { TrimmedMeans(s[..|s| - 1]); }
  }

  /** The redirect: to the target, with the path after it if that is kept; permanent for 301, 308 and no code. */
  ghost predicate IsRedirect(m: Middleware, h: Host) {
    && m.RedirectRegex? && (m.permanent <==> h.redirectCode in {0, 301, 308})
    && (h.redirectKeepPath ==> exists base :: IsTrimmed(base, h.redirectTo) && m.replacement == base + "${1}")
    && (!h.redirectKeepPath ==> m.replacement == h.redirectTo)
  }

  lemma RedirectionMeans(h: Host, inp: Inputs)
    ensures var (c, name) := (RedirectionParts(h, inp), RouterName(h.id));
            && name + "-redirect" in c.middlewares && IsRedirect(c.middlewares[name + "-redirect"], h)
            && name in c.routers && c.routers[name].rule == RuleOf(h.domains) && c.routers[name].service == NOOP
            && c.routers[name].priority == 0 && c.routers[name].tls == (h.tls != TlsNone)
            && c.routers[name].entryPoints == [if h.tls == TlsNone then inp.httpEntry else inp.httpsEntry]
  {
    TrimmedMeans(h.redirectTo);
    var p := |RouterName(h.id)|;
    assert HstsName(h.id)[p..] == "-hsts" && CorsName(h.id)[p..] == "-cors";
    assert (RouterName(h.id) + "-redirect")[p..] == "-redirect";
    hide RuleOf, CollectedNames, RouterName, HstsName, CorsName, TrimRightSlashes, IsTrimmed;
  }

  /** In the whole output, an enabled redirection host redirects as its fields say, and leads nowhere else. */
  lemma RedirectionInOutput(inp: Inputs, i: nat)
    requires i < |inp.hosts| && IdsPrefixFree(inp.hosts) && inp.hosts[i].enabled && inp.hosts[i].kind == Redirection
    ensures var (c, h, name) := (Rendered(inp), inp.hosts[i], RouterName(inp.hosts[i].id));
            && name + "-redirect" in c.middlewares && IsRedirect(c.middlewares[name + "-redirect"], h)
            && name in c.routers && c.routers[name].rule == RuleOf(h.domains) && c.routers[name].service == NOOP
            && c.routers[name].priority == 0 && c.routers[name].tls == (h.tls != TlsNone)
            && c.routers[name].entryPoints == [if h.tls == TlsNone then inp.httpEntry else inp.httpsEntry]
  {
    var h := inp.hosts[i];
    RedirectionMeans(h, inp);
    hide Rendered, RedirectionParts, RouterName, RuleOf, IsRedirect;
    RoutersOfHost(inp, i, RouterName(h.id));
    MiddlewaresOfHost(inp, i, RouterName(h.id) + "-redirect");
  }

  /** In the whole output, an enabled dead host has one router, for both entry points, that leads nowhere. */
  lemma DeadInOutput(inp: Inputs, i: nat)
    requires i < |inp.hosts| && IdsPrefixFree(inp.hosts) && inp.hosts[i].enabled && inp.hosts[i].kind == Dead
    ensures RouterName(inp.hosts[i].id) in Rendered(inp).routers
    ensures Rendered(inp).routers[RouterName(inp.hosts[i].id)]
         == Router(RuleOf(inp.hosts[i].domains), NOOP, [inp.httpEntry, inp.httpsEntry], [], 1, false)
  {
    RoutersOfHost(inp, i, RouterName(inp.hosts[i].id));
    hide Rendered, RouterName, RuleOf;
  }

  /** A host that is not enabled has no router and no middleware in the whole output. */
  lemma DisabledIsAbsent(inp: Inputs, i: nat, k: string)
    requires i < |inp.hosts| && IdsPrefixFree(inp.hosts) && !inp.hosts[i].enabled && RouterName(inp.hosts[i].id) <= k
    ensures k !in Rendered(inp).routers && k !in Rendered(inp).middlewares
  {
    RoutersOfHost(inp, i, k);
    MiddlewaresOfHost(inp, i, k);
    hide Rendered, RouterName;
  }

  // ---------------------------------------------------------------- bans and the default site

  lemma {:induction false} QuotedMeans(ips: seq<string>)
    ensures |QuotedIps(ips)| == |ips|
    ensures forall j :: 0 <= j < |ips| ==> QuotedIps(ips)[j] == "`" + RuleQuote(ips[j]) + "`"
  {
    if ips != [] { QuotedMeans(ips[..|ips| - 1]); }
  }

  /** The rule names each banned address, in its place, for any host. */
  ghost predicate NamesAll(rule: string, ips: seq<string>) {
    exists parts: seq<string> ::
      && |parts| == |ips| && (forall j :: 0 <= j < |ips| ==> parts[j] == "`" + RuleQuote(ips[j]) + "`")
      && rule == "(ClientIP(" + Join(parts, ", ") + ")) && " + ANY_HOST
  }

  /** A shared page: a router for each web entry point, of one rank and rule, to one path of the content service. */
  ghost predicate IsPage(c: Cfg, inp: Inputs, http: string, https: string, path: string, mw: string, rank: int,
                         rule: string) {
    && mw in c.middlewares && c.middlewares[mw] == ReplacePath(path)
    && http in c.routers && c.routers[http] == Router(rule, CONTENT, [inp.httpEntry], [mw], rank, false)
    && https in c.routers && c.routers[https] == Router(rule, CONTENT, [inp.httpsEntry], [mw], rank, true)
  }

  /** With bans and a content service, the whole output answers every banned address with the page for them. */
  lemma BansInOutput(inp: Inputs) returns (rule: string)
    requires inp.bannedIps != [] && inp.contentBackend != ""
    ensures NamesAll(rule, inp.bannedIps)
    ensures IsPage(Rendered(inp), inp, "xgress-banned-http", "xgress-banned-https", "/__xgress/banned", BANNED_PATH,
                   2000000, rule)
  {
    QuotedMeans(inp.bannedIps);
    rule := "(ClientIP(" + Join(QuotedIps(inp.bannedIps), ", ") + ")) && " + ANY_HOST;
    hide AddHosts, BaseParts, DefaultParts, QuotedIps, Join;
    assert "xgress-banned-http" != "xgress-banned-https";
  }

  /** With the default site on and a content service, the whole output answers for every other domain. */
  lemma DefaultInOutput(inp: Inputs)
    requires inp.defaultSite && inp.contentBackend != ""
    ensures IsPage(Rendered(inp), inp, "xgress-default-site-http", "xgress-default-site-https", "/__xgress/default",
                   DEFAULT_PATH, 1, ANY_HOST)
  {
    BannedKeys(inp);
    hide AddHosts, BaseParts, BannedParts;
    assert "xgress-default-site-http" != "xgress-default-site-https";
  }

  lemma BannedKeys(inp: Inputs)
    ensures BannedParts(inp).routers.Keys <= {"xgress-banned-http", "xgress-banned-https"}
    ensures BannedParts(inp).middlewares.Keys <= {BANNED_PATH}
    ensures "xgress-default-site-http" !in BannedParts(inp).routers
        && "xgress-default-site-https" !in BannedParts(inp).routers
    ensures DEFAULT_PATH != BANNED_PATH
  {
    assert DEFAULT_PATH[7] == 'd' && BANNED_PATH[7] == 'b';
    assert "xgress-default-site-http"[7] == "xgress-default-site-https"[7] == 'd';
    assert "xgress-banned-http"[7] == "xgress-banned-https"[7] == 'b';
    hide QuotedIps, Join;
  }

  /** Without bans or without a content service there is no ban router, and likewise no default site. */
  lemma PagesOnlyIfWanted(inp: Inputs)
    ensures BannedParts(inp) != Empty <==> inp.bannedIps != [] && inp.contentBackend != ""
    ensures DefaultParts(inp) != Empty <==> inp.defaultSite && inp.contentBackend != ""
  {
    hide QuotedIps, Join;
    if inp.bannedIps != [] && inp.contentBackend != "" { assert BANNED_PATH in BannedParts(inp).middlewares; }
    if inp.defaultSite && inp.contentBackend != "" { assert DEFAULT_PATH in DefaultParts(inp).middlewares; }
  }

  // ---------------------------------------------------------------- the shared services

  lemma {:induction false} SharedServiceStays(c: Cfg, hosts: seq<Host>, inp: Inputs, k: string)
    requires k in {CHALLENGE, CONTENT}
    ensures SameAt(AddHosts(c, hosts, inp).services, c.services, k)
  {
    if hosts != [] {
      var (before, last) := (hosts[..|hosts| - 1], hosts[|hosts| - 1]);
      SharedServiceStays(c, before, inp, k);
      HostServiceKeys(last, inp);
      StepAt(AddHosts(c, before, inp), last, inp, k);
      assert k[0] != 'h' && k[0] != 's' && RouterName(last.id)[0] == 'h' && ServiceName(last.id)[0] == 's';
      hide AddHost, HostParts, RouterName, ServiceName;
    }
  }

  lemma SharedServiceSame(inp: Inputs, k: string)
    requires k in {CHALLENGE, CONTENT}
    ensures SameAt(Rendered(inp).services, BaseParts(inp).services, k)
  {
    SharedServiceStays(BaseParts(inp), inp.hosts, inp, k);
    NoSharedServices(inp);
    hide AddHosts, BaseParts, DefaultParts, BannedParts;
  }

  /**
   In the whole output, whatever its hosts, the ACME challenge goes to its responder before any host
   rule is looked at, and the content service is there if it is configured.
   */
  lemma SharedRoutes(inp: Inputs)
    ensures var c := Rendered(inp);
            && (CHALLENGE in c.routers <==> inp.challengeBackend != "")
            && (CHALLENGE in c.services <==> inp.challengeBackend != "")
            && (CHALLENGE in c.routers ==>
                  && c.routers[CHALLENGE]
                     == Router("PathPrefix(`/.well-known/acme-challenge/`)", CHALLENGE, [inp.httpEntry], [],
                       1000000, false)
                  && c.services[CHALLENGE] == SingleUrl(inp.challengeBackend))
            && (CONTENT in c.services <==> inp.contentBackend != "")
            && (CONTENT in c.services ==> c.services[CONTENT] == SingleUrl(inp.contentBackend))
  {
    SharedServiceSame(inp, CHALLENGE);
    SharedServiceSame(inp, CONTENT);
    ChallengeStays(inp);
    BaseShares(inp);
    hide Rendered, BaseParts;
  }

  lemma ChallengeStays(inp: Inputs)
    ensures SameAt(Rendered(inp).routers, BaseParts(inp).routers, CHALLENGE)
  {
    assert CHALLENGE[0] == 'a' && forall id :: RouterName(id)[0] == 'h';
    NoneUnder(BaseParts(inp), inp.hosts, inp, CHALLENGE);
    ChallengeIsNoPage(inp);
    hide AddHosts, BaseParts, DefaultParts, BannedParts, RouterName;
  }

  lemma ChallengeIsNoPage(inp: Inputs)
    ensures CHALLENGE !in DefaultParts(inp).routers && CHALLENGE !in BannedParts(inp).routers
  {
    assert CHALLENGE[0] == 'a' && "xgress-banned-http"[0] == "xgress-banned-https"[0] == 'x';
    assert "xgress-default-site-http"[0] == "xgress-default-site-https"[0] == 'x';
    hide QuotedIps, Join;
  }

  lemma BaseShares(inp: Inputs)
    ensures var c := BaseParts(inp);
            && (CHALLENGE in c.routers <==> inp.challengeBackend != "")
            && (CHALLENGE in c.services <==> inp.challengeBackend != "")
            && (CHALLENGE in c.routers ==>
                  && c.routers[CHALLENGE]
                     == Router("PathPrefix(`/.well-known/acme-challenge/`)", CHALLENGE, [inp.httpEntry], [],
                       1000000, false)
                  && c.services[CHALLENGE] == SingleUrl(inp.challengeBackend))
            && (CONTENT in c.services <==> inp.contentBackend != "")
            && (CONTENT in c.services ==> c.services[CONTENT] == SingleUrl(inp.contentBackend))
  {
    assert CHALLENGE[0] == 'a' && CONTENT[0] == 'x';
    hide UserMiddlewares, AccessListMiddlewares;
  }
}

/**
 What the renderer of internal/traefikcfg/render.go writes: each part of the dynamic
 configuration as a function of the database rows.
 */
module RenderSpec {
  import opened Options
  import opened Text
  import opened Hosts
  import opened HostRule
  import Ordering

  // ---------------------------------------------------------------- the configuration

  datatype Router = Router(rule: string, service: string, entryPoints: seq<string>,
                           middlewares: seq<string>, priority: int, tls: bool)

  /** A child of a composed service with its weight or percentage. */
  datatype Child = Child(name: string, share: int)

  datatype Service =
    | Servers(upstreams: seq<Upstream>)      // buildServersLB
    | SingleUrl(url: string)                 // one fixed server
    | Weighted(children: seq<Child>)
    | Failover(primary: string, fallback: string)  // no fallback when empty
    | Mirroring(main: string, mirrors: seq<Child>)
    | RawService                             // from a raw fragment, not looked into

  datatype Middleware =
    | UserDefined(id: string)
    | BasicAuth(users: seq<string>)
    | IpAllowList(ranges: seq<string>)
    | TokenHeader(token: string)
    | Hsts
    | Cors(origins: seq<string>, credentials: bool)
    | Errors(statuses: seq<string>, service: string, query: string)
    | CacheControl
    | StripPrefix(prefix: string)
    | RedirectScheme
    | RedirectRegex(replacement: string, permanent: bool)
    | ReplacePath(path: string)
    | RawMiddleware                          // from a raw fragment, not looked into

  datatype StreamRouter = StreamRouter(entryPoint: string, service: string, rule: string, passthrough: bool)
  datatype StreamService = StreamService(host: string, port: int)

  datatype Cfg = Cfg(routers: map<string, Router>, services: map<string, Service>, middlewares: map<string, Middleware>,
                     tcpRouters: map<string, StreamRouter>, tcpServices: map<string, StreamService>,
                     udpRouters: map<string, StreamRouter>, udpServices: map<string, StreamService>)

  const Empty := Cfg(map[], map[], map[], map[], map[], map[], map[])

  /** The maps of `d` written over those of `c`. */
  function Over(c: Cfg, d: Cfg): Cfg {
    Cfg(c.routers + d.routers, c.services + d.services, c.middlewares + d.middlewares,
        c.tcpRouters + d.tcpRouters, c.tcpServices + d.tcpServices,
        c.udpRouters + d.udpRouters, c.udpServices + d.udpServices)
  }

  datatype Inputs = Inputs(
    hosts: seq<Host>, middlewares: seq<UserMiddleware>, accessLists: seq<AccessList>,
    httpEntry: string, httpsEntry: string, challengeBackend: string, contentBackend: string,
    defaultSite: bool, wafEnabled: bool, cacheEnabled: bool, cacheBackend: string, cacheToken: string,
    bannedIps: seq<string>)

  // ---------------------------------------------------------------- names

  function Itoa(n: nat): string {
    if n < 10 then ["0123456789"[n]] else Itoa(n / 10) + ["0123456789"[n % 10]]
  }

  function RouterName(id: string): string { "host-" + id }
  function ServiceName(id: string): string { "svc-" + id }
  function GroupName(id: string, i: nat): string { "svc-" + id + "-g" + Itoa(i) }
  function LocServiceName(id: string, i: nat): string { "svc-" + id + "-loc" + Itoa(i) }
  function LocRouterName(id: string, i: nat): string { "host-" + id + "-loc" + Itoa(i) }
  function StripName(id: string, i: nat): string { LocRouterName(id, i) + "-strip" }
  function RawName(id: string, name: string): string { "host-" + id + "-raw-" + name }
  function MwName(id: string): string { "mw-" + id }
  function AuthName(id: string): string { "acl-" + id + "-auth" }
  function IpName(id: string): string { "acl-" + id + "-ip" }

  const TOKEN_MW := "xgress-cache-token"
  const CONTENT := "xgress-content"
  const CHALLENGE := "acme-http-challenge"
  const NOOP := "noop"
  const NOOP_SERVICE := SingleUrl("http://127.0.0.1:1")

  // ---------------------------------------------------------------- lookups by id

  /** `mwByID` and `aclByID` keep the last row of an id. */
  function MiddlewareById(ms: seq<UserMiddleware>, id: string): Option<UserMiddleware> {
    if ms == [] then None
    else if ms[|ms| - 1].id == id then Some(ms[|ms| - 1]) else MiddlewareById(ms[..|ms| - 1], id)
  }

  function AccessListById(acls: seq<AccessList>, id: string): (r: Option<AccessList>)
    ensures r.Some? ==> r.value in acls && r.value.id == id
  {
    if acls == [] then None
    else if acls[|acls| - 1].id == id then Some(acls[|acls| - 1]) else AccessListById(acls[..|acls| - 1], id)
  }

  // ---------------------------------------------------------------- middleware chains

  function AccessListNames(ids: seq<string>, acls: seq<AccessList>): seq<string> {
    if ids == [] then []
    else
      var before := AccessListNames(ids[..|ids| - 1], acls);
      match AccessListById(acls, ids[|ids| - 1])
      case None => before
      case Some(a) =>
        before + (if |a.allowIps| > 0 then [IpName(a.id)] else []) + (if |a.users| > 0 then [AuthName(a.id)] else [])
  }

  function UserNames(ids: seq<string>, ms: seq<UserMiddleware>): seq<string> {
    if ids == [] then []
    else
      var before := UserNames(ids[..|ids| - 1], ms);
      match MiddlewareById(ms, ids[|ids| - 1])
      case None => before
      case Some(m) => before + [MwName(m.id)]
  }

  predicate HasCors(h: Host) { h.corsEnabled && |h.corsAllowOrigins| > 0 }

  function HstsName(id: string): string { RouterName(id) + "-hsts" }
  function CorsName(id: string): string { RouterName(id) + "-cors" }
  function ErrorsName(id: string): string { RouterName(id) + "-errors" }

  /** `collectMiddlewareNames`. */
  function CollectedNames(h: Host, ms: seq<UserMiddleware>): seq<string> {
    (if h.hsts then [HstsName(h.id)] else [])
    + (if HasCors(h) then [CorsName(h.id)] else [])
    + UserNames(h.middlewareIds, ms)
  }

  function CollectedMiddlewares(h: Host): map<string, Middleware> {
    (if h.hsts then map[HstsName(h.id) := Hsts] else map[])
    + (if HasCors(h) then map[CorsName(h.id) := Cors(h.corsAllowOrigins, h.corsAllowCredentials)] else map[])
  }

  function NonEmpty(ss: seq<string>): seq<string> {
    if ss == [] then []
    else if ss[|ss| - 1] != "" then NonEmpty(ss[..|ss| - 1]) + [ss[|ss| - 1]] else NonEmpty(ss[..|ss| - 1])
  }

  predicate HasErrorPages(h: Host, contentBackend: string) {
    contentBackend != "" && NonEmpty(h.errorStatuses) != []
  }

  /** `errorPagesMiddleware`. */
  function ErrorMiddlewares(h: Host, contentBackend: string): map<string, Middleware> {
    if HasErrorPages(h, contentBackend) then
      map[ErrorsName(h.id) := Errors(NonEmpty(h.errorStatuses), CONTENT, "/__xgress/error/" + h.id + "/{status}")]
    else map[]
  }

  function RawNames(id: string, names: seq<string>): seq<string> {
    if names == [] then [] else RawNames(id, names[..|names| - 1]) + [RawName(id, names[|names| - 1])]
  }

  function RawServices(id: string, names: seq<string>): map<string, Service> {
    if names == [] then map[] else RawServices(id, names[..|names| - 1])[RawName(id, names[|names| - 1]) := RawService]
  }

  function RawMiddlewares(id: string, names: seq<string>): map<string, Middleware> {
    if names == [] then map[]
    else RawMiddlewares(id, names[..|names| - 1])[RawName(id, names[|names| - 1]) := RawMiddleware]
  }

  function FragmentOf(h: Host): RawFragment {
    if h.raw.Some? then h.raw.value else RawFragment([], [])
  }

  /** The chain of a proxy host without the edge token: access lists, generated, error pages, raw. */
  function BaseChain(h: Host, inp: Inputs): seq<string> {
    AccessListNames(h.accessListIds, inp.accessLists)
    + CollectedNames(h, inp.middlewares)
    + (if HasErrorPages(h, inp.contentBackend) then [ErrorsName(h.id)] else [])
    + Ordering.Sort(RawNames(h.id, FragmentOf(h).middlewares))
  }

  predicate RoutesToEdge(h: Host, inp: Inputs) {
    inp.cacheBackend != "" && ((h.waf && inp.wafEnabled) || (h.cache && inp.cacheEnabled))
  }

  function Chain(h: Host, inp: Inputs): seq<string> {
    BaseChain(h, inp) + if RoutesToEdge(h, inp) && inp.cacheToken != "" then [TOKEN_MW] else []
  }

  // ---------------------------------------------------------------- services of a proxy host

  function GroupServices(h: Host, n: nat): map<string, Service>
    requires n <= |h.backendGroups|
  {
    if n == 0 then map[]
    else GroupServices(h, n - 1)[GroupName(h.id, n - 1) := Servers(h.backendGroups[n - 1].upstreams)]
  }

  function WeightedChildren(h: Host, n: nat): seq<Child>
    requires n <= |h.backendGroups|
  {
    if n == 0 then []
    else
      var w := h.backendGroups[n - 1].weight;
      WeightedChildren(h, n - 1) + [Child(GroupName(h.id, n - 1), if w <= 0 then 1 else w)]
  }

  function MirrorChildren(h: Host, n: nat): seq<Child>
    requires n <= |h.backendGroups|
  {
    if n <= 1 then []
    else MirrorChildren(h, n - 1) + [Child(GroupName(h.id, n - 1), h.backendGroups[n - 1].percent)]
  }

  function ComposedService(h: Host): Service
    requires h.backendGroups != []
  {
    if h.serviceMode == "weighted" then Weighted(WeightedChildren(h, |h.backendGroups|))
    else if h.serviceMode == "failover" then
      Failover(GroupName(h.id, 0), if |h.backendGroups| > 1 then GroupName(h.id, 1) else "")
    else if h.serviceMode == "mirroring" then
      Mirroring(GroupName(h.id, 0), MirrorChildren(h, |h.backendGroups|))
    else Servers(h.upstreams)
  }

  /** `buildHostService`. */
  function MainServices(h: Host, inp: Inputs): map<string, Service> {
    if RoutesToEdge(h, inp) then map[ServiceName(h.id) := SingleUrl(inp.cacheBackend)]
    else if h.serviceMode == "" || h.serviceMode == "single" || h.backendGroups == [] then
      map[ServiceName(h.id) := Servers(h.upstreams)]
    else GroupServices(h, |h.backendGroups|)[ServiceName(h.id) := ComposedService(h)]
  }

  // ---------------------------------------------------------------- locations of a proxy host

  predicate RendersLocation(h: Host, inp: Inputs, loc: Location) {
    !(h.waf && inp.wafEnabled) && loc.Usable()
  }

  /** Proxy hosts serve TLS in the three certificate modes. */
  predicate TlsOn(h: Host) { h.tls in {TlsAcme, TlsCustom, TlsExternal} }

  function EntryPoint(tls: bool, inp: Inputs): string { if tls then inp.httpsEntry else inp.httpEntry }

  function Entry(h: Host, inp: Inputs): string { EntryPoint(TlsOn(h), inp) }

  function LocRouter(h: Host, inp: Inputs, i: nat): Router
    requires i < |h.locations|
  {
    var loc := h.locations[i];
    Router("(" + RuleOf(h.domains) + ") && PathPrefix(`" + RuleQuote(loc.pathPrefix) + "`)",
           LocServiceName(h.id, i), [Entry(h, inp)],
           BaseChain(h, inp) + (if loc.stripPrefix then [StripName(h.id, i)] else []),
           1000 + |loc.pathPrefix|, TlsOn(h))
  }

  /** The parts that the first `n` locations add. */
  function LocParts(h: Host, inp: Inputs, n: nat): Cfg
    requires n <= |h.locations|
  {
    if n == 0 then Empty
    else
      var c, loc := LocParts(h, inp, n - 1), h.locations[n - 1];
      if !RendersLocation(h, inp, loc) then c
      else
        c.(services := c.services[LocServiceName(h.id, n - 1) := Servers(loc.upstreams)],
           middlewares := if loc.stripPrefix
             then c.middlewares[StripName(h.id, n - 1) := StripPrefix(loc.pathPrefix)] else c.middlewares,
           routers := c.routers[LocRouterName(h.id, n - 1) := LocRouter(h, inp, n - 1)])
  }

  // What one location adds to the parts of those before it.
  lemma LocPartsStep(h: Host, inp: Inputs, i: nat)
    requires i < |h.locations|
    ensures var (c, d, loc) := (LocParts(h, inp, i), LocParts(h, inp, i + 1), h.locations[i]);
            if !RendersLocation(h, inp, loc) then d == c
            else
              && d.services == c.services[LocServiceName(h.id, i) := Servers(loc.upstreams)]
              && d.routers == c.routers[LocRouterName(h.id, i) := LocRouter(h, inp, i)]
              && d.middlewares == if loc.stripPrefix
                                  then c.middlewares[StripName(h.id, i) := StripPrefix(loc.pathPrefix)]
                                  else c.middlewares
  {}

  lemma NoLocParts(h: Host, inp: Inputs)
    ensures LocParts(h, inp, 0) == Empty
  {}

  // ---------------------------------------------------------------- routers of a proxy host

  predicate SatisfiesAny(a: AccessList) { a.satisfyAny && |a.allowIps| > 0 && |a.users| > 0 }

  function BypassIps(ids: seq<string>, acls: seq<AccessList>): seq<string> {
    if ids == [] then []
    else
      var before := BypassIps(ids[..|ids| - 1], acls);
      match AccessListById(acls, ids[|ids| - 1])
      case Some(a) => if SatisfiesAny(a) then before + a.allowIps else before
      case None => before
  }

  function Dropped(ids: seq<string>, acls: seq<AccessList>): set<string> {
    if ids == [] then {}
    else
      var before := Dropped(ids[..|ids| - 1], acls);
      match AccessListById(acls, ids[|ids| - 1])
      case Some(a) => if SatisfiesAny(a) then before + {AuthName(a.id), IpName(a.id)} else before
      case None => before
  }

  function Without(mws: seq<string>, drop: set<string>): (r: seq<string>)
    ensures forall m :: m in r <==> m in mws && m !in drop
  {
    if mws == [] then []
    else if mws[|mws| - 1] in drop then Without(mws[..|mws| - 1], drop)
    else Without(mws[..|mws| - 1], drop) + [mws[|mws| - 1]]
  }

  function ClientIps(ips: seq<string>): seq<string> {
    if ips == [] then []
    else ClientIps(ips[..|ips| - 1]) + ["ClientIP(`" + RuleQuote(ips[|ips| - 1]) + "`)"]
  }

  function MainRouter(h: Host, inp: Inputs): Router {
    Router(RuleOf(h.domains), ServiceName(h.id), [Entry(h, inp)], Chain(h, inp), 0, TlsOn(h))
  }

  /** `addSatisfyAnyBypass`. */
  function TrustedRouters(h: Host, inp: Inputs): map<string, Router> {
    var ips := BypassIps(h.accessListIds, inp.accessLists);
    if ips == [] then map[]
    else map[RouterName(h.id) + "-trusted" :=
      Router("(" + RuleOf(h.domains) + ") && (" + Join(ClientIps(ips), OR) + ")", ServiceName(h.id), [Entry(h, inp)],
             Without(Chain(h, inp), Dropped(h.accessListIds, inp.accessLists)), 2000, TlsOn(h))]
  }

  const STATIC_ASSETS :=
    "\\.(?:js|mjs|css|png|jpe?g|gif|ico|svg|webp|avif|woff2?|ttf|eot|otf|mp4|webm|map)$"

  function CacheName(id: string): string { RouterName(id) + "-cache" }

  function StaticRouters(h: Host, inp: Inputs): map<string, Router> {
    if !h.cacheAssets then map[]
    else map[RouterName(h.id) + "-static" :=
      Router("(" + RuleOf(h.domains) + ") && PathRegexp(`" + STATIC_ASSETS + "`)", ServiceName(h.id), [Entry(h, inp)],
             Chain(h, inp) + [CacheName(h.id)], 900, TlsOn(h))]
  }

  function RedirectName(id: string): string { RouterName(id) + "-redirect-mw" }

  function PlainHttpRouters(h: Host, inp: Inputs): map<string, Router> {
    if TlsOn(h) && h.forceTls then
      map[RouterName(h.id) + "-http" :=
        Router(RuleOf(h.domains), ServiceName(h.id), [inp.httpEntry], [RedirectName(h.id)], 0, false)]
    else map[]
  }

  function CacheMiddlewares(h: Host): map<string, Middleware> {
    if h.cacheAssets then map[CacheName(h.id) := CacheControl] else map[]
  }

  function SchemeMiddlewares(h: Host): map<string, Middleware> {
    if TlsOn(h) && h.forceTls then map[RedirectName(h.id) := RedirectScheme] else map[]
  }

  /** Everything that `renderProxyHost` writes. */
  function ProxyParts(h: Host, inp: Inputs): Cfg {
    var locs := LocParts(h, inp, |h.locations|);
    Empty.(
      services := MainServices(h, inp) + RawServices(h.id, FragmentOf(h).services) + locs.services,
      middlewares := CollectedMiddlewares(h) + ErrorMiddlewares(h, inp.contentBackend)
        + RawMiddlewares(h.id, FragmentOf(h).middlewares) + CacheMiddlewares(h)
        + locs.middlewares + SchemeMiddlewares(h),
      routers := map[RouterName(h.id) := MainRouter(h, inp)] + TrustedRouters(h, inp) + StaticRouters(h, inp)
        + locs.routers + PlainHttpRouters(h, inp))
  }

  // ---------------------------------------------------------------- the other kinds of host

  function TrimRightSlashes(s: string): string {
    if s != "" && s[|s| - 1] == '/' then TrimRightSlashes(s[..|s| - 1]) else s
  }

  /**
   Everything that `renderRedirectionHost` writes, but for the shared noop service. Unlike a
   proxy host, a redirection host in no known TLS mode is served over TLS.
   */
  function RedirectionParts(h: Host, inp: Inputs): Cfg {
    var tls := h.tls != TlsNone;
    var code := if h.redirectCode == 0 then 308 else h.redirectCode;
    var name := RouterName(h.id) + "-redirect";
    var replacement := if h.redirectKeepPath then TrimRightSlashes(h.redirectTo) + "${1}" else h.redirectTo;
    Empty.(
      middlewares := map[name := RedirectRegex(replacement, code == 301 || code == 308)] + CollectedMiddlewares(h),
      routers := map[RouterName(h.id) :=
        Router(RuleOf(h.domains), NOOP, [EntryPoint(tls, inp)], [name] + CollectedNames(h, inp.middlewares), 0, tls)])
  }

  function DeadParts(h: Host, inp: Inputs): Cfg {
    Empty.(routers := map[RouterName(h.id) :=
      Router(RuleOf(h.domains), NOOP, [inp.httpEntry, inp.httpsEntry], [], 1, false)])
  }

  function SniParts(ds: seq<string>): seq<string> {
    if ds == [] then [] else SniParts(ds[..|ds| - 1]) + ["HostSNI(`" + RuleQuote(ds[|ds| - 1]) + "`)"]
  }

  /** Everything that `renderStreamHost` writes. */
  function StreamParts(h: Host): Cfg {
    if h.upstreams == [] || h.streamEntryPoint == "" then Empty
    else
      var service := StreamService(h.upstreams[0].host, h.upstreams[0].port);
      if ToLower(h.streamProto) == "udp" then
        Empty.(udpServices := map[ServiceName(h.id) := service],
               udpRouters := map[RouterName(h.id) := StreamRouter(h.streamEntryPoint, ServiceName(h.id), "", false)])
      else
        var rule := if h.domains == [] then "HostSNI(`*`)" else Join(SniParts(h.domains), OR);
        Empty.(tcpServices := map[ServiceName(h.id) := service],
               tcpRouters := map[RouterName(h.id) := StreamRouter(h.streamEntryPoint, ServiceName(h.id), rule,
                                                                  h.tlsPassthrough && h.domains != [])])
  }

  /** The noop service is defined once, by the first host that needs it. */
  function WithNoop(c: Cfg): Cfg {
    if NOOP in c.services then c else c.(services := c.services[NOOP := NOOP_SERVICE])
  }

  function AddHost(c: Cfg, h: Host, inp: Inputs): Cfg {
    if !h.enabled then c
    else match h.kind
      case Proxy => Over(c, ProxyParts(h, inp))
      case Redirection => Over(WithNoop(c), RedirectionParts(h, inp))
      case Dead => Over(WithNoop(c), DeadParts(h, inp))
      case Stream => Over(c, StreamParts(h))
  }

  function AddHosts(c: Cfg, hosts: seq<Host>, inp: Inputs): Cfg {
    if hosts == [] then c else AddHost(AddHosts(c, hosts[..|hosts| - 1], inp), hosts[|hosts| - 1], inp)
  }

  // ---------------------------------------------------------------- the shared parts

  function UserMiddlewares(ms: seq<UserMiddleware>): map<string, Middleware> {
    if ms == [] then map[]
    else UserMiddlewares(ms[..|ms| - 1])[MwName(ms[|ms| - 1].id) := UserDefined(ms[|ms| - 1].id)]
  }

  function Credentials(us: seq<AccessUser>): seq<string> {
    if us == [] then []
    else
      var u := us[|us| - 1];
      if u.Valid() then Credentials(us[..|us| - 1]) + [u.username + ":" + u.hash] else Credentials(us[..|us| - 1])
  }

  function AccessListMiddlewares(acls: seq<AccessList>): map<string, Middleware> {
    if acls == [] then map[]
    else
      var m, a := AccessListMiddlewares(acls[..|acls| - 1]), acls[|acls| - 1];
      var m1 := if Credentials(a.users) != [] then m[AuthName(a.id) := BasicAuth(Credentials(a.users))] else m;
      if |a.allowIps| > 0 then m1[IpName(a.id) := IpAllowList(a.allowIps)] else m1
  }

  predicate EdgeIsGated(inp: Inputs) {
    inp.cacheBackend != "" && inp.cacheToken != "" && (inp.cacheEnabled || inp.wafEnabled)
  }

  /** What `Render` writes before the hosts. */
  function BaseParts(inp: Inputs): Cfg {
    Empty.(
      services := (if inp.challengeBackend != "" then map[CHALLENGE := SingleUrl(inp.challengeBackend)] else map[])
        + (if inp.contentBackend != "" then map[CONTENT := SingleUrl(inp.contentBackend)] else map[]),
      routers := if inp.challengeBackend != "" then
          map[CHALLENGE := Router("PathPrefix(`/.well-known/acme-challenge/`)", CHALLENGE, [inp.httpEntry], [],
            1000000, false)]
        else map[],
      middlewares := UserMiddlewares(inp.middlewares) + AccessListMiddlewares(inp.accessLists)
        + if EdgeIsGated(inp) then map[TOKEN_MW := TokenHeader(inp.cacheToken)] else map[])
  }

  const DEFAULT_PATH := "xgress-default-path"
  const BANNED_PATH := "xgress-banned-path"

  function DefaultParts(inp: Inputs): Cfg {
    if !inp.defaultSite || inp.contentBackend == "" then Empty
    else Empty.(
      middlewares := map[DEFAULT_PATH := ReplacePath("/__xgress/default")],
      routers := map[
        "xgress-default-site-http" := Router(ANY_HOST, CONTENT, [inp.httpEntry], [DEFAULT_PATH], 1, false),
        "xgress-default-site-https" := Router(ANY_HOST, CONTENT, [inp.httpsEntry], [DEFAULT_PATH], 1, true)])
  }

  function QuotedIps(ips: seq<string>): seq<string> {
    if ips == [] then [] else QuotedIps(ips[..|ips| - 1]) + ["`" + RuleQuote(ips[|ips| - 1]) + "`"]
  }

  function BannedParts(inp: Inputs): Cfg {
    if inp.bannedIps == [] || inp.contentBackend == "" then Empty
    else
      var rule := "(ClientIP(" + Join(QuotedIps(inp.bannedIps), ", ") + ")) && " + ANY_HOST;
      Empty.(
        middlewares := map[BANNED_PATH := ReplacePath("/__xgress/banned")],
        routers := map[
          "xgress-banned-http" := Router(rule, CONTENT, [inp.httpEntry], [BANNED_PATH], 2000000, false),
          "xgress-banned-https" := Router(rule, CONTENT, [inp.httpsEntry], [BANNED_PATH], 2000000, true)])
  }

  /** The whole rendered configuration. */
  function Rendered(inp: Inputs): Cfg {
    Over(Over(AddHosts(BaseParts(inp), inp.hosts, inp), DefaultParts(inp)), BannedParts(inp))
  }
}

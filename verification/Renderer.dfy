/**
 The render functions of internal/traefikcfg/render.go, which write into the maps of one
 configuration.

 Each method is proved to write exactly what the functions of RenderSpec say, and the
 configuration that `Render` returns to be closed and gated as RenderClosure and RenderOutput
 prove it of those functions.
 */
module Renderer {
  import opened Options
  import opened Text
  import opened Hosts
  import opened HostRule
  import opened RenderSpec
  import opened RenderClosure
  import opened RenderOutput
  import Ordering

  lemma PutOver<V>(a: map<string, V>, b: map<string, V>, k: string, v: V)
    ensures (a + b)[k := v] == a + b[k := v]
  {}

  lemma PlusEmpty<V>(m: map<string, V>)
    ensures m + map[] == m
  {}

  lemma PlusOne<V>(m: map<string, V>, k: string, v: V)
    ensures m + map[k := v] == m[k := v]
  {}

  lemma PlusTwo<V>(m: map<string, V>, k: string, v: V, l: string, w: V)
    ensures m + map[k := v, l := w] == m[k := v][l := w]
  {}

  // Parts of one protocol leave the maps of the others alone.
  lemma OverHttp(c: Cfg, r: map<string, Router>, s: map<string, Service>, m: map<string, Middleware>)
    ensures Over(c, Empty.(routers := r, services := s, middlewares := m))
         == c.(routers := c.routers + r, services := c.services + s, middlewares := c.middlewares + m)
  {
    PlusEmpty(c.tcpRouters);
    PlusEmpty(c.tcpServices);
    PlusEmpty(c.udpRouters);
    PlusEmpty(c.udpServices);
  }

  lemma OverTcp(c: Cfg, r: map<string, StreamRouter>, s: map<string, StreamService>)
    ensures Over(c, Empty.(tcpRouters := r, tcpServices := s))
         == c.(tcpRouters := c.tcpRouters + r, tcpServices := c.tcpServices + s)
  {
    PlusEmpty(c.routers);
    PlusEmpty(c.services);
    PlusEmpty(c.middlewares);
    PlusEmpty(c.udpRouters);
    PlusEmpty(c.udpServices);
  }

  lemma OverUdp(c: Cfg, r: map<string, StreamRouter>, s: map<string, StreamService>)
    ensures Over(c, Empty.(udpRouters := r, udpServices := s))
         == c.(udpRouters := c.udpRouters + r, udpServices := c.udpServices + s)
  {
    PlusEmpty(c.routers);
    PlusEmpty(c.services);
    PlusEmpty(c.middlewares);
    PlusEmpty(c.tcpRouters);
    PlusEmpty(c.tcpServices);
  }

  lemma OverNothing(c: Cfg)
    ensures Over(c, Empty) == c
  {
    OverHttp(c, map[], map[], map[]);
    PlusEmpty(c.routers);
    PlusEmpty(c.services);
    PlusEmpty(c.middlewares);
  }

  lemma Assoc<V>(a: map<string, V>, b: map<string, V>, c: map<string, V>)
    ensures (a + b) + c == a + (b + c)
  {}

  class Configuration {
    var routers: map<string, Router>
    var services: map<string, Service>
    var middlewares: map<string, Middleware>
    var tcpRouters: map<string, StreamRouter>
    var tcpServices: map<string, StreamService>
    var udpRouters: map<string, StreamRouter>
    var udpServices: map<string, StreamService>

    function View(): Cfg
      reads this
    {
      Cfg(routers, services, middlewares, tcpRouters, tcpServices, udpRouters, udpServices)
    }

    constructor ()
      ensures View() == Empty
    {
      routers, services, middlewares := map[], map[], map[];
      tcpRouters, tcpServices, udpRouters, udpServices := map[], map[], map[], map[];
    }

    /** `buildHostService`. */
    method BuildHostService(h: Host, inp: Inputs)
      modifies this`services
      ensures services == old(services) + MainServices(h, inp)
    {
      if RoutesToEdge(h, inp) {
        services := services[ServiceName(h.id) := SingleUrl(inp.cacheBackend)];
        return;
      }
      if h.serviceMode == "" || h.serviceMode == "single" || |h.backendGroups| == 0 {
        services := services[ServiceName(h.id) := Servers(h.upstreams)];
        return;
      }
      var groups := |h.backendGroups|;
      for i := 0 to groups
        invariant services == old(services) + GroupServices(h, i)
      {
        PutOver(old(services), GroupServices(h, i), GroupName(h.id, i), Servers(h.backendGroups[i].upstreams));
        services := services[GroupName(h.id, i) := Servers(h.backendGroups[i].upstreams)];
      }
      var composed := Compose(h);
      PutOver(old(services), GroupServices(h, groups), ServiceName(h.id), composed);
      services := services[ServiceName(h.id) := composed];
    }

    /** The switch of `buildHostService` over the composition mode. */
    method Compose(h: Host) returns (composed: Service)
      requires h.backendGroups != []
      ensures composed == ComposedService(h)
    {
      var groups := |h.backendGroups|;
      composed := Servers(h.upstreams);
      if h.serviceMode == "weighted" {
        var children := [];
        for i := 0 to groups
          invariant children == WeightedChildren(h, i)
        {
          var w := h.backendGroups[i].weight;
          if w <= 0 {
            w := 1;
          }
          children := children + [Child(GroupName(h.id, i), w)];
        }
        composed := Weighted(children);
      } else if h.serviceMode == "failover" {
        composed := Failover(GroupName(h.id, 0), if groups > 1 then GroupName(h.id, 1) else "");
      } else if h.serviceMode == "mirroring" {
        var mirrors := [];
        for i := 1 to groups
          invariant mirrors == MirrorChildren(h, i)
        {
          mirrors := mirrors + [Child(GroupName(h.id, i), h.backendGroups[i].percent)];
        }
        composed := Mirroring(GroupName(h.id, 0), mirrors);
      }
    }

    /** `collectMiddlewareNames`. */
    method CollectMiddlewareNames(h: Host, inp: Inputs) returns (names: seq<string>)
      modifies this`middlewares
      ensures names == CollectedNames(h, inp.middlewares)
      ensures middlewares == old(middlewares) + CollectedMiddlewares(h)
    {
      names := [];
      if h.hsts {
        middlewares := middlewares[HstsName(h.id) := Hsts];
        names := names + [HstsName(h.id)];
      }
      if h.corsEnabled && |h.corsAllowOrigins| > 0 {
        middlewares := middlewares[CorsName(h.id) := Cors(h.corsAllowOrigins, h.corsAllowCredentials)];
        names := names + [CorsName(h.id)];
      }
      ghost var generated := names;
      for i := 0 to |h.middlewareIds|
        invariant names == generated + UserNames(h.middlewareIds[..i], inp.middlewares)
      {
        assert h.middlewareIds[..i + 1][..i] == h.middlewareIds[..i];
        var m := MiddlewareById(inp.middlewares, h.middlewareIds[i]);
        if m.Some? {
          names := names + [MwName(m.value.id)];
        }
      }
      assert h.middlewareIds[..|h.middlewareIds|] == h.middlewareIds;
    }

    /** `accessListMiddlewares`. */
    method AccessLists(h: Host, inp: Inputs) returns (names: seq<string>)
      ensures names == AccessListNames(h.accessListIds, inp.accessLists)
    {
      names := [];
      for i := 0 to |h.accessListIds|
        invariant names == AccessListNames(h.accessListIds[..i], inp.accessLists)
      {
        assert h.accessListIds[..i + 1][..i] == h.accessListIds[..i];
        var a := AccessListById(inp.accessLists, h.accessListIds[i]);
        if a.None? {
          continue;
        }
        if |a.value.allowIps| > 0 {
          names := names + [IpName(a.value.id)];
        }
        if |a.value.users| > 0 {
          names := names + [AuthName(a.value.id)];
        }
      }
      assert h.accessListIds[..|h.accessListIds|] == h.accessListIds;
    }

    /** `errorPagesMiddleware`; the name is empty when the host has no error pages. */
    method ErrorPages(h: Host, contentBackend: string) returns (name: string)
      modifies this`middlewares
      ensures name == if HasErrorPages(h, contentBackend) then ErrorsName(h.id) else ""
      ensures middlewares == old(middlewares) + ErrorMiddlewares(h, contentBackend)
    {
      if |h.errorStatuses| == 0 || contentBackend == "" {
        return "";
      }
      var statuses := [];
      for i := 0 to |h.errorStatuses|
        invariant statuses == NonEmpty(h.errorStatuses[..i])
      {
        assert h.errorStatuses[..i + 1][..i] == h.errorStatuses[..i];
        if h.errorStatuses[i] != "" {
          statuses := statuses + [h.errorStatuses[i]];
        }
      }
      assert h.errorStatuses[..|h.errorStatuses|] == h.errorStatuses;
      if |statuses| == 0 {
        return "";
      }
      name := ErrorsName(h.id);
      middlewares := middlewares[name := Errors(statuses, CONTENT, "/__xgress/error/" + h.id + "/{status}")];
    }

    /** `perHostRawMiddlewares`: the fragment under the host's names; its middlewares get attached. */
    method PerHostRaw(h: Host) returns (attach: seq<string>)
      modifies this`middlewares, this`services
      ensures attach == Ordering.Sort(RawNames(h.id, FragmentOf(h).middlewares))
      ensures services == old(services) + RawServices(h.id, FragmentOf(h).services)
      ensures middlewares == old(middlewares) + RawMiddlewares(h.id, FragmentOf(h).middlewares)
    {
      var frag := FragmentOf(h);
      for i := 0 to |frag.services|
        invariant services == old(services) + RawServices(h.id, frag.services[..i]) && middlewares == old(middlewares)
      {
        assert frag.services[..i + 1][..i] == frag.services[..i];
        PutOver(old(services), RawServices(h.id, frag.services[..i]), RawName(h.id, frag.services[i]), RawService);
        services := services[RawName(h.id, frag.services[i]) := RawService];
      }
      assert frag.services[..|frag.services|] == frag.services;
      attach := [];
      for i := 0 to |frag.middlewares|
        invariant attach == RawNames(h.id, frag.middlewares[..i])
        invariant services == old(services) + RawServices(h.id, frag.services)
        invariant middlewares == old(middlewares) + RawMiddlewares(h.id, frag.middlewares[..i])
      {
        assert frag.middlewares[..i + 1][..i] == frag.middlewares[..i];
        PutOver(old(middlewares), RawMiddlewares(h.id, frag.middlewares[..i]),
                RawName(h.id, frag.middlewares[i]), RawMiddleware);
        middlewares := middlewares[RawName(h.id, frag.middlewares[i]) := RawMiddleware];
        attach := attach + [RawName(h.id, frag.middlewares[i])];
      }
      assert frag.middlewares[..|frag.middlewares|] == frag.middlewares;
      attach := Ordering.Sort(attach);
    }

    /** `addSatisfyAnyBypass`. */
    method AddSatisfyAnyBypass(h: Host, inp: Inputs, mws: seq<string>)
      requires mws == Chain(h, inp)
      modifies this`routers
      ensures routers == old(routers) + TrustedRouters(h, inp)
    {
      hide Chain, RuleOf, Entry;
      var bypass: seq<string>, drop: set<string> := [], {};
      for i := 0 to |h.accessListIds|
        invariant bypass == BypassIps(h.accessListIds[..i], inp.accessLists)
        invariant drop == Dropped(h.accessListIds[..i], inp.accessLists)
      {
        assert h.accessListIds[..i + 1][..i] == h.accessListIds[..i];
        var a := AccessListById(inp.accessLists, h.accessListIds[i]);
        if a.None? || !a.value.satisfyAny || |a.value.allowIps| == 0 || |a.value.users| == 0 {
          continue;
        }
        bypass := bypass + a.value.allowIps;
        drop := drop + {AuthName(a.value.id), IpName(a.value.id)};
      }
      assert h.accessListIds[..|h.accessListIds|] == h.accessListIds;
      if |bypass| == 0 {
        return;
      }
      var keep := [];
      for i := 0 to |mws|
        invariant keep == Without(mws[..i], drop)
      {
        assert mws[..i + 1][..i] == mws[..i];
        if mws[i] !in drop {
          keep := keep + [mws[i]];
        }
      }
      assert mws[..|mws|] == mws;
      routers := routers[RouterName(h.id) + "-trusted" :=
        Router("(" + RuleOf(h.domains) + ") && (" + Join(ClientIps(bypass), OR) + ")", ServiceName(h.id),
               [Entry(h, inp)], keep, 2000, TlsOn(h))];
    }

    /** The location loop of `renderProxyHost`. */
    method RenderLocations(h: Host, inp: Inputs, base: seq<string>)
      requires base == BaseChain(h, inp)
      modifies this`routers, this`services, this`middlewares
      ensures var locs := LocParts(h, inp, |h.locations|);
              && routers == old(routers) + locs.routers && services == old(services) + locs.services
              && middlewares == old(middlewares) + locs.middlewares
    {
      hide BaseChain, RuleOf, Entry, LocParts, LocRouterName, LocServiceName, StripName;
      assert LocParts(h, inp, 0) == Empty by { NoLocParts(h, inp); }
      for i := 0 to |h.locations|
        invariant routers == old(routers) + LocParts(h, inp, i).routers
        invariant services == old(services) + LocParts(h, inp, i).services
        invariant middlewares == old(middlewares) + LocParts(h, inp, i).middlewares
      {
        LocPartsStep(h, inp, i);
        ghost var c, d := LocParts(h, inp, i), LocParts(h, inp, i + 1);
        var loc := h.locations[i];
        if (h.waf && inp.wafEnabled) || loc.pathPrefix == "" || |loc.upstreams| == 0 {
          continue;
        }
        PutOver(old(services), c.services, LocServiceName(h.id, i), Servers(loc.upstreams));
        PutOver(old(middlewares), c.middlewares, StripName(h.id, i), StripPrefix(loc.pathPrefix));
        PutOver(old(routers), c.routers, LocRouterName(h.id, i), LocRouter(h, inp, i));
        services := services[LocServiceName(h.id, i) := Servers(loc.upstreams)];
        var mws := base;
        assert base + [] == base;
        if loc.stripPrefix {
          middlewares := middlewares[StripName(h.id, i) := StripPrefix(loc.pathPrefix)];
          mws := mws + [StripName(h.id, i)];
        }
        routers := routers[LocRouterName(h.id, i) :=
          Router("(" + RuleOf(h.domains) + ") && PathPrefix(`" + RuleQuote(loc.pathPrefix) + "`)",
                 LocServiceName(h.id, i), [Entry(h, inp)], mws, 1000 + |loc.pathPrefix|, TlsOn(h))];
      }
    }

    /** The middleware chain of a proxy host, with the middlewares generated on the way. */
    method BuildChain(h: Host, inp: Inputs) returns (mws: seq<string>)
      modifies this`middlewares, this`services
      ensures mws == BaseChain(h, inp)
      ensures services == old(services) + RawServices(h.id, FragmentOf(h).services)
      ensures middlewares == old(middlewares) + CollectedMiddlewares(h) + ErrorMiddlewares(h, inp.contentBackend)
                             + RawMiddlewares(h.id, FragmentOf(h).middlewares)
    {
      hide AccessListNames, CollectedNames, CollectedMiddlewares, ErrorMiddlewares, RawMiddlewares, RawServices,
           RawNames;
      mws := AccessLists(h, inp);
      var collected := CollectMiddlewareNames(h, inp);
      mws := mws + collected;
      var epName := ErrorPages(h, inp.contentBackend);
      if epName != "" {
        mws := mws + [epName];
      }
      var attach := PerHostRaw(h);
      mws := mws + attach;
    }

    /** The static-asset router of `renderProxyHost`. */
    method RenderStaticAssets(h: Host, inp: Inputs, mws: seq<string>)
      requires mws == Chain(h, inp)
      modifies this`routers, this`middlewares
      ensures routers == old(routers) + StaticRouters(h, inp)
      ensures middlewares == old(middlewares) + CacheMiddlewares(h)
    {
      hide Chain, RuleOf, Entry;
      if h.cacheAssets {
        middlewares := middlewares[CacheName(h.id) := CacheControl];
        routers := routers[RouterName(h.id) + "-static" :=
          Router("(" + RuleOf(h.domains) + ") && PathRegexp(`" + STATIC_ASSETS + "`)", ServiceName(h.id),
                 [Entry(h, inp)], mws + [CacheName(h.id)], 900, TlsOn(h))];
      }
    }

    /** The redirect from HTTP of `renderProxyHost`. */
    method RenderForceTls(h: Host, inp: Inputs)
      modifies this`routers, this`middlewares
      ensures routers == old(routers) + PlainHttpRouters(h, inp)
      ensures middlewares == old(middlewares) + SchemeMiddlewares(h)
    {
      hide RuleOf;
      if TlsOn(h) && h.forceTls {
        middlewares := middlewares[RedirectName(h.id) := RedirectScheme];
        routers := routers[RouterName(h.id) + "-http" :=
          Router(RuleOf(h.domains), ServiceName(h.id), [inp.httpEntry], [RedirectName(h.id)], 0, false)];
      }
    }

    /** `renderProxyHost`. */
    method RenderProxyHost(h: Host, inp: Inputs)
      modifies this
      ensures View() == Over(old(View()), ProxyParts(h, inp))
    {
      hide MainServices, RawServices, RawMiddlewares, CollectedMiddlewares, ErrorMiddlewares, LocParts,
           TrustedRouters, StaticRouters, PlainHttpRouters, CacheMiddlewares, SchemeMiddlewares, BaseChain,
           MainRouter, RoutesToEdge, Over, ProxyParts;
      ghost var was := View();
      BuildHostService(h, inp);
      var base := BuildChain(h, inp);
      var mws := base;
      if RoutesToEdge(h, inp) && inp.cacheToken != "" {
        mws := mws + [TOKEN_MW];
      }
      assert mws == Chain(h, inp);
      RenderRouters(h, inp, base, mws);
      ProxyPartsSum(was, h, inp);
    }

    // The router half of `renderProxyHost`.
    method RenderRouters(h: Host, inp: Inputs, base: seq<string>, mws: seq<string>)
      requires base == BaseChain(h, inp) && mws == Chain(h, inp)
      modifies this`routers, this`services, this`middlewares
      ensures services == old(services) + LocParts(h, inp, |h.locations|).services
      ensures middlewares == old(middlewares) + CacheMiddlewares(h) + LocParts(h, inp, |h.locations|).middlewares
                             + SchemeMiddlewares(h)
      ensures routers == old(routers) + map[RouterName(h.id) := MainRouter(h, inp)] + TrustedRouters(h, inp)
                         + StaticRouters(h, inp) + LocParts(h, inp, |h.locations|).routers + PlainHttpRouters(h, inp)
    {
      hide LocParts, TrustedRouters, StaticRouters, PlainHttpRouters, CacheMiddlewares, SchemeMiddlewares, BaseChain,
           Chain, MainRouter, RouterName;
      PutMainRouter(h, inp, mws);
      AddSatisfyAnyBypass(h, inp, mws);
      RenderStaticAssets(h, inp, mws);
      RenderLocations(h, inp, base);
      RenderForceTls(h, inp);
    }

    method PutMainRouter(h: Host, inp: Inputs, mws: seq<string>)
      requires mws == Chain(h, inp)
      modifies this`routers
      ensures routers == old(routers) + map[RouterName(h.id) := MainRouter(h, inp)]
    {
      hide Chain, RuleOf, Entry;
      routers := routers[RouterName(h.id) :=
        Router(RuleOf(h.domains), ServiceName(h.id), [Entry(h, inp)], mws, 0, TlsOn(h))];
    }

    /** `renderRedirectionHost`. */
    method RenderRedirectionHost(h: Host, inp: Inputs)
      modifies this
      ensures View() == Over(WithNoop(old(View())), RedirectionParts(h, inp))
    {
      hide CollectedNames, CollectedMiddlewares, RuleOf, TrimRightSlashes, Over;
      var code := h.redirectCode;
      if code == 0 {
        code := 308;
      }
      var name := RouterName(h.id) + "-redirect";
      var replacement := h.redirectTo;
      if h.redirectKeepPath {
        replacement := TrimRightSlashes(h.redirectTo) + "${1}";
      }
      var redirect := RedirectRegex(replacement, code == 301 || code == 308);
      ghost var was := View();
      middlewares := middlewares[name := redirect];
      DefineNoop();
      var collected := CollectMiddlewareNames(h, inp);
      var tls := h.tls != TlsNone;
      var router := Router(RuleOf(h.domains), NOOP, [EntryPoint(tls, inp)], [name] + collected, 0, tls);
      routers := routers[RouterName(h.id) := router];
      PlusOne(was.middlewares, name, redirect);
      Assoc(was.middlewares, map[name := redirect], CollectedMiddlewares(h));
      PlusOne(was.routers, RouterName(h.id), router);
      PlusEmpty(services);
      OverHttp(WithNoop(was), map[RouterName(h.id) := router], map[],
               map[name := redirect] + CollectedMiddlewares(h));
    }

    method DefineNoop()
      modifies this`services
      ensures View() == WithNoop(old(View()))
    {
      if NOOP !in services {
        services := services[NOOP := NOOP_SERVICE];
      }
    }

    /** `renderDeadHost`. */
    method RenderDeadHost(h: Host, inp: Inputs)
      modifies this
      ensures View() == Over(WithNoop(old(View())), DeadParts(h, inp))
    {
      hide Over, RuleOf;
      DefineNoop();
      ghost var was := View();
      var router := Router(RuleOf(h.domains), NOOP, [inp.httpEntry, inp.httpsEntry], [], 1, false);
      routers := routers[RouterName(h.id) := router];
      PlusOne(was.routers, RouterName(h.id), router);
      PlusEmpty(services);
      PlusEmpty(middlewares);
      OverHttp(was, map[RouterName(h.id) := router], map[], map[]);
    }

    method PutTcp(name: string, router: StreamRouter, svc: string, service: StreamService)
      modifies this`tcpRouters, this`tcpServices
      ensures View() == Over(old(View()), Empty.(tcpRouters := map[name := router], tcpServices := map[svc := service]))
    {
      hide Over;
      ghost var was := View();
      tcpServices := tcpServices[svc := service];
      tcpRouters := tcpRouters[name := router];
      PlusOne(was.tcpServices, svc, service);
      PlusOne(was.tcpRouters, name, router);
      OverTcp(was, map[name := router], map[svc := service]);
    }

    method PutUdp(name: string, router: StreamRouter, svc: string, service: StreamService)
      modifies this`udpRouters, this`udpServices
      ensures View() == Over(old(View()), Empty.(udpRouters := map[name := router], udpServices := map[svc := service]))
    {
      hide Over;
      ghost var was := View();
      udpServices := udpServices[svc := service];
      udpRouters := udpRouters[name := router];
      PlusOne(was.udpServices, svc, service);
      PlusOne(was.udpRouters, name, router);
      OverUdp(was, map[name := router], map[svc := service]);
    }

    /** `renderStreamHost`. */
    method RenderStreamHost(h: Host)
      modifies this
      ensures View() == Over(old(View()), StreamParts(h))
    {
      hide Over, SniParts, ToLower, View;
      if |h.upstreams| == 0 || h.streamEntryPoint == "" {
        OverNothing(View());
        return;
      }
      var service := StreamService(h.upstreams[0].host, h.upstreams[0].port);
      if ToLower(h.streamProto) == "udp" {
        PutUdp(RouterName(h.id), StreamRouter(h.streamEntryPoint, ServiceName(h.id), "", false), ServiceName(h.id),
          service);
        return;
      }
      var rule := "HostSNI(`*`)";
      if |h.domains| > 0 {
        rule := Join(SniParts(h.domains), OR);
      }
      var router := StreamRouter(h.streamEntryPoint, ServiceName(h.id), rule, h.tlsPassthrough && |h.domains| > 0);
      PutTcp(RouterName(h.id), router, ServiceName(h.id), service);
    }

    /** The switch over the kinds of host. */
    method RenderHost(h: Host, inp: Inputs)
      modifies this
      ensures View() == AddHost(old(View()), h, inp)
    {
      hide Over, ProxyParts, RedirectionParts, DeadParts, StreamParts, WithNoop;
      if !h.enabled {
        return;
      }
      match h.kind
      case Proxy => RenderProxyHost(h, inp);
      case Redirection => RenderRedirectionHost(h, inp);
      case Stream => RenderStreamHost(h);
      case Dead => RenderDeadHost(h, inp);
    }

    /** The user middlewares of `Render`. */
    method RenderUserMiddlewares(inp: Inputs)
      requires middlewares == map[]
      modifies this`middlewares
      ensures middlewares == UserMiddlewares(inp.middlewares)
    {
      for i := 0 to |inp.middlewares|
        invariant middlewares == UserMiddlewares(inp.middlewares[..i])
      {
        assert inp.middlewares[..i + 1][..i] == inp.middlewares[..i];
        middlewares := middlewares[MwName(inp.middlewares[i].id) := UserDefined(inp.middlewares[i].id)];
      }
      assert inp.middlewares[..|inp.middlewares|] == inp.middlewares;
    }

    /** What `Render` writes before the hosts. */
    method RenderBase(inp: Inputs)
      requires View() == Empty
      modifies this
      ensures View() == BaseParts(inp)
    {
      hide UserMiddlewares, AccessListMiddlewares;
      if inp.challengeBackend != "" {
        services := services[CHALLENGE := SingleUrl(inp.challengeBackend)];
        routers := routers[CHALLENGE :=
          Router("PathPrefix(`/.well-known/acme-challenge/`)", CHALLENGE, [inp.httpEntry], [], 1000000, false)];
      }
      RenderUserMiddlewares(inp);
      RenderAccessLists(inp);
      ghost var shared := middlewares;
      if inp.cacheBackend != "" && inp.cacheToken != "" && (inp.cacheEnabled || inp.wafEnabled) {
        middlewares := middlewares[TOKEN_MW := TokenHeader(inp.cacheToken)];
      }
      PlusEmpty(shared);
      PlusOne(shared, TOKEN_MW, TokenHeader(inp.cacheToken));
      ghost var before := services;
      if inp.contentBackend != "" {
        services := services[CONTENT := SingleUrl(inp.contentBackend)];
      }
      PlusEmpty(before);
      PlusOne(before, CONTENT, SingleUrl(inp.contentBackend));
    }

    /** The access-list loop of `Render`. */
    method RenderAccessLists(inp: Inputs)
      modifies this`middlewares
      ensures middlewares == old(middlewares) + AccessListMiddlewares(inp.accessLists)
    {
      hide AuthName, IpName;
      var acls := inp.accessLists;
      for i := 0 to |acls|
        invariant middlewares == old(middlewares) + AccessListMiddlewares(acls[..i])
      {
        assert acls[..i + 1][..i] == acls[..i];
        var a := acls[i];
        var users := UsersOf(a);
        ghost var m := AccessListMiddlewares(acls[..i]);
        ghost var m1 := if users != [] then m[AuthName(a.id) := BasicAuth(users)] else m;
        PutOver(old(middlewares), m, AuthName(a.id), BasicAuth(users));
        PutOver(old(middlewares), m1, IpName(a.id), IpAllowList(a.allowIps));
        if |users| > 0 {
          middlewares := middlewares[AuthName(a.id) := BasicAuth(users)];
        }
        if |a.allowIps| > 0 {
          middlewares := middlewares[IpName(a.id) := IpAllowList(a.allowIps)];
        }
      }
      assert acls[..|acls|] == acls;
    }

    method UsersOf(a: AccessList) returns (users: seq<string>)
      ensures users == Credentials(a.users)
    {
      users := [];
      for i := 0 to |a.users|
        invariant users == Credentials(a.users[..i])
      {
        assert a.users[..i + 1][..i] == a.users[..i];
        var u := a.users[i];
        if u.username != "" && u.hash != "" {
          users := users + [u.username + ":" + u.hash];
        }
      }
      assert a.users[..|a.users|] == a.users;
    }

    // A path middleware and two routers, one for each entry point.
    method PutCatchAll(path: string, mw: Middleware, name0: string, r0: Router, name1: string, r1: Router)
      modifies this`routers, this`middlewares
      ensures View() == Over(old(View()),
          Empty.(middlewares := map[path := mw], routers := map[name0 := r0, name1 := r1]))
    {
      hide Over;
      ghost var was := View();
      middlewares := middlewares[path := mw];
      routers := routers[name0 := r0];
      routers := routers[name1 := r1];
      PlusOne(was.middlewares, path, mw);
      PlusTwo(was.routers, name0, r0, name1, r1);
      PlusEmpty(services);
      OverHttp(was, map[name0 := r0, name1 := r1], map[], map[path := mw]);
    }

    /** The default site. */
    method RenderDefaultSite(inp: Inputs)
      modifies this
      ensures View() == Over(old(View()), DefaultParts(inp))
    {
      hide Over;
      if !inp.defaultSite || inp.contentBackend == "" {
        OverNothing(View());
        return;
      }
      PutCatchAll(DEFAULT_PATH, ReplacePath("/__xgress/default"),
                  "xgress-default-site-http", Router(ANY_HOST, CONTENT, [inp.httpEntry], [DEFAULT_PATH], 1, false),
                  "xgress-default-site-https", Router(ANY_HOST, CONTENT, [inp.httpsEntry], [DEFAULT_PATH], 1, true));
    }

    /** The ban routers. */
    method RenderBans(inp: Inputs)
      modifies this
      ensures View() == Over(old(View()), BannedParts(inp))
    {
      hide Over, QuotedIps;
      if |inp.bannedIps| == 0 || inp.contentBackend == "" {
        OverNothing(View());
        return;
      }
      var rule := "(ClientIP(" + Join(QuotedIps(inp.bannedIps), ", ") + ")) && " + ANY_HOST;
      PutCatchAll(BANNED_PATH, ReplacePath("/__xgress/banned"),
                  "xgress-banned-http", Router(rule, CONTENT, [inp.httpEntry], [BANNED_PATH], 2000000, false),
                  "xgress-banned-https", Router(rule, CONTENT, [inp.httpsEntry], [BANNED_PATH], 2000000, true));
    }
  }

  /**
   `Render`: nothing when a middleware does not build, else the whole configuration. It is closed
   under reference when the access lists resolve, and with prefix-free ids only then; and every
   proxy host in it is gated by its access lists and the edge's token.
   */
  method Render(inp: Inputs) returns (cfg: Configuration?)
    ensures cfg == null <==> exists m :: m in inp.middlewares && !m.builds
    ensures cfg != null ==> fresh(cfg) && cfg.View() == Rendered(inp)
    ensures cfg != null && AclsResolve(inp) ==> Closed(cfg.View())
    ensures cfg != null && IdsPrefixFree(inp.hosts) ==>
        (Closed(cfg.View()) <==> AclsResolve(inp)) && Gated(cfg.View(), inp)
  {
    hide BaseParts, AddHost, DefaultParts, BannedParts, Over, Closed, AclsResolve, IdsPrefixFree, Gated;
    for i := 0 to |inp.middlewares|
      invariant forall j :: 0 <= j < i ==> inp.middlewares[j].builds
    {
      if !inp.middlewares[i].builds {
        assert inp.middlewares[i] in inp.middlewares;
        return null;
      }
    }
    cfg := new Configuration();
    cfg.RenderBase(inp);
    for i := 0 to |inp.hosts|
      invariant cfg != null && fresh(cfg)
      invariant cfg.View() == AddHosts(BaseParts(inp), inp.hosts[..i], inp)
    {
      assert inp.hosts[..i + 1][..i] == inp.hosts[..i];
      cfg.RenderHost(inp.hosts[i], inp);
    }
    assert inp.hosts[..|inp.hosts|] == inp.hosts;
    cfg.RenderDefaultSite(inp);
    cfg.RenderBans(inp);
    OutputPromises(inp);
  }

  lemma OutputPromises(inp: Inputs)
    ensures AclsResolve(inp) ==> Closed(Rendered(inp))
    ensures IdsPrefixFree(inp.hosts) ==> (Closed(Rendered(inp)) <==> AclsResolve(inp)) && Gated(Rendered(inp), inp)
  {
    hide Closed, AclsResolve, Gated, Rendered;
    if AclsResolve(inp) { RenderedIsClosed(inp); }
    if IdsPrefixFree(inp.hosts) {
      ClosedIffAclsResolve(inp);
      RenderedIsGated(inp);
    }
  }

  // The parts of a proxy host, written one after the other, are its parts written at once.
  lemma ProxyPartsSum(c: Cfg, h: Host, inp: Inputs)
    ensures var locs := LocParts(h, inp, |h.locations|);
            var o := Over(c, ProxyParts(h, inp));
            && o.services
               == c.services + MainServices(h, inp) + RawServices(h.id, FragmentOf(h).services) + locs.services
            && o.middlewares == c.middlewares + CollectedMiddlewares(h) + ErrorMiddlewares(h, inp.contentBackend)
                 + RawMiddlewares(h.id, FragmentOf(h).middlewares) + CacheMiddlewares(h) + locs.middlewares
                 + SchemeMiddlewares(h)
            && o.routers == c.routers + map[RouterName(h.id) := MainRouter(h, inp)] + TrustedRouters(h, inp)
                 + StaticRouters(h, inp) + locs.routers + PlainHttpRouters(h, inp)
            && o.tcpRouters == c.tcpRouters && o.tcpServices == c.tcpServices
            && o.udpRouters == c.udpRouters && o.udpServices == c.udpServices
  {
    var locs := LocParts(h, inp, |h.locations|);
    var s1, s2, s3 := MainServices(h, inp), RawServices(h.id, FragmentOf(h).services), locs.services;
    var m1, m2 := CollectedMiddlewares(h), ErrorMiddlewares(h, inp.contentBackend);
    var m3, m4 := RawMiddlewares(h.id, FragmentOf(h).middlewares), CacheMiddlewares(h);
    var m5, m6 := locs.middlewares, SchemeMiddlewares(h);
    var r1, r2 := map[RouterName(h.id) := MainRouter(h, inp)], TrustedRouters(h, inp);
    var r3, r4, r5 := StaticRouters(h, inp), locs.routers, PlainHttpRouters(h, inp);
    hide LocParts, MainServices, RawServices, CollectedMiddlewares, ErrorMiddlewares, RawMiddlewares,
         CacheMiddlewares, SchemeMiddlewares, MainRouter, TrustedRouters, StaticRouters, PlainHttpRouters;
    SumOf3(c.services, s1, s2, s3);
    SumOf6(c.middlewares, m1, m2, m3, m4, m5, m6);
    SumOf5(c.routers, r1, r2, r3, r4, r5);
    PlusEmpty(c.tcpRouters);
    PlusEmpty(c.tcpServices);
    PlusEmpty(c.udpRouters);
    PlusEmpty(c.udpServices);
  }

  lemma SumOf3<V>(a: map<string, V>, b: map<string, V>, c: map<string, V>, d: map<string, V>)
    ensures a + (b + c + d) == a + b + c + d
  {
    Assoc(a, b, c);
    Assoc(a, b + c, d);
  }

  lemma SumOf5<V>(a: map<string, V>, b: map<string, V>, c: map<string, V>, d: map<string, V>, e: map<string, V>,
                  f: map<string, V>)
    ensures a + (b + c + d + e + f) == a + b + c + d + e + f
  {
    SumOf3(a, b, c, d);
    Assoc(a, b + c + d, e);
    Assoc(a, b + c + d + e, f);
  }

  lemma SumOf6<V>(a: map<string, V>, b: map<string, V>, c: map<string, V>, d: map<string, V>, e: map<string, V>,
                  f: map<string, V>, g: map<string, V>)
    ensures a + (b + c + d + e + f + g) == a + b + c + d + e + f + g
  {
    SumOf5(a, b, c, d, e, f);
    Assoc(a, b + c + d + e + f, g);
  }
}

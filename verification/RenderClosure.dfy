/** Reference closure of the rendered configuration. */
module RenderClosure {
  import opened Options
  import opened Text
  import opened Hosts
  import opened RenderSpec
  import opened HostRule
  import Ordering

  // Every service and middleware that a generated router names, every child of a composed service
  // and the service of every generated error-page middleware is defined in the output.

  function Names(children: seq<Child>): set<string> { set c | c in children :: c.name }

  /** The services that a service refers to. */
  function Children(s: Service): set<string> {
    match s
    case Weighted(children) => Names(children)
    case Failover(primary, fallback) => if fallback == "" then {primary} else {primary, fallback}
    case Mirroring(main, mirrors) => {main} + Names(mirrors)
    case _ => {}
  }

  predicate RouterOk(r: Router, services: set<string>, middlewares: set<string>) {
    r.service in services && forall m :: m in r.middlewares ==> m in middlewares
  }

  predicate ServiceOk(s: Service, services: set<string>) { Children(s) <= services }

  predicate MiddlewareOk(m: Middleware, services: set<string>) { m.Errors? ==> m.service in services }

  /** All references of `c` are among the given names. */
  ghost predicate RefsWithin(c: Cfg, services: set<string>, middlewares: set<string>,
                             tcp: set<string>, udp: set<string>) {
    && (forall n :: n in c.routers ==> RouterOk(c.routers[n], services, middlewares))
    && (forall n :: n in c.services ==> ServiceOk(c.services[n], services))
    && (forall n :: n in c.middlewares ==> MiddlewareOk(c.middlewares[n], services))
    && (forall n :: n in c.tcpRouters ==> c.tcpRouters[n].service in tcp)
    && (forall n :: n in c.udpRouters ==> c.udpRouters[n].service in udp)
  }

  ghost predicate Closed(c: Cfg) {
    RefsWithin(c, c.services.Keys, c.middlewares.Keys, c.tcpServices.Keys, c.udpServices.Keys)
  }

  /** `d` refers only to what `c` or `d` itself defines. */
  ghost predicate Fits(c: Cfg, d: Cfg) {
    RefsWithin(d, c.services.Keys + d.services.Keys, c.middlewares.Keys + d.middlewares.Keys,
               c.tcpServices.Keys + d.tcpServices.Keys, c.udpServices.Keys + d.udpServices.Keys)
  }

  ghost predicate Grows(c: Cfg, d: Cfg) {
    c.services.Keys <= d.services.Keys && c.middlewares.Keys <= d.middlewares.Keys
  }

  lemma RefsMonotone(c: Cfg, s: set<string>, m: set<string>, t: set<string>, u: set<string>,
                     s': set<string>, m': set<string>, t': set<string>, u': set<string>)
    requires RefsWithin(c, s, m, t, u) && s <= s' && m <= m' && t <= t' && u <= u'
    ensures RefsWithin(c, s', m', t', u')
  {
    forall n | n in c.routers ensures RouterOk(c.routers[n], s', m') { assert RouterOk(c.routers[n], s, m); }
    forall n | n in c.services ensures ServiceOk(c.services[n], s') { assert ServiceOk(c.services[n], s); }
    forall n | n in c.middlewares
      ensures MiddlewareOk(c.middlewares[n], s')
    {
      assert MiddlewareOk(c.middlewares[n], s);
    }
  }

  lemma RefsOver(c: Cfg, d: Cfg, s: set<string>, m: set<string>, t: set<string>, u: set<string>)
    requires RefsWithin(c, s, m, t, u) && RefsWithin(d, s, m, t, u)
    ensures RefsWithin(Over(c, d), s, m, t, u)
  {}

  /** Writing parts that fit over a closed configuration leaves it closed. */
  lemma ClosedOver(c: Cfg, d: Cfg)
    requires Closed(c) && Fits(c, d)
    ensures Closed(Over(c, d)) && Grows(c, Over(c, d))
  {
    var o := Over(c, d);
    assert o.services.Keys == c.services.Keys + d.services.Keys;
    assert o.middlewares.Keys == c.middlewares.Keys + d.middlewares.Keys;
    assert o.tcpServices.Keys == c.tcpServices.Keys + d.tcpServices.Keys;
    assert o.udpServices.Keys == c.udpServices.Keys + d.udpServices.Keys;
    RefsMonotone(c, c.services.Keys, c.middlewares.Keys, c.tcpServices.Keys, c.udpServices.Keys,
                 o.services.Keys, o.middlewares.Keys, o.tcpServices.Keys, o.udpServices.Keys);
    RefsOver(c, d, o.services.Keys, o.middlewares.Keys, o.tcpServices.Keys, o.udpServices.Keys);
  }

  // ---------------------------------------------------------------- what hosts find defined

  predicate HasValidUser(a: AccessList) { exists u :: u in a.users && u.Valid() }

  /** The access list `id` of a host can be resolved: its auth middleware, if named, is defined. */
  predicate AclResolves(id: string, acls: seq<AccessList>) {
    match AccessListById(acls, id)
    case None => true
    case Some(a) => a.users == [] || exists b :: b in acls && b.id == id && HasValidUser(b)
  }

  /** Every access list with users that an enabled proxy host attaches has a usable user. */
  predicate AclsResolve(inp: Inputs) {
    forall h :: h in inp.hosts && h.enabled && h.kind == Proxy ==>
      forall id :: id in h.accessListIds ==> AclResolves(id, inp.accessLists)
  }

  /** The shared names that host parts refer to. */
  ghost predicate HasBase(c: Cfg, inp: Inputs) {
    && BaseParts(inp).middlewares.Keys <= c.middlewares.Keys
    && (inp.contentBackend != "" ==> CONTENT in c.services)
  }

  lemma {:induction false} CredentialsOfValid(us: seq<AccessUser>)
    ensures Credentials(us) != [] <==> exists u :: u in us && u.Valid()
  {
    if us != [] {
      CredentialsOfValid(us[..|us| - 1]);
      assert us == us[..|us| - 1] + [us[|us| - 1]];
    }
  }

  lemma NameEnds(id: string)
    ensures AuthName(id)[|AuthName(id)| - 1] == 'h' && IpName(id)[|IpName(id)| - 1] == 'p'
    ensures AuthName(id)[..4] == "acl-" && IpName(id)[..4] == "acl-"
  {}

  lemma AuthNameInjective(a: string, b: string)
    ensures AuthName(a) == AuthName(b) ==> a == b
  {
    assert AuthName(a)[4..|AuthName(a)| - 5] == a && AuthName(b)[4..|AuthName(b)| - 5] == b;
  }

  /** An auth middleware is defined exactly for the ids of lists with a usable user. */
  lemma {:induction false} AuthDefined(acls: seq<AccessList>, id: string)
    ensures AuthName(id) in AccessListMiddlewares(acls) <==> exists b :: b in acls && b.id == id && HasValidUser(b)
  {
    if acls != [] {
      var before, a := acls[..|acls| - 1], acls[|acls| - 1];
      AuthDefined(before, id);
      CredentialsOfValid(a.users);
      NameEnds(a.id);
      NameEnds(id);
      AuthNameInjective(id, a.id);
      assert acls == before + [a];
      assert forall b :: b in acls <==> b in before || b == a;
      hide AuthName, IpName, Credentials;
      assert AuthName(id) in AccessListMiddlewares(acls) <==>
             AuthName(id) in AccessListMiddlewares(before) || (a.id == id && HasValidUser(a));
    }
  }

  lemma {:induction false} IpDefined(acls: seq<AccessList>, a: AccessList)
    requires a in acls && |a.allowIps| > 0
    ensures IpName(a.id) in AccessListMiddlewares(acls)
  {
    if acls[|acls| - 1] != a { IpDefined(acls[..|acls| - 1], a); }
  }

  lemma {:induction false} AclNamesDefined(ids: seq<string>, acls: seq<AccessList>)
    requires forall id :: id in ids ==> AclResolves(id, acls)
    ensures forall n :: n in AccessListNames(ids, acls) ==> n in AccessListMiddlewares(acls)
  {
    if ids != [] {
      var id := ids[|ids| - 1];
      AclNamesDefined(ids[..|ids| - 1], acls);
      assert AclResolves(id, acls);
      AuthDefined(acls, id);
      match AccessListById(acls, id)
      case None =>
      case Some(a) => if |a.allowIps| > 0 { IpDefined(acls, a); }
    }
  }

  lemma {:induction false} UserDefinedIn(ms: seq<UserMiddleware>, id: string)
    ensures MiddlewareById(ms, id).Some? ==> MwName(MiddlewareById(ms, id).value.id) in UserMiddlewares(ms)
  {
    if ms != [] { UserDefinedIn(ms[..|ms| - 1], id); }
  }

  lemma {:induction false} UserNamesDefined(ids: seq<string>, ms: seq<UserMiddleware>)
    ensures forall n :: n in UserNames(ids, ms) ==> n in UserMiddlewares(ms)
  {
    if ids != [] {
      UserNamesDefined(ids[..|ids| - 1], ms);
      UserDefinedIn(ms, ids[|ids| - 1]);
    }
  }

  lemma {:induction false} RawNamesDefined(id: string, names: seq<string>)
    ensures forall n :: n in RawNames(id, names) ==> n in RawMiddlewares(id, names)
    ensures forall n :: n in RawMiddlewares(id, names) ==> RawMiddlewares(id, names)[n] == RawMiddleware
    ensures forall n :: n in RawServices(id, names) ==> RawServices(id, names)[n] == RawService
  {
    if names != [] { RawNamesDefined(id, names[..|names| - 1]); }
  }

  lemma SortMembers(s: seq<string>)
    ensures forall n :: n in Ordering.Sort(s) <==> n in s
  {
    forall n ensures n in Ordering.Sort(s) <==> n in s {
      assert n in multiset(Ordering.Sort(s)) <==> n in multiset(s);
    }
  }

  /** The middlewares that a host's chain finds in the shared part of the configuration. */
  lemma SharedNamesDefined(c: Cfg, h: Host, inp: Inputs)
    requires HasBase(c, inp) && forall id :: id in h.accessListIds ==> AclResolves(id, inp.accessLists)
    ensures forall n :: n in AccessListNames(h.accessListIds, inp.accessLists) ==> n in c.middlewares
    ensures forall n :: n in UserNames(h.middlewareIds, inp.middlewares) ==> n in c.middlewares
    ensures RoutesToEdge(h, inp) && inp.cacheToken != "" ==> TOKEN_MW in c.middlewares
  {
    AclNamesDefined(h.accessListIds, inp.accessLists);
    UserNamesDefined(h.middlewareIds, inp.middlewares);
    var base := BaseParts(inp).middlewares;
    assert forall n :: n in AccessListMiddlewares(inp.accessLists) ==> n in base.Keys;
    assert forall n :: n in UserMiddlewares(inp.middlewares) ==> n in base.Keys;
    assert EdgeIsGated(inp) ==> TOKEN_MW in base.Keys;
  }

  // ---------------------------------------------------------------- services of a proxy host

  lemma {:induction false} GroupServiceFacts(h: Host, n: nat)
    requires n <= |h.backendGroups|
    ensures forall i :: 0 <= i < n ==> GroupName(h.id, i) in GroupServices(h, n)
    ensures forall k :: k in GroupServices(h, n) ==> GroupServices(h, n)[k].Servers?
  {
    if n > 0 { GroupServiceFacts(h, n - 1); }
  }

  lemma {:induction false} ChildNames(h: Host, n: nat)
    requires n <= |h.backendGroups|
    ensures forall c :: c in WeightedChildren(h, n) || c in MirrorChildren(h, n) ==>
              exists i :: 0 <= i < n && c.name == GroupName(h.id, i)
  {
    if n > 0 {
      ChildNames(h, n - 1);
      forall c | c in WeightedChildren(h, n) || c in MirrorChildren(h, n)
        ensures exists i :: 0 <= i < n && c.name == GroupName(h.id, i)
      {
        if c in WeightedChildren(h, n - 1) || c in MirrorChildren(h, n - 1) {
          var i :| 0 <= i < n - 1 && c.name == GroupName(h.id, i);
        } else {
          assert c.name == GroupName(h.id, n - 1);
        }
      }
    }
  }

  lemma MainServicesOk(h: Host, inp: Inputs)
    ensures ServiceName(h.id) in MainServices(h, inp)
    ensures forall k :: k in MainServices(h, inp) ==> ServiceOk(MainServices(h, inp)[k], MainServices(h, inp).Keys)
  {
    if h.backendGroups != [] {
      var n := |h.backendGroups|;
      GroupServiceFacts(h, n);
      ChildNames(h, n);
      forall x | x in Children(ComposedService(h)) ensures x in GroupServices(h, n) {
        if h.serviceMode == "weighted" {
          var c :| c in WeightedChildren(h, n) && c.name == x;
        } else if h.serviceMode == "mirroring" && x != GroupName(h.id, 0) {
          var c :| c in MirrorChildren(h, n) && c.name == x;
        }
      }
    }
  }

  // ---------------------------------------------------------------- locations of a proxy host

  /** Each location router finds its own service and strip middleware beside the base chain. */
  ghost predicate LocPartsOk(h: Host, inp: Inputs, c: Cfg) {
    && (forall k :: k in c.routers ==> c.routers[k].service in c.services)
    && (forall k, m :: k in c.routers && m in c.routers[k].middlewares ==> m in BaseChain(h, inp) || m in c.middlewares)
    && (forall k :: k in c.services ==> c.services[k].Servers?)
    && (forall k :: k in c.middlewares ==> c.middlewares[k].StripPrefix?)
  }

  lemma {:induction false} LocPartsFit(h: Host, inp: Inputs, n: nat)
    requires n <= |h.locations|
    ensures LocPartsOk(h, inp, LocParts(h, inp, n))
  {
    if n > 0 {
      LocPartsFit(h, inp, n - 1);
      hide BaseChain;
    }
  }

  // ---------------------------------------------------------------- every host fits

  lemma BaseChainDefined(c: Cfg, h: Host, inp: Inputs)
    requires HasBase(c, inp) && forall id :: id in h.accessListIds ==> AclResolves(id, inp.accessLists)
    ensures forall m :: m in BaseChain(h, inp) ==> m in c.middlewares.Keys + ProxyParts(h, inp).middlewares.Keys
    ensures forall m :: m in Chain(h, inp) ==> m in c.middlewares.Keys + ProxyParts(h, inp).middlewares.Keys
  {
    SharedNamesDefined(c, h, inp);
    RawNamesDefined(h.id, FragmentOf(h).middlewares);
    SortMembers(RawNames(h.id, FragmentOf(h).middlewares));
    ProxyDefines(h, inp);
    hide ProxyParts, AccessListNames, UserNames, RawNames, RawMiddlewares, RouterName;
  }

  lemma ProxyDefines(h: Host, inp: Inputs)
    ensures var mws := ProxyParts(h, inp).middlewares.Keys;
            && CollectedMiddlewares(h).Keys <= mws && ErrorMiddlewares(h, inp.contentBackend).Keys <= mws
            && RawMiddlewares(h.id, FragmentOf(h).middlewares).Keys <= mws
            && CacheMiddlewares(h).Keys <= mws && SchemeMiddlewares(h).Keys <= mws
            && LocParts(h, inp, |h.locations|).middlewares.Keys <= mws
  {
    hide CollectedMiddlewares, ErrorMiddlewares, RawMiddlewares, CacheMiddlewares, SchemeMiddlewares, LocParts,
         MainServices, RawServices, MainRouter, TrustedRouters, StaticRouters, PlainHttpRouters;
  }

  lemma ProxyServicesOk(h: Host, inp: Inputs)
    ensures var services := ProxyParts(h, inp).services;
            && ServiceName(h.id) in services
            && (forall k :: k in services ==> ServiceOk(services[k], services.Keys))
            && LocParts(h, inp, |h.locations|).services.Keys <= services.Keys
  {
    MainServicesOk(h, inp);
    RawNamesDefined(h.id, FragmentOf(h).services);
    LocPartsFit(h, inp, |h.locations|);
    hide MainServices, RawServices, LocParts, ServiceName, BaseChain;
    var main, raw, locs := MainServices(h, inp), RawServices(h.id, FragmentOf(h).services),
        LocParts(h, inp, |h.locations|).services;
    var services := ProxyParts(h, inp).services;
    assert services == main + raw + locs;
    forall k | k in services ensures ServiceOk(services[k], services.Keys) {
      if k in locs || k in raw {
      } else {
        assert ServiceOk(main[k], main.Keys);
      }
    }
  }

  ghost predicate MiddlewaresOk(m: map<string, Middleware>, services: set<string>) {
    forall k :: k in m ==> MiddlewareOk(m[k], services)
  }

  lemma MiddlewaresOver(a: map<string, Middleware>, b: map<string, Middleware>, services: set<string>)
    requires MiddlewaresOk(a, services) && MiddlewaresOk(b, services)
    ensures MiddlewaresOk(a + b, services)
  {}

  lemma GeneratedOk(h: Host, inp: Inputs, services: set<string>)
    requires inp.contentBackend != "" ==> CONTENT in services
    ensures MiddlewaresOk(CollectedMiddlewares(h), services) && MiddlewaresOk(CacheMiddlewares(h), services)
    ensures MiddlewaresOk(ErrorMiddlewares(h, inp.contentBackend), services)
        && MiddlewaresOk(SchemeMiddlewares(h), services)
    ensures MiddlewaresOk(RawMiddlewares(h.id, FragmentOf(h).middlewares), services)
    ensures MiddlewaresOk(LocParts(h, inp, |h.locations|).middlewares, services)
  {
    RawNamesDefined(h.id, FragmentOf(h).middlewares);
    LocPartsFit(h, inp, |h.locations|);
    hide RawMiddlewares, LocParts, RouterName, NonEmpty, BaseChain;
  }

  lemma ProxyMiddlewaresOk(c: Cfg, h: Host, inp: Inputs)
    requires HasBase(c, inp)
    ensures MiddlewaresOk(ProxyParts(h, inp).middlewares, c.services.Keys + ProxyParts(h, inp).services.Keys)
  {
    hide BaseParts, CollectedMiddlewares, ErrorMiddlewares, RawMiddlewares, CacheMiddlewares, LocParts,
         SchemeMiddlewares, MainServices, RawServices, MainRouter, TrustedRouters, StaticRouters, PlainHttpRouters;
    var services := c.services.Keys + ProxyParts(h, inp).services.Keys;
    GeneratedOk(h, inp, services);
    hide MiddlewaresOk;
    var m1, m2 := CollectedMiddlewares(h), ErrorMiddlewares(h, inp.contentBackend);
    var m3, m4 := RawMiddlewares(h.id, FragmentOf(h).middlewares), CacheMiddlewares(h);
    var m5, m6 := LocParts(h, inp, |h.locations|).middlewares, SchemeMiddlewares(h);
    MiddlewaresOver(m1, m2, services);
    MiddlewaresOver(m1 + m2, m3, services);
    MiddlewaresOver(m1 + m2 + m3, m4, services);
    MiddlewaresOver(m1 + m2 + m3 + m4, m5, services);
    MiddlewaresOver(m1 + m2 + m3 + m4 + m5, m6, services);
  }

  lemma ProxyRoutersOk(c: Cfg, h: Host, inp: Inputs)
    requires HasBase(c, inp) && forall id :: id in h.accessListIds ==> AclResolves(id, inp.accessLists)
    ensures var p := ProxyParts(h, inp);
            forall k :: k in p.routers ==>
              RouterOk(p.routers[k], c.services.Keys + p.services.Keys, c.middlewares.Keys + p.middlewares.Keys)
  {
    BaseChainDefined(c, h, inp);
    ProxyServicesOk(h, inp);
    LocPartsFit(h, inp, |h.locations|);
    hide Chain, BaseChain, LocParts, RouterName, MainServices, RawServices, RawMiddlewares, CollectedMiddlewares,
         ErrorMiddlewares, ServiceName, Entry, Dropped, BypassIps, ClientIps;
    var p, locs := ProxyParts(h, inp), LocParts(h, inp, |h.locations|);
    ProxyDefines(h, inp);
    assert h.cacheAssets ==> CacheName(h.id) in p.middlewares;
    assert TlsOn(h) && h.forceTls ==> RedirectName(h.id) in p.middlewares;
    forall k | k in p.routers
      ensures RouterOk(p.routers[k], c.services.Keys + p.services.Keys, c.middlewares.Keys + p.middlewares.Keys)
    {
      if k in PlainHttpRouters(h, inp) {
      } else if k in locs.routers {
        assert p.routers[k] == locs.routers[k];
      } else if k in StaticRouters(h, inp) {
      } else if k in TrustedRouters(h, inp) {
      }
    }
  }

  lemma ProxyIsHttp(h: Host, inp: Inputs)
    ensures ProxyParts(h, inp).tcpRouters == map[] && ProxyParts(h, inp).udpRouters == map[]
  {}

  lemma ProxyFits(c: Cfg, h: Host, inp: Inputs)
    requires HasBase(c, inp) && forall id :: id in h.accessListIds ==> AclResolves(id, inp.accessLists)
    ensures Fits(c, ProxyParts(h, inp))
  {
    ProxyServicesOk(h, inp);
    ProxyMiddlewaresOk(c, h, inp);
    ProxyRoutersOk(c, h, inp);
    ProxyIsHttp(h, inp);
    hide ProxyParts, HasBase, AclResolves, Fits, RefsWithin;
    HttpFits(c, ProxyParts(h, inp));
  }

  lemma HttpFits(c: Cfg, p: Cfg)
    requires p.tcpRouters == map[] && p.udpRouters == map[]
    requires forall k :: k in p.services ==> ServiceOk(p.services[k], p.services.Keys)
    requires MiddlewaresOk(p.middlewares, c.services.Keys + p.services.Keys)
    requires forall k :: k in p.routers ==>
               RouterOk(p.routers[k], c.services.Keys + p.services.Keys, c.middlewares.Keys + p.middlewares.Keys)
    ensures Fits(c, p)
  {
    forall k | k in p.services ensures ServiceOk(p.services[k], c.services.Keys + p.services.Keys) {
      assert ServiceOk(p.services[k], p.services.Keys);
    }
  }

  lemma RedirectionFits(c: Cfg, h: Host, inp: Inputs)
    requires HasBase(c, inp) && NOOP in c.services
    ensures Fits(c, RedirectionParts(h, inp))
  {
    RedirectionChain(c, h, inp);
    hide RefsWithin, CollectedNames, CollectedMiddlewares, TrimRightSlashes, RouterName, HasBase, RuleOf;
    var p := RedirectionParts(h, inp);
    var r := p.routers[RouterName(h.id)];
    assert p == Empty.(middlewares := p.middlewares, routers := map[RouterName(h.id) := r]);
    NoErrorPages(h, inp);
    hide RedirectionParts;
    OneRouterFits(c, RouterName(h.id), r, p.middlewares);
  }

  lemma NoErrorPages(h: Host, inp: Inputs)
    ensures forall n :: n in RedirectionParts(h, inp).middlewares ==> !RedirectionParts(h, inp).middlewares[n].Errors?
  {
    hide TrimRightSlashes, RouterName, HstsName, CorsName, RuleOf, CollectedNames;
  }

  lemma OneRouterFits(c: Cfg, name: string, r: Router, middlewares: map<string, Middleware>)
    requires RouterOk(r, c.services.Keys, c.middlewares.Keys + middlewares.Keys)
    requires forall n :: n in middlewares ==> !middlewares[n].Errors?
    ensures Fits(c, Empty.(middlewares := middlewares, routers := map[name := r]))
  {}

  lemma RedirectionChain(c: Cfg, h: Host, inp: Inputs)
    requires HasBase(c, inp)
    ensures var mws := RedirectionParts(h, inp).middlewares;
            && RouterName(h.id) + "-redirect" in mws
            && forall m :: m in CollectedNames(h, inp.middlewares) ==> m in c.middlewares.Keys + mws.Keys
  {
    UserNamesDefined(h.middlewareIds, inp.middlewares);
    var base := BaseParts(inp).middlewares;
    assert forall n :: n in UserMiddlewares(inp.middlewares) ==> n in base.Keys;
    hide UserNames, TrimRightSlashes, RouterName, HstsName, CorsName, BaseParts;
    var p := RedirectionParts(h, inp);
    assert CollectedMiddlewares(h).Keys <= p.middlewares.Keys;
  }

  lemma NoopKeys(c: Cfg)
    ensures WithNoop(c).services.Keys == c.services.Keys + {NOOP}
    ensures WithNoop(c) == c.(services := WithNoop(c).services)
  {}

  lemma NoopRefs(c: Cfg, s: set<string>, m: set<string>, t: set<string>, u: set<string>)
    requires RefsWithin(c, s, m, t, u)
    ensures RefsWithin(WithNoop(c), s, m, t, u)
  {}

  lemma NoopFits(c: Cfg)
    requires Closed(c)
    ensures Closed(WithNoop(c)) && Grows(c, WithNoop(c)) && NOOP in WithNoop(c).services
  {
    var d := WithNoop(c);
    NoopKeys(c);
    hide WithNoop, RefsWithin;
    RefsMonotone(c, c.services.Keys, c.middlewares.Keys, c.tcpServices.Keys, c.udpServices.Keys,
                 d.services.Keys, d.middlewares.Keys, d.tcpServices.Keys, d.udpServices.Keys);
    NoopRefs(c, d.services.Keys, d.middlewares.Keys, d.tcpServices.Keys, d.udpServices.Keys);
  }

  /** Rendering one more host keeps the configuration closed. */
  lemma HostKeepsClosed(c: Cfg, h: Host, inp: Inputs)
    requires HasBase(c, inp) && Closed(c)
    requires h.enabled && h.kind == Proxy ==> forall id :: id in h.accessListIds ==> AclResolves(id, inp.accessLists)
    ensures Closed(AddHost(c, h, inp)) && Grows(c, AddHost(c, h, inp))
  {
    hide Closed, Fits, ProxyParts, RedirectionParts, DeadParts, StreamParts, HasBase, WithNoop, Over, AclResolves;
    if h.enabled {
      match h.kind
      case Proxy =>
        ProxyFits(c, h, inp);
        ClosedOver(c, ProxyParts(h, inp));
      case Redirection =>
        NoopFits(c);
        BaseGrows(c, WithNoop(c), inp);
        RedirectionFits(WithNoop(c), h, inp);
        ClosedOver(WithNoop(c), RedirectionParts(h, inp));
      case Dead =>
        NoopFits(c);
        SmallPartsFit(WithNoop(c), h, inp);
        ClosedOver(WithNoop(c), DeadParts(h, inp));
      case Stream =>
        StreamFits(c, h);
        ClosedOver(c, StreamParts(h));
    }
  }

  lemma BaseGrows(c: Cfg, d: Cfg, inp: Inputs)
    requires HasBase(c, inp) && Grows(c, d)
    ensures HasBase(d, inp)
  {}

  lemma SmallPartsFit(c: Cfg, h: Host, inp: Inputs)
    requires NOOP in c.services
    ensures Fits(c, DeadParts(h, inp))
  {}

  lemma StreamFits(c: Cfg, h: Host)
    ensures Fits(c, StreamParts(h))
  {}

  lemma {:induction false} HostsKeepClosed(c: Cfg, hosts: seq<Host>, inp: Inputs)
    requires HasBase(c, inp) && Closed(c)
    requires forall h :: h in hosts && h.enabled && h.kind == Proxy ==>
               forall id :: id in h.accessListIds ==> AclResolves(id, inp.accessLists)
    ensures Closed(AddHosts(c, hosts, inp)) && HasBase(AddHosts(c, hosts, inp), inp)
  {
    hide Closed, HasBase, AddHost;
    if hosts != [] {
      HostsKeepClosed(c, hosts[..|hosts| - 1], inp);
      HostKeepsClosed(AddHosts(c, hosts[..|hosts| - 1], inp), hosts[|hosts| - 1], inp);
      BaseGrows(AddHosts(c, hosts[..|hosts| - 1], inp), AddHosts(c, hosts, inp), inp);
    }
  }

  lemma {:induction false} SharedMiddlewaresOk(ms: seq<UserMiddleware>, acls: seq<AccessList>)
    ensures forall n :: n in UserMiddlewares(ms) ==> UserMiddlewares(ms)[n].UserDefined?
    ensures forall n :: n in AccessListMiddlewares(acls) ==> !AccessListMiddlewares(acls)[n].Errors?
    decreases |ms| + |acls|
  {
    if ms != [] { SharedMiddlewaresOk(ms[..|ms| - 1], acls); }
    else if acls != [] { SharedMiddlewaresOk(ms, acls[..|acls| - 1]); }
  }

  lemma BaseClosed(inp: Inputs)
    ensures Closed(BaseParts(inp)) && HasBase(BaseParts(inp), inp)
  {
    SharedMiddlewaresOk(inp.middlewares, []);
    SharedMiddlewaresOk([], inp.accessLists);
  }

  lemma CatchAllsFit(c: Cfg, inp: Inputs)
    requires HasBase(c, inp)
    ensures Fits(c, DefaultParts(inp)) && Fits(c, BannedParts(inp))
  {
    hide BaseParts, QuotedIps;
    DefaultFits(c, inp);
    BannedFits(c, inp);
  }

  lemma DefaultFits(c: Cfg, inp: Inputs)
    requires inp.contentBackend != "" ==> CONTENT in c.services
    ensures Fits(c, DefaultParts(inp))
  {}

  lemma BannedFits(c: Cfg, inp: Inputs)
    requires inp.contentBackend != "" ==> CONTENT in c.services
    ensures Fits(c, BannedParts(inp))
  {}

  /** The whole output is closed when the access lists of its proxy hosts resolve. */
  lemma RenderedIsClosed(inp: Inputs)
    requires AclsResolve(inp)
    ensures Closed(Rendered(inp))
  {
    hide Closed, HasBase, Fits, BaseParts, DefaultParts, BannedParts, AddHosts;
    BaseClosed(inp);
    var c := AddHosts(BaseParts(inp), inp.hosts, inp);
    HostsKeepClosed(BaseParts(inp), inp.hosts, inp);
    CatchAllsFit(c, inp);
    ClosedOver(c, DefaultParts(inp));
    var d := Over(c, DefaultParts(inp));
    BaseGrows(c, d, inp);
    CatchAllsFit(d, inp);
    ClosedOver(d, BannedParts(inp));
  }

  // ---------------------------------------------------------------- and only then

  /** No id of a host begins with the id of another; ids of one length, as UUIDs are, never do. */
  predicate IdsPrefixFree(hosts: seq<Host>) {
    forall i, j :: 0 <= i < |hosts| && 0 <= j < |hosts| && i != j ==> !(hosts[i].id <= hosts[j].id)
  }

  predicate Under<T>(m: map<string, T>, id: string) { forall k :: k in m ==> RouterName(id) <= k }

  lemma UnderOver<T>(a: map<string, T>, b: map<string, T>, id: string)
    requires Under(a, id) && Under(b, id)
    ensures Under(a + b, id)
  {}

  lemma UnderPut<T>(m: map<string, T>, k: string, v: T, id: string)
    requires Under(m, id) && RouterName(id) <= k
    ensures Under(m[k := v], id)
  {}

  predicate KeysFrom(c: Cfg, id: string) { Under(c.routers, id) && Under(c.middlewares, id) }

  lemma {:induction false} RawKeys(id: string, names: seq<string>)
    ensures forall k :: k in RawMiddlewares(id, names) ==> RouterName(id) <= k
  {
    if names != [] {
      RawKeys(id, names[..|names| - 1]);
      assert RouterName(id) <= RawName(id, names[|names| - 1]);
    }
  }

  lemma LocNameKeys(id: string, i: nat)
    ensures RouterName(id) <= LocRouterName(id, i) && LocRouterName(id, i) != RouterName(id)
    ensures RouterName(id) <= StripName(id, i)
  {
    assert |LocRouterName(id, i)| > |RouterName(id)|;
  }

  lemma {:induction false} LocKeys(h: Host, inp: Inputs, n: nat)
    requires n <= |h.locations|
    ensures KeysFrom(LocParts(h, inp, n), h.id) && RouterName(h.id) !in LocParts(h, inp, n).routers
  {
    NoLocParts(h, inp);
    if n > 0 {
      LocNameKeys(h.id, n - 1);
      hide LocParts, LocRouter, LocRouterName, StripName, RouterName, LocServiceName, Under, RendersLocation;
      LocKeys(h, inp, n - 1);
      LocPartsStep(h, inp, n - 1);
      var c, loc := LocParts(h, inp, n - 1), h.locations[n - 1];
      UnderPut(c.routers, LocRouterName(h.id, n - 1), LocRouter(h, inp, n - 1), h.id);
      UnderPut(c.middlewares, StripName(h.id, n - 1), StripPrefix(loc.pathPrefix), h.id);
    }
  }

  lemma ProxyMiddlewareKeys(h: Host, inp: Inputs)
    ensures Under(ProxyParts(h, inp).middlewares, h.id)
  {
    RawKeys(h.id, FragmentOf(h).middlewares);
    LocKeys(h, inp, |h.locations|);
    Suffixes(h.id);
    var m1, m2 := CollectedMiddlewares(h), ErrorMiddlewares(h, inp.contentBackend);
    var m3, m4 := RawMiddlewares(h.id, FragmentOf(h).middlewares), CacheMiddlewares(h);
    var m5, m6 := LocParts(h, inp, |h.locations|).middlewares, SchemeMiddlewares(h);
    hide RouterName, HstsName, CorsName, ErrorsName, CacheName, RedirectName, LocParts, RawMiddlewares;
    assert Under(m1, h.id) && Under(m2, h.id) && Under(m3, h.id);
    assert Under(m4, h.id) && Under(m5, h.id) && Under(m6, h.id);
    hide Under;
    UnderOver(m1, m2, h.id);
    UnderOver(m1 + m2, m3, h.id);
    UnderOver(m1 + m2 + m3, m4, h.id);
    UnderOver(m1 + m2 + m3 + m4, m5, h.id);
    UnderOver(m1 + m2 + m3 + m4 + m5, m6, h.id);
  }

  /** A host writes routers and middlewares only under its own prefix, its main router as such. */
  lemma ProxyKeys(h: Host, inp: Inputs)
    ensures KeysFrom(ProxyParts(h, inp), h.id)
    ensures RouterName(h.id) in ProxyParts(h, inp).routers
    ensures ProxyParts(h, inp).routers[RouterName(h.id)] == MainRouter(h, inp)
  {
    ProxyMiddlewareKeys(h, inp);
    ProxyRouterKeys(h, inp);
    hide ProxyParts, MainRouter, RouterName;
  }

  lemma ProxyRouterKeys(h: Host, inp: Inputs)
    ensures Under(ProxyParts(h, inp).routers, h.id)
    ensures RouterName(h.id) in ProxyParts(h, inp).routers
    ensures ProxyParts(h, inp).routers[RouterName(h.id)] == MainRouter(h, inp)
  {
    LocKeys(h, inp, |h.locations|);
    SideRouterKeys(h, inp);
    hide LocParts, MainRouter, TrustedRouters, StaticRouters, PlainHttpRouters, RouterName, MainServices, RawServices,
         RawMiddlewares, CollectedMiddlewares, ErrorMiddlewares, CacheMiddlewares, SchemeMiddlewares;
    var main, locs := map[RouterName(h.id) := MainRouter(h, inp)], LocParts(h, inp, |h.locations|).routers;
    var trusted, stat, plain := TrustedRouters(h, inp), StaticRouters(h, inp), PlainHttpRouters(h, inp);
    var routers := ProxyParts(h, inp).routers;
    assert routers == main + trusted + stat + locs + plain;
    hide ProxyParts;
    forall k | k in routers ensures RouterName(h.id) <= k {
      assert k in main || k in trusted || k in stat || k in locs || k in plain;
    }
  }

  lemma SideRouterKeys(h: Host, inp: Inputs)
    ensures Under(TrustedRouters(h, inp), h.id) && RouterName(h.id) !in TrustedRouters(h, inp)
    ensures Under(StaticRouters(h, inp), h.id) && RouterName(h.id) !in StaticRouters(h, inp)
    ensures Under(PlainHttpRouters(h, inp), h.id) && RouterName(h.id) !in PlainHttpRouters(h, inp)
  {
    hide Under, RouterName, Chain, RuleOf, Join, ClientIps, Dropped, BypassIps, Entry, CacheName, RedirectName;
    OneKey(TrustedRouters(h, inp), h.id, "-trusted");
    OneKey(StaticRouters(h, inp), h.id, "-static");
    OneKey(PlainHttpRouters(h, inp), h.id, "-http");
  }

  lemma OneKey(m: map<string, Router>, id: string, suffix: string)
    requires forall k :: k in m ==> k == RouterName(id) + suffix
    requires suffix != ""
    ensures Under(m, id) && RouterName(id) !in m
  {
    assert |RouterName(id) + suffix| > |RouterName(id)|;
  }

  lemma Suffixes(id: string)
    ensures RouterName(id) <= HstsName(id) && RouterName(id) <= CorsName(id) && RouterName(id) <= ErrorsName(id)
    ensures RouterName(id) <= CacheName(id) && RouterName(id) <= RedirectName(id)
    ensures forall s: string ::
              RouterName(id) <= RouterName(id) + s && (s != "" ==> RouterName(id) != RouterName(id) + s)
  {
    forall s: string
      ensures RouterName(id) <= RouterName(id) + s && (s != "" ==> RouterName(id) != RouterName(id) + s)
    {
      assert |RouterName(id) + s| == |RouterName(id)| + |s|;
    }
  }

  /** What a host may change: routers and middlewares under its own prefix. */
  ghost predicate ChangesOnly(c: Cfg, d: Cfg, id: string) {
    && (forall k :: !(RouterName(id) <= k) ==> (k in c.routers <==> k in d.routers))
    && (forall k :: k in c.routers && !(RouterName(id) <= k) ==> c.routers[k] == d.routers[k])
    && (forall k :: !(RouterName(id) <= k) ==> (k in c.middlewares <==> k in d.middlewares))
  }

  lemma OverChangesOnly(c: Cfg, d: Cfg, id: string)
    requires KeysFrom(d, id)
    ensures ChangesOnly(c, Over(c, d), id)
  {}

  lemma OtherKindKeys(h: Host, inp: Inputs)
    ensures KeysFrom(RedirectionParts(h, inp), h.id) && KeysFrom(DeadParts(h, inp), h.id)
        && KeysFrom(StreamParts(h), h.id)
  {
    Suffixes(h.id);
    hide RouterName, HstsName, CorsName, TrimRightSlashes;
  }

  lemma ProxyChangesOnly(c: Cfg, h: Host, inp: Inputs)
    ensures ChangesOnly(c, Over(c, ProxyParts(h, inp)), h.id)
    ensures RouterName(h.id) in Over(c, ProxyParts(h, inp)).routers
    ensures Over(c, ProxyParts(h, inp)).routers[RouterName(h.id)] == MainRouter(h, inp)
  {
    ProxyKeys(h, inp);
    hide ProxyParts, MainRouter, RouterName;
    OverChangesOnly(c, ProxyParts(h, inp), h.id);
  }

  lemma NoopChangesNothing(c: Cfg, d: Cfg, id: string)
    requires KeysFrom(d, id)
    ensures ChangesOnly(c, Over(WithNoop(c), d), id)
  {
    OverChangesOnly(WithNoop(c), d, id);
    NoopKeys(c);
    hide RouterName, Over, WithNoop, KeysFrom, Under;
    ServicesDoNotMatter(c, WithNoop(c), Over(WithNoop(c), d), id);
  }

  lemma ServicesDoNotMatter(c: Cfg, c': Cfg, d: Cfg, id: string)
    requires c'.routers == c.routers && c'.middlewares == c.middlewares && ChangesOnly(c', d, id)
    ensures ChangesOnly(c, d, id)
  {}

  lemma HostChangesOnly(c: Cfg, h: Host, inp: Inputs)
    ensures ChangesOnly(c, AddHost(c, h, inp), h.id)
    ensures h.enabled && h.kind == Proxy ==>
              RouterName(h.id) in AddHost(c, h, inp).routers
              && AddHost(c, h, inp).routers[RouterName(h.id)] == MainRouter(h, inp)
  {
    OtherKindKeys(h, inp);
    ProxyChangesOnly(c, h, inp);
    assert ChangesOnly(c, c, h.id);
    hide ProxyParts, RedirectionParts, DeadParts, StreamParts, MainRouter, RouterName, Over, WithNoop, ChangesOnly,
         KeysFrom;
    if h.enabled {
      match h.kind
      case Proxy =>
      case Redirection => NoopChangesNothing(c, RedirectionParts(h, inp), h.id);
      case Dead => NoopChangesNothing(c, DeadParts(h, inp), h.id);
      case Stream => OverChangesOnly(c, StreamParts(h), h.id);
    }
  }

  lemma PrefixOfRouterName(a: string, b: string)
    ensures RouterName(a) <= RouterName(b) <==> a <= b
  {
    assert RouterName(a)[5..] == a && RouterName(b)[5..] == b;
    if RouterName(a) <= RouterName(b) {
      assert RouterName(b)[..|RouterName(a)|] == RouterName(a);
      assert b[..|a|] == RouterName(b)[5..|RouterName(a)|] == a;
    }
    if a <= b { assert RouterName(b)[..|RouterName(a)|] == RouterName(a); }
  }

  lemma {:induction false} MainRouterSurvives(c: Cfg, hosts: seq<Host>, inp: Inputs, i: nat)
    requires i < |hosts| && IdsPrefixFree(hosts) && hosts[i].enabled && hosts[i].kind == Proxy
    ensures RouterName(hosts[i].id) in AddHosts(c, hosts, inp).routers
    ensures AddHosts(c, hosts, inp).routers[RouterName(hosts[i].id)] == MainRouter(hosts[i], inp)
  {
    var before, last := hosts[..|hosts| - 1], hosts[|hosts| - 1];
    HostChangesOnly(AddHosts(c, before, inp), last, inp);
    hide AddHost, MainRouter, RouterName;
    if i < |before| {
      MainRouterSurvives(c, before, inp, i);
      PrefixOfRouterName(last.id, hosts[i].id);
    }
  }

  lemma {:induction false} HostsDefineNoAcl(c: Cfg, hosts: seq<Host>, inp: Inputs, id: string)
    ensures AuthName(id) in AddHosts(c, hosts, inp).middlewares <==> AuthName(id) in c.middlewares
  {
    if hosts != [] {
      var before, last := hosts[..|hosts| - 1], hosts[|hosts| - 1];
      HostsDefineNoAcl(c, before, inp, id);
      HostChangesOnly(AddHosts(c, before, inp), last, inp);
      assert RouterName(last.id)[0] == 'h' && AuthName(id)[0] == 'a';
      assert !(RouterName(last.id) <= AuthName(id));
    }
  }

  lemma {:induction false} UserKeys(ms: seq<UserMiddleware>, id: string)
    ensures AuthName(id) !in UserMiddlewares(ms)
  {
    if ms != [] {
      UserKeys(ms[..|ms| - 1], id);
      assert MwName(ms[|ms| - 1].id)[0] == 'm' && AuthName(id)[0] == 'a';
    }
  }

  lemma SharedNames(id: string)
    ensures AuthName(id) != TOKEN_MW && AuthName(id) != DEFAULT_PATH && AuthName(id) != BANNED_PATH
  {
    assert AuthName(id)[0] == 'a' && TOKEN_MW[0] == 'x' && DEFAULT_PATH[0] == 'x' && BANNED_PATH[0] == 'x';
  }

  lemma AuthInOutput(inp: Inputs, id: string)
    ensures AuthName(id) in Rendered(inp).middlewares <==> AuthName(id) in AccessListMiddlewares(inp.accessLists)
  {
    UserKeys(inp.middlewares, id);
    SharedNames(id);
    hide AddHosts, AuthName, UserMiddlewares, AccessListMiddlewares, QuotedIps, Closed, AddHost;
    HostsDefineNoAcl(BaseParts(inp), inp.hosts, inp, id);
  }

  lemma RouterInOutput(inp: Inputs, i: nat)
    requires i < |inp.hosts| && IdsPrefixFree(inp.hosts) && inp.hosts[i].enabled && inp.hosts[i].kind == Proxy
    ensures RouterName(inp.hosts[i].id) in Rendered(inp).routers
    ensures Rendered(inp).routers[RouterName(inp.hosts[i].id)] == MainRouter(inp.hosts[i], inp)
  {
    MainRouterSurvives(BaseParts(inp), inp.hosts, inp, i);
    CatchAllKeys(inp, inp.hosts[i].id);
    hide AddHosts, MainRouter, RouterName, BaseParts, DefaultParts, BannedParts;
  }

  lemma CatchAllKeys(inp: Inputs, id: string)
    ensures RouterName(id) !in DefaultParts(inp).routers && RouterName(id) !in BannedParts(inp).routers
  {
    hide QuotedIps;
    assert RouterName(id)[0] == 'h';
    assert "xgress-default-site-http"[0] == 'x' && "xgress-default-site-https"[0] == 'x';
    assert "xgress-banned-http"[0] == 'x' && "xgress-banned-https"[0] == 'x';
    hide RouterName;
  }

  lemma {:induction false} AuthIsNamed(ids: seq<string>, acls: seq<AccessList>, id: string)
    requires id in ids && AccessListById(acls, id).Some? && AccessListById(acls, id).value.users != []
    ensures AuthName(id) in AccessListNames(ids, acls)
  {
    if ids[|ids| - 1] != id { AuthIsNamed(ids[..|ids| - 1], acls, id); }
  }

  /**
   The output is closed exactly when every access list that an enabled proxy host attaches and
   that has users also has one with a name and a hash. A list whose users are all incomplete is
   still named by its hosts, but its auth middleware is never defined.
   */
  lemma ClosedIffAclsResolve(inp: Inputs)
    requires IdsPrefixFree(inp.hosts)
    ensures Closed(Rendered(inp)) <==> AclsResolve(inp)
  {
    if AclsResolve(inp) {
      RenderedIsClosed(inp);
    } else {
      var h :| h in inp.hosts && h.enabled && h.kind == Proxy
               && exists id :: id in h.accessListIds && !AclResolves(id, inp.accessLists);
      var id :| id in h.accessListIds && !AclResolves(id, inp.accessLists);
      var i :| 0 <= i < |inp.hosts| && inp.hosts[i] == h;
      RouterInOutput(inp, i);
      AuthDefined(inp.accessLists, id);
      AuthInOutput(inp, id);
      AuthIsNamed(h.accessListIds, inp.accessLists, id);
      hide Rendered, AuthName, RouterName, AccessListNames, CollectedNames, RuleOf;
      assert AuthName(id) in MainRouter(h, inp).middlewares;
    }
  }
}

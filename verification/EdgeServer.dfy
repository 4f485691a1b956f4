/** The request path of the edge. */
module EdgeServer {
  import opened Options
  import opened Text
  import opened MemCache
  import opened CacheRules
  import opened Hosts
  import Locations
  import Balancer

  // `ServeHTTP` and `serveUpstream` of internal/edge/server.go over the in-memory cache.
  //
  // First a state machine. A request begins (the gate, the WAF verdict, the choice of a backend, the
  // cache lookup) and, unless it is answered there, finishes later with what the upstream sent.
  // Any number of requests may be in flight, the hosts and feature flags may differ from event to
  // event, and sweeps come in between. Then the class, where one request runs from start to end.

  const EDGE_TOKEN_HEADER := "X-Xgress-Cache-Token"

  datatype EdgeHost = EdgeHost(id: string, waf: bool, cache: bool, upstreams: seq<Upstream>,
                               backendGroups: seq<BackendGroup>, locations: seq<Location>)

  /** What the engine may change while the server runs. */
  datatype Config = Config(byHost: map<string, EdgeHost>, wafActive: bool, cacheEnabled: bool)

  /** What is fixed when the server starts. */
  datatype Setup = Setup(token: string, defaultTtl: int, maxEntryBytes: int, limits: Limits)

  /** `SetHosts` indexes by lower-case domain. */
  function HostFor(conf: Config, domain: string): Option<EdgeHost> {
    LookUp(conf.byHost, ToLower(domain))
  }

  function LookUp(idx: map<string, EdgeHost>, domain: string): Option<EdgeHost> {
    if domain in idx then Some(idx[domain]) else None
  }

  predicate InLocation(h: EdgeHost, path: string) {
    exists i :: 0 <= i < |h.locations| && Locations.EdgeMatches(h.locations[i], path)
  }

  datatype Reply =
    | Forbidden
    | BadGateway
    | BlockedByWaf
    | Aborted              // the balancer panicked, net/http drops the connection
    | Streamed             // passed through without buffering
    | Hit(resp: Response)
    | Miss(resp: Response)

  /** A request that was passed on to the upstream through the buffered path. */
  datatype Pending = Pending(req: Request, domain: string, cacheable: bool, applyWaf: bool)

  datatype Verdict = Answer(reply: Reply) | Proceed(p: Pending)

  /** `ServeHTTP` up to the cache lookup. `wafBlocks` and `choice` come from the WAF and the balancer. */
  function Gate(setup: Setup, conf: Config, req: Request, wafBlocks: bool, choice: Balancer.Choice): Verdict {
    var domain := HostOnly(req.host);
    if setup.token != "" && First(req.header, EDGE_TOKEN_HEADER) != setup.token then Answer(Forbidden)
    else match HostFor(conf, domain)
    case None => Answer(BadGateway)
    case Some(h) =>
      var applyWaf := h.waf && conf.wafActive;
      if applyWaf && wafBlocks then Answer(BlockedByWaf)
      else if choice.Panics? then Answer(Aborted)
      else if choice.NoUpstream? then Answer(BadGateway)
      else if IsUpgrade(req) || WantsStream(req) then Answer(Streamed)
      else
        var cacheable := h.cache && conf.cacheEnabled && !InLocation(h, req.path) && RequestCacheable(req);
        if !cacheable && !applyWaf then Answer(Streamed)
        else Proceed(Pending(req, domain, cacheable, applyWaf))
  }

  function KeyOf(p: Pending): string { Key(p.req.method_, p.domain, p.req.uri) }

  /** What came of asking the upstream; the body is the whole body it sent. */
  datatype Upstreamed = Failed | Got(resp: Response)

  /** The reply of `serveUpstream`. */
  function Finish(setup: Setup, p: Pending, got: Upstreamed, wafBlocks: bool): Reply {
    match got
    case Failed => BadGateway
    case Got(resp) =>
      if p.applyWaf && wafBlocks then BlockedByWaf
      else if |resp.body| > setup.maxEntryBytes then Streamed
      else Miss(resp)
  }

  // ---------------------------------------------------------------- the codec

  /** The encoding of cached responses: whatever it encodes, decoding gives back. */
  datatype Codec = Codec(enc: Response -> Option<Bytes>, dec: Bytes -> Option<Response>) {
    ghost predicate Lossless() {
      forall r :: enc(r).Some? ==> dec(enc(r).value) == Some(r)
    }
  }

  // ---------------------------------------------------------------- the state machine

  /** A response that was stored: served as a MISS for `p` at `at`, to be kept for `ttl`. */
  datatype Origin = Origin(p: Pending, resp: Response, ttl: int, at: int)

  /** `ops` are the cache calls so far, `origins` says of each `Set` among them where it came from. */
  datatype Edge = Edge(inFlight: map<nat, Pending>, ops: seq<Op>, origins: seq<Option<Origin>>) {
    function Call(op: Op, origin: Option<Origin>): Edge {
      this.(ops := ops + [op], origins := origins + [origin])
    }
  }

  datatype Event =
    | Begin(id: nat, conf: Config, req: Request, wafBlocks: bool, choice: Balancer.Choice, now: int)
    | Complete(id: nat, got: Upstreamed, wafBlocks: bool, now: int)
    | Expire(now: int)

  const Start := Edge(map[], [], [])

  /** The lookup of a cacheable request that got past the gate. */
  function Cached(setup: Setup, codec: Codec, s: Edge, p: Pending, now: int): Option<Response> {
    if !p.cacheable then None
    else match Lookup(s.ops, setup.limits, KeyOf(p), now)
         case None => None
         case Some(raw) => codec.dec(raw)
  }

  /** The reply to a beginning request, if it is answered without the upstream. */
  function ReplyAtOnce(setup: Setup, codec: Codec, s: Edge, e: Event): Option<Reply>
    requires e.Begin?
  {
    match Gate(setup, e.conf, e.req, e.wafBlocks, e.choice)
    case Answer(reply) => Some(reply)
    case Proceed(p) =>
      match Cached(setup, codec, s, p, e.now)
      case Some(resp) => Some(Hit(resp))
      case None => None
  }

  function AfterBegin(setup: Setup, codec: Codec, s: Edge, e: Event): Edge
    requires e.Begin?
  {
    match Gate(setup, e.conf, e.req, e.wafBlocks, e.choice)
    case Answer(_) => s
    case Proceed(p) =>
      var s' := if p.cacheable then s.Call(Get(KeyOf(p), e.now), None) else s;
      if Cached(setup, codec, s, p, e.now).Some? then s' else s'.(inFlight := s'.inFlight[e.id := p])
  }

  /** The call of `cache.Set`, when the response is served as a MISS and may be stored. */
  function Stored(setup: Setup, codec: Codec, p: Pending, reply: Reply, now: int): Option<(Op, Origin)> {
    if !p.cacheable || !reply.Miss? then None
    else match ResponseTtl(reply.resp, setup.defaultTtl)
         case None => None
         case Some(ttl) =>
           match codec.enc(reply.resp)
           case None => None
           case Some(raw) => Some((Set(KeyOf(p), raw, ttl, now), Origin(p, reply.resp, ttl, now)))
  }

  function Step(setup: Setup, codec: Codec, s: Edge, e: Event): Edge {
    match e
    case Begin(_, _, _, _, _, _) => AfterBegin(setup, codec, s, e)
    case Complete(id, got, wafBlocks, now) =>
      if id !in s.inFlight then s
      else
        var p := s.inFlight[id];
        var s' := s.(inFlight := s.inFlight - {id});
        (match Stored(setup, codec, p, Finish(setup, p, got, wafBlocks), now)
         case None => s'
         case Some((op, origin)) => s'.Call(op, Some(origin)))
    case Expire(now) => s.Call(Sweep(now), None)
  }

  function Run(setup: Setup, codec: Codec, es: seq<Event>): Edge {
    if es == [] then Start
    else Step(setup, codec, Run(setup, codec, es[..|es| - 1]), es[|es| - 1])
  }

  // ---------------------------------------------------------------- provenance

  /** Event `i` of the run completed a request as a MISS, and that response was stored. */
  ghost predicate StoredAt(setup: Setup, codec: Codec, es: seq<Event>, i: nat, o: Origin) {
    && i < |es| && es[i].Complete? && es[i].now == o.at
    && var s := Run(setup, codec, es[..i]);
       && es[i].id in s.inFlight && s.inFlight[es[i].id] == o.p && o.p.cacheable
       && Finish(setup, o.p, es[i].got, es[i].wafBlocks) == Miss(o.resp)
       && ResponseTtl(o.resp, setup.defaultTtl) == Some(o.ttl)
  }

  ghost predicate CameThroughGate(p: Pending) {
    p.domain == HostOnly(p.req.host) && ' ' !in p.domain && (p.cacheable ==> RequestCacheable(p.req))
  }

  /** Go's HTTP server only accepts Host headers without spaces. */
  ghost predicate ValidHosts(es: seq<Event>) {
    forall e :: e in es && e.Begin? ==> ' ' !in e.req.host
  }

  ghost predicate OriginOf(setup: Setup, codec: Codec, es: seq<Event>, op: Op, o: Option<Origin>) {
    op.Set? ==>
      && o.Some? && op.key == KeyOf(o.value.p) && codec.enc(o.value.resp) == Some(op.val)
      && op.ttl == o.value.ttl && op.now == o.value.at && CameThroughGate(o.value.p)
      && exists i: nat :: StoredAt(setup, codec, es, i, o.value)
  }

  ghost predicate Inv(setup: Setup, codec: Codec, es: seq<Event>, s: Edge) {
    && |s.origins| == |s.ops|
    && (forall k :: 0 <= k < |s.ops| ==> OriginOf(setup, codec, es, s.ops[k], s.origins[k]))
    && forall id :: id in s.inFlight ==> CameThroughGate(s.inFlight[id])
  }

  lemma OriginStays(setup: Setup, codec: Codec, es: seq<Event>, e: Event, op: Op, o: Option<Origin>)
    requires OriginOf(setup, codec, es, op, o)
    ensures OriginOf(setup, codec, es + [e], op, o)
  {
    if op.Set? {
      var i: nat :| StoredAt(setup, codec, es, i, o.value);
      assert (es + [e])[..i] == es[..i];
      assert StoredAt(setup, codec, es + [e], i, o.value);
    }
  }

  lemma CompleteHasOrigin(setup: Setup, codec: Codec, es: seq<Event>, e: Event)
    requires e.Complete? && e.id in Run(setup, codec, es).inFlight
    requires CameThroughGate(Run(setup, codec, es).inFlight[e.id])
    ensures var p := Run(setup, codec, es).inFlight[e.id];
            var stored := Stored(setup, codec, p, Finish(setup, p, e.got, e.wafBlocks), e.now);
            stored.Some? ==> OriginOf(setup, codec, es + [e], stored.value.0, Some(stored.value.1))
  {
    var p := Run(setup, codec, es).inFlight[e.id];
    var stored := Stored(setup, codec, p, Finish(setup, p, e.got, e.wafBlocks), e.now);
    if stored.Some? {
      assert (es + [e])[..|es|] == es;
      assert StoredAt(setup, codec, es + [e], |es|, stored.value.1);
    }
  }

  // The old cache calls keep their origins when the run goes on, and a new call brings its own.
  lemma CallKeepsOrigins(setup: Setup, codec: Codec, es: seq<Event>, e: Event, s: Edge, op: Op, o: Option<Origin>)
    requires Inv(setup, codec, es, s) && OriginOf(setup, codec, es + [e], op, o)
    ensures Inv(setup, codec, es + [e], s.Call(op, o)) && Inv(setup, codec, es + [e], s)
  {
    hide OriginOf;
    forall k | 0 <= k < |s.ops| ensures OriginOf(setup, codec, es + [e], s.ops[k], s.origins[k]) {
      OriginStays(setup, codec, es, e, s.ops[k], s.origins[k]);
    }
  }

  lemma StepKeepsInv(setup: Setup, codec: Codec, es: seq<Event>, e: Event)
    requires Inv(setup, codec, es, Run(setup, codec, es)) && (e.Begin? ==> ' ' !in e.req.host)
    ensures Inv(setup, codec, es + [e], Step(setup, codec, Run(setup, codec, es), e))
  {
    hide Run, Cached;
    var s := Run(setup, codec, es);
    CallKeepsOrigins(setup, codec, es, e, s, Sweep(0), None);
    match e
    case Begin(_, _, _, _, _, _) =>
      match Gate(setup, e.conf, e.req, e.wafBlocks, e.choice) {
        case Answer(_) =>
        case Proceed(p) => CallKeepsOrigins(setup, codec, es, e, s, Get(KeyOf(p), e.now), None);
      }
    case Complete(id, got, wafBlocks, now) =>
      if id in s.inFlight {
        CompleteHasOrigin(setup, codec, es, e);
        var stored := Stored(setup, codec, s.inFlight[id], Finish(setup, s.inFlight[id], got, wafBlocks), now);
        hide OriginOf, Stored, Finish;
        if stored.Some? {
          CallKeepsOrigins(setup, codec, es, e, s, stored.value.0, Some(stored.value.1));
        }
      }
    case Expire(now) => CallKeepsOrigins(setup, codec, es, e, s, Sweep(now), None);
  }

  lemma {:induction false} EveryRun(setup: Setup, codec: Codec, es: seq<Event>)
    requires ValidHosts(es)
    ensures Inv(setup, codec, es, Run(setup, codec, es))
  {
    if es != [] {
      var before := es[..|es| - 1];
      assert es == before + [es[|es| - 1]] && es[|es| - 1] in es;
      EveryRun(setup, codec, before);
      StepKeepsInv(setup, codec, before, es[|es| - 1]);
    }
  }

  /**
   A HIT is sound in every run: its response was served before as a MISS to a request with the
   same method, domain and URI, both requests and that response may be cached by their methods,
   status and headers, and the HIT comes no later than the response's age after it was stored.
   */
  lemma HitSoundness(setup: Setup, codec: Codec, es: seq<Event>, e: Event, p: Pending) returns (i: nat, o: Origin)
    requires codec.Lossless() && 0 <= setup.limits.maxBytes && 0 <= setup.limits.maxEntries
    requires e.Begin? && Gate(setup, e.conf, e.req, e.wafBlocks, e.choice) == Proceed(p)
    requires ReplyAtOnce(setup, codec, Run(setup, codec, es), e).Some?
    requires ValidHosts(es) && ' ' !in e.req.host
    ensures StoredAt(setup, codec, es, i, o)
    ensures ReplyAtOnce(setup, codec, Run(setup, codec, es), e) == Some(Hit(o.resp))
    ensures o.p.req.method_ == e.req.method_ && o.p.domain == HostOnly(e.req.host) && o.p.req.uri == e.req.uri
    ensures MayBeCached(e.req) && MayBeCached(o.p.req)
    ensures MayBeKept(o.resp) && |o.resp.body| <= setup.maxEntryBytes
    ensures IsKeptFor(o.resp, setup.defaultTtl, o.ttl) && e.now <= o.at + o.ttl
  {
    hide Run, Lookup, Key, HostOnly, First, RequestCacheable, ResponseTtl, MayBeKept, IsKeptFor, Mentions;
    var s := Run(setup, codec, es);
    EveryRun(setup, codec, es);
    var k := LookupIsLatestSet(s.ops, setup.limits, KeyOf(p), e.now);
    assert OriginOf(setup, codec, es, s.ops[k], s.origins[k]);
    o := s.origins[k].value;
    i :| StoredAt(setup, codec, es, i, o);
    RequestCacheableMeans(e.req);
    RequestCacheableMeans(o.p.req);
    ResponseTtlMeans(o.resp, setup.defaultTtl, o.ttl);
    KeyInjective(o.p.req.method_, o.p.domain, o.p.req.uri, e.req.method_, p.domain, e.req.uri);
  }

  // ---------------------------------------------------------------- who is answered how

  /** The request shows the edge's token, if it has one. */
  predicate ShowsToken(setup: Setup, req: Request) {
    setup.token == "" || First(req.header, EDGE_TOKEN_HEADER) == setup.token
  }

  /** The request asks for a connection that must not be buffered. */
  ghost predicate AsksToStream(req: Request) {
    || Mentions(First(req.header, "Accept"), "text/event-stream")
    || (First(req.header, "Upgrade") != "" && Mentions(First(req.header, "Connection"), "upgrade"))
  }

  lemma StreamMeans(req: Request)
    ensures IsUpgrade(req) || WantsStream(req) <==> AsksToStream(req)
  {
    MentionsMeans(First(req.header, "Accept"), "text/event-stream");
    MentionsMeans(First(req.header, "Connection"), "upgrade");
    hide Mentions, Contains, First, ToLower;
  }

  /** A request of host `h` that may use the cache: host and edge have it on, and no location takes the path. */
  ghost predicate UsesCache(conf: Config, h: EdgeHost, req: Request) {
    && h.cache && conf.cacheEnabled && MayBeCached(req)
    && forall i :: 0 <= i < |h.locations| ==> !Locations.Serves(h.locations[i], req.path)
  }

  /**
   Who gets which answer before the cache: without the token nothing else matters, without a host
   nothing but that, and a request that the WAF blocks gets neither to the upstream nor to the cache.
   */
  lemma GateMeans(setup: Setup, conf: Config, req: Request, wafBlocks: bool, choice: Balancer.Choice)
    ensures var g, found := Gate(setup, conf, req, wafBlocks, choice), HostFor(conf, HostOnly(req.host));
            && (g == Answer(Forbidden) <==> !ShowsToken(setup, req))
            && (ShowsToken(setup, req) && found.None? ==> g == Answer(BadGateway))
            && (ShowsToken(setup, req) && found.Some? ==>
                  var (h, waf) := (found.value, found.value.waf && conf.wafActive);
                  && (g == Answer(BlockedByWaf) <==> waf && wafBlocks)
                  && (g == Answer(BadGateway) <==> !(waf && wafBlocks) && choice.NoUpstream?)
                  && (g == Answer(Aborted) <==> !(waf && wafBlocks) && choice.Panics?)
                  && (g.Proceed? <==> !(waf && wafBlocks) && choice.Chosen? && !AsksToStream(req)
                                      && (waf || UsesCache(conf, h, req)))
                  && (g.Proceed? ==> g.p == Pending(req, HostOnly(req.host), UsesCache(conf, h, req), waf))
                  && (g == Answer(Streamed) <==> !(waf && wafBlocks) && choice.Chosen? && !g.Proceed?))
  {
    StreamMeans(req);
    RequestCacheableMeans(req);
    var found := HostFor(conf, HostOnly(req.host));
    if found.Some? {
      forall loc ensures Locations.EdgeMatches(loc, req.path) <==> Locations.Serves(loc, req.path) {
        Locations.MatchesMeans(loc, req.path);
      }
    }
    hide IsUpgrade, WantsStream, AsksToStream, RequestCacheable, MayBeCached, HostFor, HostOnly, First;
  }

  /** A backend is chosen, and its counter moves, exactly for the requests that token, host and WAF let through. */
  lemma ReachesMeans(setup: Setup, conf: Config, req: Request, wafBlocks: bool)
    ensures ReachesBackend(setup, conf, req, wafBlocks)
       <==> Gate(setup, conf, req, wafBlocks, Balancer.Panics) == Answer(Aborted)
  {
    hide HostFor, HostOnly, First, IsUpgrade, WantsStream, RequestCacheable, InLocation;
  }

  /**
   What the beginning of a request does: one that may use the cache looks into it once, which counts
   as a use of the entry; one that is answered at once is over, and any other is in flight.
   */
  lemma BeginMeans(setup: Setup, codec: Codec, es: seq<Event>, b: Event)
    requires b.Begin?
    ensures var (s, s') := (Run(setup, codec, es), Run(setup, codec, es + [b]));
            var g := Gate(setup, b.conf, b.req, b.wafBlocks, b.choice);
            && s'.ops == (if g.Proceed? && g.p.cacheable then s.ops + [Get(KeyOf(g.p), b.now)] else s.ops)
            && s'.inFlight
               == if g.Proceed? && ReplyAtOnce(setup, codec, s, b).None? then s.inFlight[b.id := g.p] else s.inFlight
  {
    assert (es + [b])[..|es|] == es;
    hide Gate, Cached, KeyOf;
  }

  /** What is replied when the upstream has answered or failed. */
  lemma FinishMeans(setup: Setup, p: Pending, got: Upstreamed, wafBlocks: bool)
    ensures var r := Finish(setup, p, got, wafBlocks);
            && (r == BadGateway <==> got.Failed?)
            && (r == BlockedByWaf <==> got.Got? && p.applyWaf && wafBlocks)
            && (r == Streamed <==> got.Got? && !(p.applyWaf && wafBlocks) && |got.resp.body| > setup.maxEntryBytes)
            && (forall resp :: r == Miss(resp) <==>
                  got == Got(resp) && !(p.applyWaf && wafBlocks) && |resp.body| <= setup.maxEntryBytes)
  {}

  // ---------------------------------------------------------------- what is stored

  /** The upstream's answer to `p` is stored as `raw` for `ttl`. */
  ghost predicate IsKept(setup: Setup, codec: Codec, p: Pending, got: Upstreamed, wafBlocks: bool, ttl: int,
                         raw: Bytes) {
    && p.cacheable && got.Got? && !(p.applyWaf && wafBlocks) && |got.resp.body| <= setup.maxEntryBytes
    && MayBeKept(got.resp) && IsKeptFor(got.resp, setup.defaultTtl, ttl) && codec.enc(got.resp) == Some(raw)
  }

  lemma StoredMeans(setup: Setup, codec: Codec, p: Pending, got: Upstreamed, wafBlocks: bool, now: int)
    ensures var stored := Stored(setup, codec, p, Finish(setup, p, got, wafBlocks), now);
            && (stored.Some? <==> exists ttl, raw :: IsKept(setup, codec, p, got, wafBlocks, ttl, raw))
            && (forall ttl, raw :: IsKept(setup, codec, p, got, wafBlocks, ttl, raw) ==>
                  stored.Some? && stored.value.0 == Set(KeyOf(p), raw, ttl, now))
  {
    if got.Got? {
      forall ttl ensures ResponseTtl(got.resp, setup.defaultTtl) == Some(ttl)
                    <==> MayBeKept(got.resp) && IsKeptFor(got.resp, setup.defaultTtl, ttl) {
        ResponseTtlMeans(got.resp, setup.defaultTtl, ttl);
      }
      hide ResponseTtl, MayBeKept, IsKeptFor, KeyOf;
      var stored := Stored(setup, codec, p, Finish(setup, p, got, wafBlocks), now);
      if stored.Some? {
        assert IsKept(setup, codec, p, got, wafBlocks, stored.value.1.ttl, codec.enc(got.resp).value);
      }
    }
  }

  /** None of these events begins or completes the request. */
  ghost predicate Elsewhere(es: seq<Event>, id: nat) { forall e :: e in es && !e.Expire? ==> e.id != id }

  lemma StepKeepsOthers(setup: Setup, codec: Codec, s: Edge, e: Event, id: nat, p: Pending)
    requires id in s.inFlight && s.inFlight[id] == p && (e.Expire? || e.id != id)
    ensures var s' := Step(setup, codec, s, e); id in s'.inFlight && s'.inFlight[id] == p
  {
    hide Gate, Cached, Stored, Finish, KeyOf;
  }

  lemma {:induction false} StaysInFlight(setup: Setup, codec: Codec, es: seq<Event>, more: seq<Event>, id: nat,
                                         p: Pending)
    requires var s := Run(setup, codec, es); id in s.inFlight && s.inFlight[id] == p
    requires Elsewhere(more, id)
    ensures var s := Run(setup, codec, es + more); id in s.inFlight && s.inFlight[id] == p
  {
    if more == [] {
      assert es + more == es;
    } else {
      var before, e := more[..|more| - 1], more[|more| - 1];
      assert (es + more)[..|es + more| - 1] == es + before && e in more;
      StaysInFlight(setup, codec, es, before, id, p);
      StepKeepsOthers(setup, codec, Run(setup, codec, es + before), e, id, p);
      hide Step;
    }
  }

  /**
   A response is stored if and only if the request that asked for it may use the cache and was not
   answered from it, and the response is small enough, passes the WAF, and may be kept by its status
   and headers; it is stored under the request's key, for the age its headers give. Whatever happens
   between the two ends of the request makes no difference.
   */
  lemma StoredIff(setup: Setup, codec: Codec, es: seq<Event>, b: Event, more: seq<Event>, c: Event, p: Pending)
    requires b.Begin? && c.Complete? && c.id == b.id && Elsewhere(more, b.id)
    requires Gate(setup, b.conf, b.req, b.wafBlocks, b.choice) == Proceed(p)
    requires ReplyAtOnce(setup, codec, Run(setup, codec, es), b).None?
    ensures var (run, run') := (es + [b] + more, es + [b] + more + [c]);
            var (before, after) := (Run(setup, codec, run).ops, Run(setup, codec, run').ops);
            && (forall ttl, raw :: IsKept(setup, codec, p, c.got, c.wafBlocks, ttl, raw) ==>
                  after == before + [Set(KeyOf(p), raw, ttl, c.now)])
            && ((forall ttl, raw :: !IsKept(setup, codec, p, c.got, c.wafBlocks, ttl, raw)) ==> after == before)
  {
    var (begun, run) := (es + [b], es + [b] + more);
    assert begun[..|es|] == es && (run + [c])[..|run|] == run;
    assert Run(setup, codec, begun) == AfterBegin(setup, codec, Run(setup, codec, es), b);
    StaysInFlight(setup, codec, begun, more, b.id, p);
    StoredMeans(setup, codec, p, c.got, c.wafBlocks, c.now);
    hide Gate, Cached, Stored, Finish, IsKept, KeyOf;
  }

  /** Begun while the cache is switched off. */
  predicate CacheOff(e: Event) { e.Begin? ==> !e.conf.cacheEnabled }

  /** Nothing of the run has to do with the cache: no request that may use it, no call but sweeps. */
  ghost predicate Untouched(s: Edge) {
    (forall id :: id in s.inFlight ==> !s.inFlight[id].cacheable) && forall k :: 0 <= k < |s.ops| ==> s.ops[k].Sweep?
  }

  /** While the cache is switched off, no request looks into it and no response is stored. */
  lemma {:induction false} CacheOffTouchesNothing(setup: Setup, codec: Codec, es: seq<Event>)
    requires forall e :: e in es ==> CacheOff(e)
    ensures Untouched(Run(setup, codec, es))
  {
    if es != [] {
      var before, e := es[..|es| - 1], es[|es| - 1];
      CacheOffTouchesNothing(setup, codec, before);
      assert e in es && CacheOff(e);
      hide Cached, IsUpgrade, WantsStream, RequestCacheable, InLocation, HostFor, HostOnly, First, Finish;
    }
  }

  // ---------------------------------------------------------------- the class

  /** The upstreams of a host outside its locations: its own, else the first non-empty group. */
  function MainUpstreams(h: EdgeHost): seq<Upstream> {
    if h.upstreams != [] then h.upstreams else FirstGroup(h.backendGroups)
  }

  function FirstGroup(groups: seq<BackendGroup>): seq<Upstream> {
    if groups == [] then []
    else if groups[0].upstreams != [] then groups[0].upstreams
    else FirstGroup(groups[1..])
  }

  /** What `resolveBackend` settles on: the list to balance over, its counter, the strip prefix. */
  datatype Backend = Backend(upstreams: seq<Upstream>, counter: string, strip: string, isLocation: bool)

  function LocationBackend(h: EdgeHost, i: nat): Backend
    requires i < |h.locations|
  {
    var loc := h.locations[i];
    Backend(loc.upstreams, h.id + "\0" + loc.pathPrefix, if loc.stripPrefix then loc.pathPrefix else "", true)
  }

  /** The longest matching location of the host decides, and without one the host itself does. */
  ghost predicate IsBackend(h: EdgeHost, path: string, b: Backend) {
    && (forall i :: 0 <= i < |h.locations| && Locations.EdgeServes(h.locations, path, i) ==> b == LocationBackend(h, i))
    && (!InLocation(h, path) ==> b == Backend(MainUpstreams(h), h.id, "", false))
    && b.isLocation == InLocation(h, path)
  }

  /**
   What the backend is for the path: the list of the longest location that takes it, with a counter
   of its own and the prefix to strip, if it is stripped; else the host's own upstreams, and those of
   the first group that has any when there are none.
   */
  ghost predicate ServesPath(h: EdgeHost, path: string, b: Backend) {
    && (forall i: nat :: Locations.ServesLongest(h.locations, path, i) ==>
          && b.isLocation && b.upstreams == h.locations[i].upstreams
          && b.counter == h.id + "\0" + h.locations[i].pathPrefix
          && b.strip == (if h.locations[i].stripPrefix then h.locations[i].pathPrefix else ""))
    && ((forall i :: 0 <= i < |h.locations| ==> !Locations.Serves(h.locations[i], path)) ==>
          && !b.isLocation && b.counter == h.id && b.strip == ""
          && (h.upstreams != [] ==> b.upstreams == h.upstreams)
          && (h.upstreams == [] ==> IsFirstList(h.backendGroups, b.upstreams)))
  }

  lemma BackendMeans(h: EdgeHost, path: string, b: Backend)
    requires IsBackend(h, path, b)
    ensures ServesPath(h, path, b)
  {
    forall i: nat | Locations.ServesLongest(h.locations, path, i) ensures b == LocationBackend(h, i) {
      Locations.ServesMeans(h.locations, path, i);
    }
    if forall i :: 0 <= i < |h.locations| ==> !Locations.Serves(h.locations[i], path) {
      forall i | 0 <= i < |h.locations| ensures !Locations.EdgeMatches(h.locations[i], path) {
        Locations.MatchesMeans(h.locations[i], path);
      }
      FirstGroupMeans(h.backendGroups);
    }
  }

  /** The list of the first group that has one, empty when none has. */
  ghost predicate IsFirstList(groups: seq<BackendGroup>, list: seq<Upstream>) {
    || (list == [] && forall i :: 0 <= i < |groups| ==> groups[i].upstreams == [])
    || (list != [] && exists k :: 0 <= k < |groups| && groups[k].upstreams == list
                                  && forall i :: 0 <= i < k ==> groups[i].upstreams == [])
  }

  lemma {:induction false} FirstGroupMeans(groups: seq<BackendGroup>)
    ensures IsFirstList(groups, FirstGroup(groups))
  {
    if groups != [] && groups[0].upstreams == [] {
      FirstGroupMeans(groups[1..]);
      var (rest, list) := (groups[1..], FirstGroup(groups[1..]));
      if list != [] {
        var k :| 0 <= k < |rest| && rest[k].upstreams == list && forall i :: 0 <= i < k ==> rest[i].upstreams == [];
        forall i | 0 <= i < k + 1 ensures groups[i].upstreams == [] {
          if i > 0 { assert groups[i] == rest[i - 1]; }
        }
        assert groups[k + 1] == rest[k];
      } else {
        forall i | 0 < i < |groups| ensures groups[i].upstreams == [] { assert groups[i] == rest[i - 1]; }
      }
    }
  }

  /** What `balance` did with the list of `b`: the counters before and after, and its choice. */
  predicate Balanced(b: Backend, before: Balancer.Counters, after: Balancer.Counters, choice: Balancer.Choice) {
    && after == (if b.upstreams == [] then before else Balancer.Advance(before, b.counter))
    && choice == Balancer.Choose(Balancer.Counter(after, b.counter), |b.upstreams|)
  }

  /** The request gets past the token, the host lookup and the WAF. */
  predicate ReachesBackend(setup: Setup, conf: Config, req: Request, wafBlocks: bool) {
    var h := HostFor(conf, HostOnly(req.host));
    && (setup.token == "" || First(req.header, EDGE_TOKEN_HEADER) == setup.token)
    && h.Some? && !(h.value.waf && conf.wafActive && wafBlocks)
  }

  // ---------------------------------------------------------------- the host index

  function EdgeViewOf(h: Host): EdgeHost {
    EdgeHost(h.id, h.waf, h.cache, h.upstreams, h.backendGroups, h.locations)
  }

  predicate Lists(h: Host, domain: string) {
    h.kind == Proxy && h.enabled && exists k :: 0 <= k < |h.domains| && ToLower(h.domains[k]) == domain
  }

  /** Of the hosts that list the domain, the last. */
  function LastListing(hosts: seq<Host>, domain: string): Option<EdgeHost> {
    if hosts == [] then None
    else if Lists(hosts[|hosts| - 1], domain) then Some(EdgeViewOf(hosts[|hosts| - 1]))
    else LastListing(hosts[..|hosts| - 1], domain)
  }

  ghost predicate IsIndex(idx: map<string, EdgeHost>, hosts: seq<Host>) {
    forall d :: LookUp(idx, d) == LastListing(hosts, d)
  }

  function WithDomains(idx: map<string, EdgeHost>, h: Host, n: nat): map<string, EdgeHost>
    requires n <= |h.domains|
  {
    if n == 0 then idx else WithDomains(idx, h, n - 1)[ToLower(h.domains[n - 1]) := EdgeViewOf(h)]
  }

  lemma {:induction false} WithDomainsMeans(idx: map<string, EdgeHost>, h: Host, n: nat, d: string)
    requires n <= |h.domains|
    ensures LookUp(WithDomains(idx, h, n), d)
         == if exists k :: 0 <= k < n && ToLower(h.domains[k]) == d then Some(EdgeViewOf(h)) else LookUp(idx, d)
  {
    hide ToLower;
    if n > 0 { WithDomainsMeans(idx, h, n - 1, d); }
  }

  lemma IndexStep(idx: map<string, EdgeHost>, hosts: seq<Host>, h: Host)
    requires IsIndex(idx, hosts)
    ensures IsIndex(if h.kind != Proxy || !h.enabled then idx else WithDomains(idx, h, |h.domains|), hosts + [h])
  {
    hide ToLower, WithDomains, LookUp;
    assert (hosts + [h])[..|hosts|] == hosts;
    forall d ensures LookUp(if h.kind != Proxy || !h.enabled then idx else WithDomains(idx, h, |h.domains|), d)
                  == LastListing(hosts + [h], d) {
      WithDomainsMeans(idx, h, |h.domains|, d);
    }
  }

  /** The two names differ in the case of letters at most. */
  predicate SameDomain(a: string, b: string) { ToLower(a) == ToLower(b) }

  /** Host `i` is the last enabled proxy host of the list that has the domain. */
  ghost predicate ServesDomain(hosts: seq<Host>, domain: string, i: nat) {
    && i < |hosts| && HasDomain(hosts[i], domain) && forall j :: i < j < |hosts| ==> !HasDomain(hosts[j], domain)
  }

  ghost predicate HasDomain(h: Host, domain: string) {
    h.enabled && h.kind == Proxy && exists d :: d in h.domains && SameDomain(d, domain)
  }

  lemma ListsMeans(h: Host, domain: string)
    ensures Lists(h, ToLower(domain)) <==> HasDomain(h, domain)
  {
    hide ToLower;
    if d :| d in h.domains && SameDomain(d, domain) { var k :| 0 <= k < |h.domains| && h.domains[k] == d; }
    if k :| 0 <= k < |h.domains| && ToLower(h.domains[k]) == ToLower(domain) {
      assert SameDomain(h.domains[k], domain);
    }
  }

  /** A request for a domain finds the row of that host, as the edge needs it, and no host if there is none. */
  lemma {:induction false} HostForMeans(conf: Config, hosts: seq<Host>, domain: string)
    requires IsIndex(conf.byHost, hosts)
    ensures HostFor(conf, domain).None? <==> forall h :: h in hosts ==> !HasDomain(h, domain)
    ensures forall i: nat :: ServesDomain(hosts, domain, i) ==>
              && HostFor(conf, domain).Some?
              && var (e, h) := (HostFor(conf, domain).value, hosts[i]);
                 && e.id == h.id && e.waf == h.waf && e.cache == h.cache && e.upstreams == h.upstreams
                 && e.backendGroups == h.backendGroups && e.locations == h.locations
  {
    assert HostFor(conf, domain) == LastListing(hosts, ToLower(domain));
    LastListingMeans(hosts, domain);
  }

  lemma OneMoreHost(before: seq<Host>, last: Host, domain: string)
    ensures HasDomain(last, domain) ==> forall i: nat :: ServesDomain(before + [last], domain, i) <==> i == |before|
    ensures !HasDomain(last, domain) ==>
              forall i: nat :: ServesDomain(before + [last], domain, i) ==> ServesDomain(before, domain, i)
    ensures (forall h :: h in before + [last] ==> !HasDomain(h, domain))
       <==> (forall h :: h in before ==> !HasDomain(h, domain)) && !HasDomain(last, domain)
  {
    hide HasDomain;
    var all := before + [last];
    assert all[|before|] == last && last in all && forall h :: h in before ==> h in all;
    forall i: nat | ServesDomain(all, domain, i) && !HasDomain(last, domain) ensures ServesDomain(before, domain, i) {
      forall j | i < j < |before| ensures !HasDomain(before[j], domain) { assert before[j] == all[j]; }
    }
  }

  lemma {:induction false} LastListingMeans(hosts: seq<Host>, domain: string)
    ensures LastListing(hosts, ToLower(domain)).None? <==> forall h :: h in hosts ==> !HasDomain(h, domain)
    ensures forall i: nat :: ServesDomain(hosts, domain, i) ==>
              LastListing(hosts, ToLower(domain)) == Some(EdgeViewOf(hosts[i]))
  {
    if hosts != [] {
      var (before, last) := (hosts[..|hosts| - 1], hosts[|hosts| - 1]);
      assert hosts == before + [last];
      ListsMeans(last, domain);
      LastListingMeans(before, domain);
      OneMoreHost(before, last, domain);
      hide ToLower, Lists, HasDomain, EdgeViewOf, ServesDomain;
      forall i: nat | ServesDomain(hosts, domain, i) ensures i < |hosts| { ServesOne(hosts, domain, i); }
    }
  }

  lemma ServesOne(hosts: seq<Host>, domain: string, i: nat)
    requires ServesDomain(hosts, domain, i)
    ensures i < |hosts|
  {}

  method BuildIndex(hosts: seq<Host>) returns (idx: map<string, EdgeHost>)
    ensures IsIndex(idx, hosts)
  {
    hide IsIndex, ToLower, EdgeViewOf;
    idx := map[];
    assert IsIndex(idx, hosts[..0]) by { EmptyIndex(); }
    for i := 0 to |hosts|
      invariant IsIndex(idx, hosts[..i])
    {
      var h := hosts[i];
      assert hosts[..i + 1] == hosts[..i] + [h];
      IndexStep(idx, hosts[..i], h);
      if h.kind != Proxy || !h.enabled {
        continue;
      }
      ghost var before := idx;
      for k := 0 to |h.domains|
        invariant idx == WithDomains(before, h, k)
      {
        idx := idx[ToLower(h.domains[k]) := EdgeViewOf(h)];
      }
    }
    assert hosts[..|hosts|] == hosts;
  }

  lemma EmptyIndex()
    ensures IsIndex(map[], [])
  {}

  method ResolveBackend(h: EdgeHost, path: string) returns (b: Backend)
    ensures IsBackend(h, path, b) && ServesPath(h, path, b)
  {
    hide ServesPath;
    var found := Locations.ResolveLocation(h.locations, path);
    match found {
    case Some(i) =>
      assert Locations.EdgeMatches(h.locations[i], path);
      var loc := h.locations[i];
      b := Backend(loc.upstreams, h.id + "\0" + path[..|loc.pathPrefix|],
                   if loc.stripPrefix then loc.pathPrefix else "", true);
    case None =>
      var ups := h.upstreams;
      if ups == [] {
        ups := FirstGroup(h.backendGroups);
      }
      b := Backend(ups, h.id, "", false);
    }
    BackendMeans(h, path, b);
  }

  /** The cached response for `p`, and the cache after the lookup and after a store. */
  function HitIn(codec: Codec, c: seq<Slot>, p: Pending, now: int): Option<Response> {
    if !p.cacheable then None
    else match AfterGet(c, KeyOf(p), now).1
         case None => None
         case Some(raw) => codec.dec(raw)
  }

  function AfterLookup(c: seq<Slot>, p: Pending, now: int): seq<Slot> {
    if p.cacheable then AfterGet(c, KeyOf(p), now).0 else c
  }

  function AfterStore(c: seq<Slot>, limits: Limits, stored: Option<(Op, Origin)>): seq<Slot> {
    if stored.None? then c else MemCache.Step(c, limits, stored.value.0)
  }

  /** The cache of the class goes through the states of the machine's list of cache calls. */
  lemma CacheFollowsCalls(setup: Setup, codec: Codec, s: Edge, p: Pending, now: int, stored: Option<(Op, Origin)>)
    ensures var c := MemCache.Run(s.ops, setup.limits);
            && Cached(setup, codec, s, p, now) == HitIn(codec, c, p, now)
            && MemCache.Run((if p.cacheable then s.Call(Get(KeyOf(p), now), None) else s).ops, setup.limits)
               == AfterLookup(c, p, now)
            && var s' := if stored.Some? then s.Call(stored.value.0, Some(stored.value.1)) else s;
               MemCache.Run(s'.ops, setup.limits)
               == AfterStore(c, setup.limits, stored)
  {
    hide AfterGet, AfterSet, Unexpired;
    assert (s.ops + [Get(KeyOf(p), now)])[..|s.ops|] == s.ops;
    if stored.Some? { assert (s.ops + [stored.value.0])[..|s.ops|] == s.ops; }
  }

  class Server {
    const setup: Setup
    const codec: Codec
    const cache: MemStore
    const balancer: Balancer.RoundRobin
    var conf: Config

    ghost predicate Valid()
      reads this, cache, cache.ll
    {
      cache.Valid() && cache.limits == setup.limits
    }

    constructor (setup: Setup, codec: Codec, cache: MemStore)
      requires cache.Valid() && cache.limits == setup.limits
      ensures Valid() && this.setup == setup && this.codec == codec && this.cache == cache
    {
      this.setup, this.codec, this.cache := setup, codec, cache;
      this.balancer := new Balancer.RoundRobin();
      this.conf := Config(map[], false, true);
    }

    /** `SetHosts`: of the hosts that list a domain, the last one gets it. */
    method SetHosts(hosts: seq<Host>)
      requires Valid()
      modifies this`conf
      ensures Valid() && IsIndex(conf.byHost, hosts)
      ensures conf.wafActive == old(conf.wafActive) && conf.cacheEnabled == old(conf.cacheEnabled)
    {
      var idx := BuildIndex(hosts);
      conf := conf.(byHost := idx);
    }

    /** `SetEnabled`; the WAF is active when it is switched on and its engine is built. */
    method SetEnabled(active: bool, cacheOn: bool)
      requires Valid()
      modifies this`conf
      ensures Valid() && conf == old(conf).(wafActive := active, cacheEnabled := cacheOn)
    {
      conf := conf.(wafActive := active, cacheEnabled := cacheOn);
    }

    /** The backend choice of one request; the round-robin counter of the backend advances. */
    method Choose(h: EdgeHost, path: string) returns (choice: Balancer.Choice, b: Backend)
      modifies balancer
      ensures IsBackend(h, path, b) && ServesPath(h, path, b)
      ensures Balanced(b, old(balancer.rrState), balancer.rrState, choice)
    {
      hide IsBackend, ServesPath;
      b := ResolveBackend(h, path);
      choice := balancer.Balance(b.counter, |b.upstreams|);
    }

    /** The cache lookup. */
    method TryCache(p: Pending, now: int) returns (hit: Option<Response>)
      requires Valid()
      modifies cache
      ensures Valid() && forall e :: e in cache.ll ==> e in old(cache.ll)
      ensures cache.Contents == AfterLookup(old(cache.Contents), p, now)
      ensures hit == HitIn(codec, old(cache.Contents), p, now)
    {
      hide AfterGet;
      if !p.cacheable {
        return None;
      }
      var raw := cache.Get(KeyOf(p), now);
      if raw.None? {
        return None;
      }
      return codec.dec(raw.value);
    }

    /** `serveUpstream`, given what the upstream sent and the WAF's verdict on it. */
    method ServeUpstream(p: Pending, got: Upstreamed, wafBlocks: bool, now: int) returns (reply: Reply)
      requires Valid()
      modifies cache, cache.ll
      ensures Valid() && reply == Finish(setup, p, got, wafBlocks)
      ensures cache.Contents
           == AfterStore(old(cache.Contents), setup.limits, Stored(setup, codec, p, reply, now))
    {
      hide AfterSet, ResponseTtl;
      if got.Failed? {
        return BadGateway;
      }
      if p.applyWaf && wafBlocks {
        return BlockedByWaf;
      }
      if |got.resp.body| > setup.maxEntryBytes {
        return Streamed;
      }
      if p.cacheable {
        var ttl := ResponseTtl(got.resp, setup.defaultTtl);
        if ttl.Some? {
          var raw := codec.enc(got.resp);
          if raw.Some? {
            cache.Set(KeyOf(p), raw.value, ttl.value, now);
          }
        }
      }
      return Miss(got.resp);
    }

    /**
     `ServeHTTP` with nothing in between: the gate with the balancer's `choice` in it, the lookup
     at `now`, and the upstream's part at `later`.
     */
    method ServeHttp(req: Request, wafBlocks: bool, got: Upstreamed, wafBlocksResponse: bool, now: int, later: int)
      returns (reply: Reply, ghost choice: Balancer.Choice, ghost b: Backend)
      requires Valid()
      modifies cache, cache.ll, balancer
      ensures Valid()
      ensures if ReachesBackend(setup, conf, req, wafBlocks) then
                && IsBackend(HostFor(conf, HostOnly(req.host)).value, req.path, b)
                && ServesPath(HostFor(conf, HostOnly(req.host)).value, req.path, b)
                && Balanced(b, old(balancer.rrState), balancer.rrState, choice)
              else balancer.rrState == old(balancer.rrState)
      ensures match Gate(setup, conf, req, wafBlocks, choice)
              case Answer(r) => reply == r && cache.Contents == old(cache.Contents)
              case Proceed(p) =>
                var looked, hit := AfterLookup(old(cache.Contents), p, now), HitIn(codec, old(cache.Contents), p, now);
                if hit.Some? then reply == Hit(hit.value) && cache.Contents == looked
                else reply == Finish(setup, p, got, wafBlocksResponse)
                     && cache.Contents == AfterStore(looked, setup.limits, Stored(setup, codec, p, reply, later))
    {
      hide AfterGet, AfterLookup, HitIn, AfterStore, Stored, Finish, IsUpgrade, WantsStream, RequestCacheable,
           ServesPath;
      choice, b := Balancer.NoUpstream, Backend([], "", "", false);
      if setup.token != "" && First(req.header, EDGE_TOKEN_HEADER) != setup.token {
        return Forbidden, choice, b;
      }
      var domain := HostOnly(req.host);
      var found := HostFor(conf, domain);
      if found.None? {
        return BadGateway, choice, b;
      }
      var h := found.value;
      var applyWaf := h.waf && conf.wafActive;
      if applyWaf && wafBlocks {
        return BlockedByWaf, choice, b;
      }
      var picked, backend := Choose(h, req.path);
      choice, b := picked, backend;
      match picked {
        case Panics => return Aborted, choice, b;
        case NoUpstream => return BadGateway, choice, b;
        case Chosen(_) =>
      }
      if IsUpgrade(req) || WantsStream(req) {
        return Streamed, choice, b;
      }
      var cacheable := h.cache && conf.cacheEnabled && !backend.isLocation && RequestCacheable(req);
      if !cacheable && !applyWaf {
        return Streamed, choice, b;
      }
      var p := Pending(req, domain, cacheable, applyWaf);
      var hit := TryCache(p, now);
      if hit.Some? {
        return Hit(hit.value), choice, b;
      }
      reply := ServeUpstream(p, got, wafBlocksResponse, later);
    }
  }
}

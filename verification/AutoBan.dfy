/** The auto-ban windows of internal/engine/bans.go. */
module AutoBan {
  import opened Windows

  datatype BanConfig = BanConfig(enabled: bool, threshold: int, window: int)

  type Hits = map<string, seq<int>>

  function ListOf(h: Hits, ip: string): seq<int> { if ip in h then h[ip] else [] }

  /** The window of `ip` with one more block in it. */
  function Window(h: Hits, cfg: BanConfig, ip: string, now: int): seq<int> {
    Newer(ListOf(h, ip) + [now], now - cfg.window)
  }

  predicate Crosses(h: Hits, cfg: BanConfig, ip: string, now: int) {
    |Window(h, cfg, ip, now)| >= cfg.threshold
  }

  function AfterHit(h: Hits, cfg: BanConfig, ip: string, now: int): Hits {
    if Crosses(h, cfg, ip, now) then h - {ip} else h[ip := Window(h, cfg, ip, now)]
  }

  function AfterUnban(h: Hits, ip: string): Hits { h - {ip} }

  predicate Stale(ts: seq<int>, cut: int) { ts == [] || ts[|ts| - 1] < cut }

  function AfterSweep(h: Hits, cfg: BanConfig, now: int): Hits {
    map ip | ip in h && !Stale(h[ip], now - cfg.window) :: h[ip]
  }

  // ---------------------------------------------------------------- runs

  /** A WAF detection, an operator's unban, or the background sweep, each with its clock. */
  datatype Event =
    | Detection(ip: string, blocked: bool, now: int)
    | Unban(ip: string)
    | Sweep(now: int)

  /** `onWAFEvent` counts it. */
  predicate Counted(e: Event, cfg: BanConfig) {
    e.Detection? && e.blocked && e.ip != "" && cfg.enabled
  }

  function Step(h: Hits, cfg: BanConfig, e: Event): Hits {
    match e
    case Detection(ip, blocked, now) => if Counted(e, cfg) then AfterHit(h, cfg, ip, now) else h
    case Unban(ip) => AfterUnban(h, ip)
    case Sweep(now) => AfterSweep(h, cfg, now)
  }

  function Run(es: seq<Event>, cfg: BanConfig): Hits {
    if es == [] then map[] else Step(Run(es[..|es| - 1], cfg), cfg, es[|es| - 1])
  }

  /**
   The declarative history of an address: the times of all its blocked requests since it was last
   banned or unbanned, while auto-ban is on. Nothing is dropped for being old, and neither sweeps nor
   detections that were only logged occur in it.
   */
  function Since(es: seq<Event>, cfg: BanConfig, ip: string): seq<int> {
    if es == [] then []
    else
      var earlier, e := Since(es[..|es| - 1], cfg, ip), es[|es| - 1];
      if e.Detection? && e.ip == ip && e.blocked && ip != "" && cfg.enabled then
        if ReachesThreshold(earlier, cfg, e.now) then [] else earlier + [e.now]
      else if e == Unban(ip) then []
      else earlier
  }

  /** With a block at `now`, at least `threshold` blocks lie strictly inside the window. */
  predicate ReachesThreshold(history: seq<int>, cfg: BanConfig, now: int) {
    |Newer(history + [now], now - cfg.window)| >= cfg.threshold
  }

  /** No detection of the run is later than `now`, and no sweep more than a nanosecond later. */
  ghost predicate NotAfter(es: seq<Event>, now: int) {
    forall e :: e in es && !e.Unban? ==> e.now <= now + if e.Sweep? then 1 else 0
  }

  /** Detections, which one goroutine handles, are in order; no sweep before them is further ahead than that. */
  ghost predicate WellTimed(es: seq<Event>) {
    forall i :: 0 <= i < |es| && es[i].Detection? ==> NotAfter(es[..i], es[i].now)
  }

  // ---------------------------------------------------------------- the invariant

  /** From `now` on, the kept window of `ip` and its full history cannot be told apart. */
  ghost predicate AlikeAt(h: Hits, es: seq<Event>, cfg: BanConfig, now: int, ip: string) {
    Newer(ListOf(h, ip), now - cfg.window) == Newer(Since(es, cfg, ip), now - cfg.window)
  }

  ghost predicate Alike(h: Hits, es: seq<Event>, cfg: BanConfig, now: int) {
    forall ip :: AlikeAt(h, es, cfg, now, ip)
  }

  /** Kept windows are ascending, hold times of detections only, and stay under the threshold. */
  ghost predicate Kept(h: Hits, es: seq<Event>, cfg: BanConfig) {
    forall ip :: ip in h ==> Ascending(h[ip]) && |h[ip]| < cfg.threshold && AllSeen(h[ip], es)
  }

  ghost predicate AllSeen(ts: seq<int>, es: seq<Event>) {
    forall t :: t in ts ==> exists e :: e in es && e.Detection? && e.now == t
  }

  lemma SinceStep(es: seq<Event>, cfg: BanConfig, e: Event, ip: string)
    ensures Since(es + [e], cfg, ip)
         == if Counted(e, cfg) && e.ip == ip then
              if ReachesThreshold(Since(es, cfg, ip), cfg, e.now) then [] else Since(es, cfg, ip) + [e.now]
            else if e == Unban(ip) then []
            else Since(es, cfg, ip)
  {
    assert (es + [e])[..|es|] == es;
  }

  lemma SameDecision(h: Hits, es: seq<Event>, cfg: BanConfig, ip: string, now: int)
    requires AlikeAt(h, es, cfg, now, ip)
    ensures Window(h, cfg, ip, now) == Newer(Since(es, cfg, ip) + [now], now - cfg.window)
    ensures Crosses(h, cfg, ip, now) <==> ReachesThreshold(Since(es, cfg, ip), cfg, now)
  {
    hide Newer, Since;
    NewerAppend(ListOf(h, ip), now, now - cfg.window);
    NewerAppend(Since(es, cfg, ip), now, now - cfg.window);
  }

  lemma HitKeepsAlike(h: Hits, es: seq<Event>, cfg: BanConfig, e: Event, now: int, ip: string)
    requires Counted(e, cfg) && e.now <= now && AlikeAt(h, es, cfg, e.now, e.ip) && AlikeAt(h, es, cfg, now, ip)
    ensures AlikeAt(AfterHit(h, cfg, e.ip, e.now), es + [e], cfg, now, ip)
  {
    hide Since, Newer;
    SinceStep(es, cfg, e, ip);
    if ip == e.ip {
      SameDecision(h, es, cfg, ip, e.now);
      var list, history := ListOf(h, ip), Since(es, cfg, ip);
      NewerTwice(list + [e.now], e.now - cfg.window, now - cfg.window);
      NewerAppend(list, e.now, now - cfg.window);
      NewerAppend(history, e.now, now - cfg.window);
    }
  }

  lemma SweepKeepsAlike(h: Hits, es: seq<Event>, cfg: BanConfig, e: Event, now: int, ip: string)
    requires e.Sweep? && e.now <= now + 1 && AlikeAt(h, es, cfg, now, ip) && (ip in h ==> Ascending(h[ip]))
    ensures AlikeAt(AfterSweep(h, cfg, e.now), es + [e], cfg, now, ip)
  {
    SinceStep(es, cfg, e, ip);
    hide Since, Newer;
    if ip in h && ip !in AfterSweep(h, cfg, e.now) {
      NothingNewer(h[ip], now - cfg.window);
    }
  }

  lemma StepKeepsAlike(h: Hits, es: seq<Event>, cfg: BanConfig, e: Event, now: int, ip: string)
    requires (e.Unban? || e.now <= now + if e.Sweep? then 1 else 0) && Kept(h, es, cfg) && AlikeAt(h, es, cfg, now, ip)
    requires Counted(e, cfg) ==> AlikeAt(h, es, cfg, e.now, e.ip)
    ensures AlikeAt(Step(h, cfg, e), es + [e], cfg, now, ip)
  {
    SinceStep(es, cfg, e, ip);
    hide Since, Newer, Ascending;
    if Counted(e, cfg) {
      HitKeepsAlike(h, es, cfg, e, now, ip);
    } else if e.Sweep? {
      SweepKeepsAlike(h, es, cfg, e, now, ip);
    }
  }

  lemma HitKeepsKept(h: Hits, es: seq<Event>, cfg: BanConfig, e: Event)
    requires Kept(h, es, cfg) && Counted(e, cfg) && NotAfter(es, e.now)
    ensures var w := Window(h, cfg, e.ip, e.now); Ascending(w) && AllSeen(w, es + [e])
  {
    hide Newer;
    var list := ListOf(h, e.ip);
    forall i | 0 <= i < |list| ensures list[i] <= e.now {
      assert list[i] in list;
    }
    assert Ascending(list);
    assert Ascending(list + [e.now]);
    NewerAscending(list + [e.now], e.now - cfg.window);
    forall t | t in Window(h, cfg, e.ip, e.now) ensures exists d :: d in es + [e] && d.Detection? && d.now == t {
      if t in list {
        var d :| d in es && d.Detection? && d.now == t;
        assert d in es + [e];
      } else {
        assert e in es + [e];
      }
    }
  }

  lemma StepKeepsKept(h: Hits, es: seq<Event>, cfg: BanConfig, e: Event)
    requires Kept(h, es, cfg) && (e.Detection? ==> NotAfter(es, e.now))
    ensures Kept(Step(h, cfg, e), es + [e], cfg)
  {
    if Counted(e, cfg) { HitKeepsKept(h, es, cfg, e); }
    hide Window;
    var h' := Step(h, cfg, e);
    forall ip | ip in h' ensures Ascending(h'[ip]) && |h'[ip]| < cfg.threshold && AllSeen(h'[ip], es + [e]) {
      if ip in h && h'[ip] == h[ip] {
        forall t | t in h[ip] ensures exists d :: d in es + [e] && d.Detection? && d.now == t {
          var d :| d in es && d.Detection? && d.now == t;
          assert d in es + [e];
        }
      }
    }
  }

  lemma WellTimedPrefix(es: seq<Event>, e: Event)
    requires WellTimed(es + [e])
    ensures WellTimed(es) && (e.Detection? ==> NotAfter(es, e.now))
  {
    var all := es + [e];
    assert all[..|es|] == es && all[|es|] == e;
    forall i | 0 <= i < |es| && es[i].Detection? ensures NotAfter(es[..i], es[i].now) {
      assert all[..i] == es[..i] && all[i] == es[i];
    }
  }

  lemma {:induction false} EveryRun(es: seq<Event>, cfg: BanConfig, now: int)
    requires WellTimed(es) && NotAfter(es, now)
    ensures Alike(Run(es, cfg), es, cfg, now) && Kept(Run(es, cfg), es, cfg)
  {
    if es != [] {
      var before, e := es[..|es| - 1], es[|es| - 1];
      assert es == before + [e] && e in es;
      WellTimedPrefix(before, e);
      EveryRun(before, cfg, now);
      if Counted(e, cfg) { EveryRun(before, cfg, e.now); }
      StepKeepsKept(Run(before, cfg), before, cfg, e);
      forall ip ensures AlikeAt(Run(es, cfg), es, cfg, now, ip) {
        StepKeepsAlike(Run(before, cfg), before, cfg, e, now, ip);
      }
    }
  }

  // ---------------------------------------------------------------- what it guarantees

  /**
   After any run, a block crosses the threshold exactly when the address has that many blocks
   strictly inside the window since it was last banned or unbanned; and no kept list is as long
   as the threshold.
   */
  lemma DecisionIsDeclarative(es: seq<Event>, cfg: BanConfig, ip: string, now: int)
    requires WellTimed(es) && NotAfter(es, now)
    ensures Crosses(Run(es, cfg), cfg, ip, now) <==> ReachesThreshold(Since(es, cfg, ip), cfg, now)
    ensures forall k :: k in Run(es, cfg) ==> |Run(es, cfg)[k]| < cfg.threshold
  {
    EveryRun(es, cfg, now);
    SameDecision(Run(es, cfg), es, cfg, ip, now);
  }

  function NoSweeps(es: seq<Event>): seq<Event> {
    if es == [] then []
    else if es[|es| - 1].Sweep? then NoSweeps(es[..|es| - 1])
    else NoSweeps(es[..|es| - 1]) + [es[|es| - 1]]
  }

  lemma {:induction false} NoSweepsWellTimed(es: seq<Event>)
    requires WellTimed(es)
    ensures WellTimed(NoSweeps(es)) && forall e :: e in NoSweeps(es) ==> e in es
  {
    if es != [] {
      var before, e := es[..|es| - 1], es[|es| - 1];
      assert es == before + [e];
      WellTimedPrefix(before, e);
      NoSweepsWellTimed(before);
      var kept := NoSweeps(before);
      forall i | 0 <= i <= |kept| && (kept + [e])[i].Detection?
        ensures NotAfter((kept + [e])[..i], (kept + [e])[i].now)
      {
        assert (kept + [e])[..i] == kept[..i];
        if i < |kept| { assert NotAfter(kept[..i], kept[i].now); }
      }
    }
  }

  lemma {:induction false} NoSweepsSince(es: seq<Event>, cfg: BanConfig, ip: string)
    ensures Since(NoSweeps(es), cfg, ip) == Since(es, cfg, ip)
  {
    if es != [] {
      var before, e := es[..|es| - 1], es[|es| - 1];
      assert es == before + [e];
      NoSweepsSince(before, cfg, ip);
      SinceStep(before, cfg, e, ip);
      SinceStep(NoSweeps(before), cfg, e, ip);
    }
  }

  /** Sweeps, put anywhere, change no decision. */
  lemma SweepsAreInvisible(es: seq<Event>, cfg: BanConfig, ip: string, now: int)
    requires WellTimed(es) && NotAfter(es, now)
    ensures Crosses(Run(es, cfg), cfg, ip, now) <==> Crosses(Run(NoSweeps(es), cfg), cfg, ip, now)
  {
    NoSweepsWellTimed(es);
    NoSweepsSince(es, cfg, ip);
    DecisionIsDeclarative(es, cfg, ip, now);
    DecisionIsDeclarative(NoSweeps(es), cfg, ip, now);
  }

  // ---------------------------------------------------------------- how far a sweep may be ahead

  /** The sweep with clock `s`, right before a block with clock `now`, does not change the decision. */
  ghost predicate Harmless(es: seq<Event>, cfg: BanConfig, ip: string, now: int, s: int) {
    Crosses(Run(es + [Sweep(s)], cfg), cfg, ip, now) <==> Crosses(Run(es, cfg), cfg, ip, now)
  }

  lemma RunOne(es: seq<Event>, cfg: BanConfig, e: Event)
    ensures Run(es + [e], cfg) == Step(Run(es, cfg), cfg, e)
  {
    assert (es + [e])[..|es|] == es;
  }

  // A sweep that is at most a nanosecond ahead drops nothing that the block would have counted.
  lemma SmallLagIsHarmless(es: seq<Event>, cfg: BanConfig, ip: string, now: int, s: int)
    requires WellTimed(es) && s <= now + 1
    ensures Harmless(es, cfg, ip, now, s)
  {
    RunOne(es, cfg, Sweep(s));
    KeptInEveryRun(es, cfg);
    hide Newer, Run, Ascending, WellTimed, AllSeen, AfterSweep, Window;
    SweptWindow(Run(es, cfg), cfg, ip, now, s);
  }

  lemma SweptWindow(h: Hits, cfg: BanConfig, ip: string, now: int, s: int)
    requires (ip in h ==> Ascending(h[ip])) && s <= now + 1
    ensures Window(AfterSweep(h, cfg, s), cfg, ip, now) == Window(h, cfg, ip, now)
  {
    hide Newer;
    if ip in h && Stale(h[ip], s - cfg.window) {
      StaleIsEmpty(h[ip], now, now - cfg.window, s - cfg.window);
    }
  }

  lemma StaleIsEmpty(ts: seq<int>, now: int, cut: int, later: int)
    requires Ascending(ts) && Stale(ts, later) && later <= cut + 1
    ensures Newer(ts + [now], cut) == Newer([] + [now], cut)
  {
    NothingNewer(ts, cut);
    NewerAppend(ts, now, cut);
    NewerAppend([], now, cut);
  }

  lemma {:induction false} KeptInEveryRun(es: seq<Event>, cfg: BanConfig)
    requires WellTimed(es)
    ensures Kept(Run(es, cfg), es, cfg)
  {
    if es != [] {
      var before, e := es[..|es| - 1], es[|es| - 1];
      assert es == before + [e];
      WellTimedPrefix(before, e);
      KeptInEveryRun(before, cfg);
      StepKeepsKept(Run(before, cfg), before, cfg, e);
    }
  }

  // Without a window nothing is ever kept, and nothing is kept when the auto-ban is off.
  lemma {:induction false} NothingKept(es: seq<Event>, cfg: BanConfig, ip: string)
    requires !cfg.enabled || cfg.window <= 0
    ensures ListOf(Run(es, cfg), ip) == []
  {
    if es != [] {
      var before, e := es[..|es| - 1], es[|es| - 1];
      NothingKept(before, cfg, ip);
      if Counted(e, cfg) && e.ip == ip { NewerAppend([], e.now, e.now - cfg.window); }
    }
  }

  function Copies(t: int, n: nat): seq<int> { seq(n, _ => t) }

  lemma {:induction false} CopiesAreNewer(t: int, n: nat, cut: int)
    requires t > cut
    ensures Newer(Copies(t, n), cut) == Copies(t, n)
  {
    if n > 0 {
      CopiesSnoc(t, n - 1);
      hide Copies, Newer;
      CopiesAreNewer(t, n - 1, cut);
      NewerAppend(Copies(t, n - 1), t, cut);
    } else {
      hide Newer;
      NewerIsShorter(Copies(t, n), cut);
    }
  }

  lemma CopiesSnoc(t: int, n: nat)
    ensures Copies(t, n + 1) == Copies(t, n) + [t]
  {}

  lemma NewerIsShorter(ts: seq<int>, cut: int)
    ensures |Newer(ts, cut)| <= |ts|
  {}

  // `n` blocks of one address at one instant, too few for a ban, are all kept.
  lemma {:induction false} BlocksAreKept(cfg: BanConfig, ip: string, t: int, n: nat) returns (es: seq<Event>)
    requires cfg.enabled && ip != "" && n < cfg.threshold && cfg.window >= 1
    ensures WellTimed(es) && NotAfter(es, t) && ListOf(Run(es, cfg), ip) == Copies(t, n)
  {
    if n == 0 { return []; }
    var before := BlocksAreKept(cfg, ip, t, n - 1);
    var e := Detection(ip, true, t);
    es := before + [e];
    RunOne(before, cfg, e);
    CopiesAreNewer(t, n, t - cfg.window);
    assert Copies(t, n - 1) + [t] == Copies(t, n);
    forall i | 0 <= i < |es| && es[i].Detection? ensures NotAfter(es[..i], es[i].now) {
      assert es[..i] == before[..i];
      if i < |before| { assert NotAfter(before[..i], before[i].now); }
    }
  }

  // A sweep two nanoseconds ahead can drop a window that the block would have completed.
  lemma LargeLagMissesBan(cfg: BanConfig, ip: string, now: int, s: int) returns (es: seq<Event>)
    requires cfg.enabled && ip != "" && cfg.threshold >= 2 && cfg.window >= 1 && s > now + 1
    ensures WellTimed(es) && NotAfter(es, now)
    ensures Crosses(Run(es, cfg), cfg, ip, now) && !Crosses(Run(es + [Sweep(s)], cfg), cfg, ip, now)
  {
    var n, t := cfg.threshold - 1, now - cfg.window + 1;
    hide Newer, Run, WellTimed, Copies;
    es := BlocksAreKept(cfg, ip, t, n);
    RunOne(es, cfg, Sweep(s));
    CopiesDecide(t, n, now, now - cfg.window);
    assert [] + [now] == [now];
  }

  lemma CopiesDecide(t: int, n: nat, now: int, cut: int)
    requires n >= 1 && t > cut && now > cut
    ensures |Newer(Copies(t, n) + [now], cut)| == n + 1 && |Newer([now], cut)| == 1
    ensures Copies(t, n) != [] && Copies(t, n)[|Copies(t, n)| - 1] == t
  {
    CopiesAreNewer(t, n, cut);
    NewerAppend(Copies(t, n), now, cut);
    NewerAppend([], now, cut);
    assert [] + [now] == [now];
  }

  /**
   `onWAFEvent` and the sweep read their clocks before they take the lock, so a sweep may get in
   between a block's clock and its lock. It never changes the decision if and only if its clock is
   at most a nanosecond ahead, but for configurations in which windows do not matter at all.
   */
  lemma LateLockMissesBan(cfg: BanConfig, now: int, s: int)
    ensures (forall es, ip :: WellTimed(es) && NotAfter(es, now) ==> Harmless(es, cfg, ip, now, s))
       <==> s <= now + 1 || !cfg.enabled || cfg.threshold <= 1 || cfg.window <= 0
  {
    hide Newer, Run, WellTimed, NotAfter, Harmless, Crosses;
    if s <= now + 1 {
      forall es, ip | WellTimed(es) ensures Harmless(es, cfg, ip, now, s) { SmallLagIsHarmless(es, cfg, ip, now, s); }
    } else if !cfg.enabled || cfg.window <= 0 {
      forall es, ip ensures Harmless(es, cfg, ip, now, s) {
        WindowsDoNotMatter(es, cfg, ip, now, s);
      }
    } else if cfg.threshold <= 1 {
      forall es, ip ensures Harmless(es, cfg, ip, now, s) {
        EveryBlockBans(es, cfg, ip, now, s);
      }
    } else {
      var es := LargeLagMissesBan(cfg, "ip", now, s);
      assert !Harmless(es, cfg, "ip", now, s) by { NotHarmless(es, cfg, "ip", now, s); }
    }
  }

  lemma WindowsDoNotMatter(es: seq<Event>, cfg: BanConfig, ip: string, now: int, s: int)
    requires !cfg.enabled || cfg.window <= 0
    ensures Harmless(es, cfg, ip, now, s)
  {
    NothingKept(es, cfg, ip);
    NothingKept(es + [Sweep(s)], cfg, ip);
    hide Run, Newer;
  }

  lemma EveryBlockBans(es: seq<Event>, cfg: BanConfig, ip: string, now: int, s: int)
    requires cfg.threshold <= 1 && cfg.window >= 1
    ensures Harmless(es, cfg, ip, now, s)
  {
    NewerAppend(ListOf(Run(es, cfg), ip), now, now - cfg.window);
    NewerAppend(ListOf(Run(es + [Sweep(s)], cfg), ip), now, now - cfg.window);
    hide Run, Newer, ListOf;
  }

  lemma NotHarmless(es: seq<Event>, cfg: BanConfig, ip: string, now: int, s: int)
    requires Crosses(Run(es, cfg), cfg, ip, now) && !Crosses(Run(es + [Sweep(s)], cfg), cfg, ip, now)
    ensures !Harmless(es, cfg, ip, now, s)
  {}

  lemma HitOutcome(h: Hits, cfg: BanConfig, ip: string, now: int)
    ensures Window(h, cfg, ip, now) == Newer(ListOf(h, ip) + [now], now - cfg.window)
    ensures Crosses(h, cfg, ip, now) <==> |Window(h, cfg, ip, now)| >= cfg.threshold
    ensures AfterHit(h, cfg, ip, now) == if Crosses(h, cfg, ip, now) then h - {ip} else h[ip := Window(h, cfg, ip, now)]
  {}

  // ---------------------------------------------------------------- the class

  class Bans {
    var banHits: map<string, Slice>
    ghost var Contents: Hits  // the elements of the slices

    ghost function Buffers(): set<array<int>>
      reads this
    {
      set ip | ip in banHits :: banHits[ip].buf
    }

    /** No two addresses share a backing array. */
    ghost predicate Separate()
      reads this
    {
      forall ip, ip' :: ip in banHits && ip' in banHits && ip != ip' ==> banHits[ip].buf != banHits[ip'].buf
    }

    ghost predicate Valid()
      reads this, Buffers()
    {
      && Separate() && banHits.Keys == Contents.Keys
      && forall ip :: ip in banHits ==> InBounds(banHits[ip]) && Elements(banHits[ip]) == Contents[ip]
    }

    /** Valid, but for the slice of one address, which is being worked on. */
    ghost predicate ValidBut(x: string)
      reads this, Buffers()
    {
      && Separate() && banHits.Keys == Contents.Keys
      && forall ip :: ip in banHits && ip != x ==> InBounds(banHits[ip]) && Elements(banHits[ip]) == Contents[ip]
    }

    constructor ()
      ensures Valid() && Contents == map[]
    {
      banHits, Contents := map[], map[];
    }

    /** The slice of an address with one more block, cut to the window. */
    method WindowOf(ip: string, window: int, now: int) returns (hits: Slice)
      requires Valid()
      modifies Buffers()
      ensures InBounds(hits) && (fresh(hits.buf) || (ip in banHits && hits.buf == banHits[ip].buf))
      ensures Elements(hits) == Newer(ListOf(Contents, ip) + [now], now - window)
      ensures forall x :: x in banHits && x != ip ==> banHits[x].buf != hits.buf
      ensures ValidBut(ip)
    {
      hide Newer;
      if ip in banHits {
        hits := banHits[ip];
      } else {
        var empty := new int[0];
        hits := Slice(empty, 0);
        assert Elements(hits) == [];
      }
      hits := Append(hits, now);
      hits := FilterInPlace(hits, now - window);
    }

    /** The critical section of `onWAFEvent`; `over` is its decision, `count` the hits it reports. */
    method OnWafEvent(cfg: BanConfig, ip: string, blocked: bool, now: int) returns (over: bool, count: nat)
      requires Valid()
      modifies this, Buffers()
      ensures Valid() && Contents == Step(old(Contents), cfg, Detection(ip, blocked, now))
      ensures Counted(Detection(ip, blocked, now), cfg) ==>
                over == Crosses(old(Contents), cfg, ip, now) && count == |Window(old(Contents), cfg, ip, now)|
      ensures !Counted(Detection(ip, blocked, now), cfg) ==> !over
    {
      if !blocked || ip == "" || !cfg.enabled {
        return false, 0;
      }
      over, count := CountHit(cfg, ip, now);
    }

    // The counted half: take the window, then forget it or keep it.
    method CountHit(cfg: BanConfig, ip: string, now: int) returns (over: bool, count: nat)
      requires Valid()
      modifies this, Buffers()
      ensures Valid() && Contents == AfterHit(old(Contents), cfg, ip, now)
      ensures over == Crosses(old(Contents), cfg, ip, now) && count == |Window(old(Contents), cfg, ip, now)|
    {
      hide Newer, Step, AfterHit, Crosses, Window, ListOf, Buffers, Separate, InBounds, Elements;
      ghost var was := Contents;
      var hits := WindowOf(ip, cfg.window, now);
      count := Length(hits);
      over := count >= cfg.threshold;
      HitOutcome(was, cfg, ip, now);
      if over {
        Forget(ip);
      } else {
        Keep(ip, hits);
      }
    }

    method Length(s: Slice) returns (n: nat)
      requires InBounds(s)
      ensures n == |Elements(s)|
    {
      n := s.len;
    }

    method Keep(ip: string, hits: Slice)
      requires ValidBut(ip) && InBounds(hits)
      requires forall x :: x in banHits && x != ip ==> banHits[x].buf != hits.buf
      modifies this
      ensures Valid() && Contents == old(Contents)[ip := Elements(hits)]
    {
      banHits := banHits[ip := hits];
      Contents := Contents[ip := Elements(hits)];
    }

    method Forget(ip: string)
      requires ValidBut(ip)
      modifies this
      ensures Valid() && Contents == old(Contents) - {ip} && Buffers() <= old(Buffers())
    {
      banHits := banHits - {ip};
      Contents := Contents - {ip};
    }

    /** `RemoveBan` forgets the window of the address. */
    method RemoveBan(ip: string)
      requires Valid()
      modifies this
      ensures Valid() && Contents == AfterUnban(old(Contents), ip)
    {
      Forget(ip);
    }

    /** `sweepBanHits`: visit the map in any order, delete the stale windows. */
    method SweepBanHits(cfg: BanConfig, now: int)
      requires Valid()
      modifies this
      ensures Valid() && Contents == AfterSweep(old(Contents), cfg, now)
    {
      hide AfterSweep;
      var cut := now - cfg.window;
      var todo := banHits.Keys;
      while todo != {}
        invariant Valid() && todo <= banHits.Keys && Buffers() <= old(Buffers())
        invariant forall ip :: ip in Contents && ip !in todo ==> !Stale(Contents[ip], cut)
        invariant AfterSweep(Contents, cfg, now) == AfterSweep(old(Contents), cfg, now)
        decreases todo
      {
        var ip :| ip in todo;
        var ts := banHits[ip];
        todo := todo - {ip};
        assert Elements(ts) == Contents[ip];
        if ts.len == 0 || ts.buf[ts.len - 1] < cut {
          DropStale(Contents, cfg, now, ip);
          Forget(ip);
        }
      }
      NoneStale(Contents, cfg, now);
    }
  }

  lemma DropStale(h: Hits, cfg: BanConfig, now: int, ip: string)
    requires ip in h && Stale(h[ip], now - cfg.window)
    ensures AfterSweep(h - {ip}, cfg, now) == AfterSweep(h, cfg, now)
  {}

  lemma NoneStale(h: Hits, cfg: BanConfig, now: int)
    requires forall ip :: ip in h ==> !Stale(h[ip], now - cfg.window)
    ensures AfterSweep(h, cfg, now) == h
  {}
}

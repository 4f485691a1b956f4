/** The crash-loop guard of internal/supervisor/supervisor.go. */
module CrashGuard {
  import opened Options
  import opened Windows

  // Each event below is one critical section of the supervisor, or one invocation of the callback,
  // and a run is any sequence of events: exits, respawns by sleeping watchdogs, log trips, timer
  // firings and the steps of `Restart` in every order, with any number of processes. Times do not
  // go back, and a timer that was stopped does not fire.

  const CRASH_THRESHOLD := 3
  const CRASH_WINDOW := 10_000_000_000
  const HEALTHY_RESET := 30_000_000_000

  datatype State = Stopped | Running | Restarting | Crashed

  /**
   `timer` is the deadline of the armed health timer. `pending` counts trips whose callback was
   not invoked yet, `calls` the invocations since the last `Restart` cleared the guard, and
   `carried` what was pending then; `restarts` and `allCalls` count over the whole run.
   */
  datatype Guard = Guard(state: State, wantStop: bool, recentExits: seq<int>, crashLoop: bool, timer: Option<int>,
                         pending: nat, calls: nat, carried: nat, restarts: nat, allCalls: nat)

  datatype Event =
    | Spawned(now: int)      // spawnLocked, the process started
    | SpawnFailed            // spawnLocked, it did not
    | NoPipes                // spawnLocked could not even connect its output
    | Exited(now: int)       // the watcher saw a process end
    | TimerFired(now: int)   // the health timer's function
    | RestartBegun           // the first section of Restart
    | StopRequested          // stopProcess
    | LogTrip                // TripCrashLoop
    | CallbackRun            // the goroutine of fireCrashLoop
    | CallbackDropped        // a watcher that tripped finds the context cancelled

  const Start := Guard(Stopped, false, [], false, None, 0, 0, 0, 0, 0)

  /** The exits that count at `now`, that one included. */
  function WithExit(exits: seq<int>, now: int): seq<int> {
    Newer(exits, now - CRASH_WINDOW) + [now]
  }

  /** An exit at `now` trips the guard. */
  predicate Trips(g: Guard, now: int) {
    !g.wantStop && !g.crashLoop && |WithExit(g.recentExits, now)| >= CRASH_THRESHOLD
  }

  function AfterExit(g: Guard, now: int): Guard {
    if g.wantStop then g.(state := Stopped)
    else
      g.(state := Crashed, recentExits := WithExit(g.recentExits, now),
         crashLoop := g.crashLoop || Trips(g, now),
         pending := g.pending + if Trips(g, now) then 1 else 0)
  }

  function Step(g: Guard, e: Event): Guard {
    match e
    case Spawned(now) => g.(state := Running, wantStop := false, timer := Some(now + HEALTHY_RESET))
    case SpawnFailed => g.(state := Crashed)
    case NoPipes => g
    case Exited(now) => AfterExit(g, now)
    case TimerFired(now) =>
      if g.timer.Some? && g.timer.value <= now then
        g.(timer := None, recentExits := if g.state == Running then [] else g.recentExits)
      else g
    case RestartBegun =>
      g.(state := Restarting, crashLoop := false, recentExits := [],
         calls := 0, carried := g.pending, restarts := g.restarts + 1)
    case StopRequested => g.(wantStop := true)
    case LogTrip => if g.crashLoop then g else g.(crashLoop := true, pending := g.pending + 1)
    case CallbackRun =>
      if g.pending > 0 then g.(pending := g.pending - 1, calls := g.calls + 1, allCalls := g.allCalls + 1) else g
    case CallbackDropped => if g.pending > 0 then g.(pending := g.pending - 1) else g
  }

  function Run(es: seq<Event>): Guard {
    if es == [] then Start else Step(Run(es[..|es| - 1]), es[|es| - 1])
  }

  function TimesOf(e: Event): seq<int> {
    match e
    case Spawned(now) => [now]
    case Exited(now) => [now]
    case TimerFired(now) => [now]
    case _ => []
  }

  ghost predicate NotAfter(es: seq<Event>, now: int) {
    forall e :: e in es ==> forall t :: t in TimesOf(e) ==> t <= now
  }

  ghost predicate WellTimed(es: seq<Event>) {
    forall i :: 0 <= i < |es| ==> forall t :: t in TimesOf(es[i]) ==> NotAfter(es[..i], t)
  }

  // ---------------------------------------------------------------- the declarative guard

  /** All unexpected exits since the last `Restart`, whatever their age, and the latch they set. */
  datatype Spec = Spec(wantStop: bool, latched: bool, exits: seq<int>)

  /** With an exit at `now`, three of them lie within ten seconds. */
  predicate ThreeWithin(exits: seq<int>, now: int) {
    |Newer(exits + [now], now - 10_000_000_000)| >= 3
  }

  function ExitSpec(s: Spec, now: int): Spec {
    if s.wantStop then s
    else s.(latched := s.latched || ThreeWithin(s.exits, now), exits := s.exits + [now])
  }

  /** Timers, failed spawns and callbacks have no part in the declarative guard. */
  function SpecOf(es: seq<Event>): Spec {
    if es == [] then Spec(false, false, []) else StepSpec(SpecOf(es[..|es| - 1]), es[|es| - 1])
  }

  function StepSpec(s: Spec, e: Event): Spec {
    match e
    case Spawned(_) => s.(wantStop := false)
    case Exited(now) => ExitSpec(s, now)
    case RestartBegun => s.(latched := false, exits := [])
    case StopRequested => s.(wantStop := true)
    case LogTrip => s.(latched := true)
    case _ => s
  }

  ghost predicate Matches(g: Guard, s: Spec, now: int) {
    && g.wantStop == s.wantStop && g.crashLoop == s.latched
    && Newer(g.recentExits, now - CRASH_WINDOW) == Newer(s.exits, now - CRASH_WINDOW)
  }

  /** While a process runs, every exit so far is at least as old as the start of the timer. */
  ghost predicate TimerIsLate(g: Guard, s: Spec) {
    g.state == Running && g.timer.Some? ==> AtMost(s.exits, g.timer.value - HEALTHY_RESET)
  }

  lemma SpecStep(es: seq<Event>, e: Event)
    ensures (es + [e])[..|es|] == es && Run(es + [e]) == Step(Run(es), e)
    ensures SpecOf(es + [e]) == StepSpec(SpecOf(es), e)
  {
    assert (es + [e])[..|es|] == es;
  }

  lemma SameDecision(g: Guard, s: Spec, now: int)
    requires Matches(g, s, now)
    ensures |WithExit(g.recentExits, now)| >= CRASH_THRESHOLD <==> ThreeWithin(s.exits, now)
  {
    NewerAppend(s.exits, now, now - CRASH_WINDOW);
  }

  lemma ExitMatches(es: seq<Event>, at: int, now: int)
    requires at <= now && Matches(Run(es), SpecOf(es), at) && Matches(Run(es), SpecOf(es), now)
    ensures Matches(Run(es + [Exited(at)]), SpecOf(es + [Exited(at)]), now)
  {
    hide Newer;
    var g, s := Run(es), SpecOf(es);
    SpecStep(es, Exited(at));
    SameDecision(g, s, at);
    var cut, later := at - CRASH_WINDOW, now - CRASH_WINDOW;
    NewerTwice(g.recentExits, cut, later);
    NewerAppend(Newer(g.recentExits, cut), at, later);
    NewerAppend(s.exits, at, later);
  }

  lemma TimerMatches(es: seq<Event>, at: int, now: int)
    requires at <= now && Matches(Run(es), SpecOf(es), now) && TimerIsLate(Run(es), SpecOf(es))
    ensures Matches(Run(es + [TimerFired(at)]), SpecOf(es + [TimerFired(at)]), now)
  {
    SpecStep(es, TimerFired(at));
    if Run(es).timer.Some? && Run(es).timer.value <= at && Run(es).state == Running {
      NothingNewer(SpecOf(es).exits, now - CRASH_WINDOW);
    }
  }

  lemma WellTimedPrefix(es: seq<Event>, e: Event)
    requires WellTimed(es + [e])
    ensures WellTimed(es) && forall t :: t in TimesOf(e) ==> NotAfter(es, t)
  {
    var all := es + [e];
    assert all[..|es|] == es && all[|es|] == e;
    forall i, t | 0 <= i < |es| && t in TimesOf(es[i]) ensures NotAfter(es[..i], t) {
      assert all[..i] == es[..i] && all[i] == es[i];
    }
  }

  lemma {:induction false} ExitsSeen(es: seq<Event>, now: int)
    requires NotAfter(es, now)
    ensures AtMost(SpecOf(es).exits, now)
  {
    if es != [] {
      var before, e := es[..|es| - 1], es[|es| - 1];
      assert forall d :: d in before ==> d in es;
      ExitsSeen(before, now);
      assert e in es;
      if e.Exited? { assert e.now in TimesOf(e); }
    }
  }

  lemma StepMatches(es: seq<Event>, e: Event, now: int)
    requires Matches(Run(es), SpecOf(es), now) && TimerIsLate(Run(es), SpecOf(es))
    requires forall t :: t in TimesOf(e) ==> t <= now
    requires e.Exited? ==> Matches(Run(es), SpecOf(es), e.now)
    ensures Matches(Run(es + [e]), SpecOf(es + [e]), now)
  {
    hide Newer;
    SpecStep(es, e);
    match e
    case Exited(at) =>
      assert at in TimesOf(e);
      ExitMatches(es, at, now);
    case TimerFired(at) =>
      assert at in TimesOf(e);
      TimerMatches(es, at, now);
    case _ =>
  }

  lemma StepKeepsTimerLate(es: seq<Event>, e: Event)
    requires TimerIsLate(Run(es), SpecOf(es))
    requires e.Spawned? ==> AtMost(SpecOf(es).exits, e.now)
    ensures TimerIsLate(Run(es + [e]), SpecOf(es + [e]))
  {
    hide Newer;
    SpecStep(es, e);
  }

  lemma {:induction false} EveryRun(es: seq<Event>, now: int)
    requires WellTimed(es) && NotAfter(es, now)
    ensures Matches(Run(es), SpecOf(es), now) && TimerIsLate(Run(es), SpecOf(es))
  {
    if es == [] { return; }
    var before, e := es[..|es| - 1], es[|es| - 1];
    assert es == before + [e] && e in es;
    assert forall d :: d in before ==> d in es;
    WellTimedPrefix(before, e);
    hide Run, SpecOf, Matches, TimerIsLate;
    EveryRun(before, now);
    if e.Exited? {
      assert e.now in TimesOf(e);
      EveryRun(before, e.now);
    }
    if e.Spawned? {
      assert e.now in TimesOf(e);
      ExitsSeen(before, e.now);
    }
    StepMatches(before, e, now);
    StepKeepsTimerLate(before, e);
  }

  // ---------------------------------------------------------------- the decision

  /**
   After any run, an exit trips the guard exactly when it was not asked for, the guard is not
   latched, and with it three unexpected exits since the last `Restart` lie within ten seconds.
   */
  lemma TripIsDeclarative(es: seq<Event>, now: int)
    requires WellTimed(es) && NotAfter(es, now)
    ensures Trips(Run(es), now) <==>
              !SpecOf(es).wantStop && !SpecOf(es).latched && ThreeWithin(SpecOf(es).exits, now)
  {
    EveryRun(es, now);
    SameDecision(Run(es), SpecOf(es), now);
  }

  function WithoutTimer(es: seq<Event>): seq<Event> {
    if es == [] then []
    else if es[|es| - 1].TimerFired? then WithoutTimer(es[..|es| - 1])
    else WithoutTimer(es[..|es| - 1]) + [es[|es| - 1]]
  }

  lemma {:induction false} WithoutTimerSpec(es: seq<Event>)
    ensures SpecOf(WithoutTimer(es)) == SpecOf(es)
  {
    if es != [] {
      var before, e := es[..|es| - 1], es[|es| - 1];
      assert SpecOf(es) == StepSpec(SpecOf(before), e);
      WithoutTimerSpec(before);
      var kept := WithoutTimer(before);
      SpecStep(kept, e);
      hide SpecOf, ExitSpec;
    }
  }

  lemma {:induction false} WithoutTimerWellTimed(es: seq<Event>)
    requires WellTimed(es)
    ensures WellTimed(WithoutTimer(es)) && forall e :: e in WithoutTimer(es) ==> e in es
  {
    if es != [] {
      var before, e := es[..|es| - 1], es[|es| - 1];
      assert es == before + [e];
      WellTimedPrefix(before, e);
      WithoutTimerWellTimed(before);
      AppendWellTimed(WithoutTimer(before), e);
    }
  }

  lemma AppendWellTimed(es: seq<Event>, e: Event)
    requires WellTimed(es) && forall t :: t in TimesOf(e) ==> NotAfter(es, t)
    ensures WellTimed(es + [e])
  {
    var all := es + [e];
    forall i, t | 0 <= i < |all| && t in TimesOf(all[i]) ensures NotAfter(all[..i], t) {
      assert all[..i] == es[..i];
      if i < |es| { assert all[i] == es[i]; }
    }
  }

  /** Clearing the window after thirty healthy seconds never changes a later decision. */
  lemma HealthTimerIsInvisible(es: seq<Event>, now: int)
    requires WellTimed(es) && NotAfter(es, now)
    ensures Trips(Run(es), now) <==> Trips(Run(WithoutTimer(es)), now)
  {
    WithoutTimerSpec(es);
    WithoutTimerWellTimed(es);
    TripIsDeclarative(es, now);
    TripIsDeclarative(WithoutTimer(es), now);
  }

  // ---------------------------------------------------------------- the callback

  /** The latch admits one trip between two restarts; every trip causes at most one call. */
  ghost predicate CallsBounded(g: Guard) {
    var latch := if g.crashLoop then 1 else 0;
    && g.calls + g.pending <= g.carried + latch
    && g.allCalls + g.pending <= g.restarts + latch
  }

  lemma {:induction false} EveryRunBoundsCalls(es: seq<Event>)
    ensures CallsBounded(Run(es))
  {
    if es != [] { EveryRunBoundsCalls(es[..|es| - 1]); }
  }

  lemma {:induction false} CarriedStays(es: seq<Event>, more: seq<Event>)
    requires RestartBegun !in more
    ensures Run(es + more).carried == Run(es).carried
  {
    if more == [] {
      assert es + more == es;
    } else {
      assert (es + more)[..|es + more| - 1] == es + more[..|more| - 1];
      CarriedStays(es, more[..|more| - 1]);
    }
  }

  // ---------------------------------------------------------------- trips and their callbacks

  /** How often the latch of the guard, which `Status` shows, has closed. */
  function TripsIn(es: seq<Event>): nat {
    if es == [] then 0
    else
      var before := es[..|es| - 1];
      TripsIn(before) + if !Run(before).crashLoop && Run(es).crashLoop then 1 else 0
  }

  /** How many of those trips have had their callback, or were dropped. */
  function SettledIn(es: seq<Event>): nat {
    if es == [] then 0
    else
      var before, e := es[..|es| - 1], es[|es| - 1];
      var n := SettledIn(before);
      if (e.CallbackRun? || e.CallbackDropped?) && n < TripsIn(before) then n + 1 else n
  }

  lemma {:induction false} PendingIsUnsettled(es: seq<Event>)
    ensures Run(es).pending == TripsIn(es) - SettledIn(es)
  {
    if es != [] {
      PendingIsUnsettled(es[..|es| - 1]);
      hide WithExit;
    }
  }

  /** The guard trips on a log line; with a restart before the callback, two callbacks follow it. */
  lemma TripBeforeRestart()
    ensures TripsIn([LogTrip]) == 1 && SettledIn([LogTrip]) == 0
    ensures Run([LogTrip] + [RestartBegun] + [LogTrip, CallbackRun, CallbackRun]).calls == 2
  {
    assert [LogTrip][..0] == [];
    assert Run([LogTrip]).pending == 1;
    TwoCalls([LogTrip]);
  }

  lemma CalledTwice(g: Guard)
    requires g.pending >= 1
    ensures Step(Step(Step(Step(g, RestartBegun), LogTrip), CallbackRun), CallbackRun).calls == 2
  {}

  lemma TwoCalls(es: seq<Event>)
    requires Run(es).pending >= 1
    ensures Run(es + [RestartBegun] + [LogTrip, CallbackRun, CallbackRun]).calls == 2
  {
    var r := es + [RestartBegun];
    CalledTwice(Run(es));
    hide Run, Step, SpecOf, StepSpec;
    SpecStep(es, RestartBegun);
    SpecStep(r, LogTrip);
    SpecStep(r + [LogTrip], CallbackRun);
    SpecStep(r + [LogTrip] + [CallbackRun], CallbackRun);
    assert r + [LogTrip] + [CallbackRun] + [CallbackRun] == r + [LogTrip, CallbackRun, CallbackRun];
  }

  /**
   Between a `Restart` and the next the callback runs at most once, whatever happens, if and only
   if every trip before the `Restart` has had its callback: tripping and invoking the callback are
   two steps, and a `Restart` may come between them.
   */
  lemma AtMostOneCallPerRestart(es: seq<Event>)
    ensures (forall more: seq<Event> :: RestartBegun !in more ==> Run(es + [RestartBegun] + more).calls <= 1)
       <==> SettledIn(es) == TripsIn(es)
  {
    PendingIsUnsettled(es);
    var r := es + [RestartBegun];
    SpecStep(es, RestartBegun);
    if Run(es).pending == 0 {
      forall more: seq<Event> | RestartBegun !in more ensures Run(r + more).calls <= 1 {
        CarriedStays(r, more);
        EveryRunBoundsCalls(r + more);
      }
    } else {
      TwoCalls(es);
      var more := [LogTrip, CallbackRun, CallbackRun];
      assert RestartBegun !in more;
      assert Run(es + [RestartBegun] + more).calls == 2;
    }
  }

  /** How often the callback was invoked for a trip that had not been settled. */
  function CallsIn(es: seq<Event>): nat {
    if es == [] then 0
    else
      var before := es[..|es| - 1];
      CallsIn(before) + if es[|es| - 1].CallbackRun? && SettledIn(before) < TripsIn(before) then 1 else 0
  }

  ghost function RestartsIn(es: seq<Event>): set<nat> { set i | 0 <= i < |es| && es[i].RestartBegun? }

  lemma OneMoreRestart(es: seq<Event>, e: Event)
    ensures RestartsIn(es + [e]) == if e.RestartBegun? then RestartsIn(es) + {|es|} else RestartsIn(es)
  {
    assert forall i :: 0 <= i < |es| ==> (es + [e])[i] == es[i];
  }

  lemma {:induction false} CallsAreCounted(es: seq<Event>)
    ensures Run(es).allCalls == CallsIn(es) && Run(es).restarts == |RestartsIn(es)|
  {
    if es != [] {
      var before, e := es[..|es| - 1], es[|es| - 1];
      assert es == before + [e];
      SpecStep(before, e);
      StepCounts(Run(before), e);
      hide Run, Step, RestartsIn, TripsIn, SettledIn, SpecOf, StepSpec;
      CallsAreCounted(before);
      PendingIsUnsettled(before);
      OneMoreRestart(before, e);
    }
  }

  lemma StepCounts(g: Guard, e: Event)
    ensures Step(g, e).restarts == g.restarts + if e.RestartBegun? then 1 else 0
    ensures Step(g, e).allCalls == g.allCalls + if e.CallbackRun? && g.pending > 0 then 1 else 0
  {
    hide WithExit;
  }

  /** Over a whole run the callback is invoked at most once more than `Restart` is called. */
  lemma CallsPerRun(es: seq<Event>)
    ensures CallsIn(es) <= |RestartsIn(es)| + 1
  {
    EveryRunBoundsCalls(es);
    CallsAreCounted(es);
  }

  // ---------------------------------------------------------------- what the status shows

  /** The event starts or ends a process, or begins to. */
  predicate ChangesStatus(e: Event) { e.Spawned? || e.SpawnFailed? || e.Exited? || e.RestartBegun? }

  /** The state after any run is that of the last such event: an exit leaves `Stopped` only if it was asked for. */
  lemma {:induction false} StatusIsLast(es: seq<Event>, e: Event, more: seq<Event>)
    requires ChangesStatus(e) && forall x :: x in more ==> !ChangesStatus(x)
    ensures Run(es + [e] + more).state
         == match e
            case Spawned(_) => Running
            case SpawnFailed => Crashed
            case RestartBegun => Restarting
            case _ => if SpecOf(es).wantStop then Stopped else Crashed
  {
    if more == [] {
      assert es + [e] + [] == es + [e];
      SpecStep(es, e);
      WantStopMatches(es);
      hide WithExit;
    } else {
      var before, x := more[..|more| - 1], more[|more| - 1];
      assert es + [e] + more == es + [e] + before + [x];
      SpecStep(es + [e] + before, x);
      assert x in more;
      StatusIsLast(es, e, before);
      hide WithExit;
    }
  }

  lemma {:induction false} WantStopMatches(es: seq<Event>)
    ensures Run(es).wantStop == SpecOf(es).wantStop
  {
    if es != [] { WantStopMatches(es[..|es| - 1]); }
  }

  /** A process that is up for thirty seconds has its earlier exits forgotten, and not before. */
  lemma HealthyRunClears(es: seq<Event>, start: int, now: int)
    ensures var run := es + [Spawned(start)];
            Run(run + [TimerFired(now)]).recentExits
              == if now >= start + 30_000_000_000 then [] else Run(run).recentExits
  {
    SpecStep(es, Spawned(start));
    SpecStep(es + [Spawned(start)], TimerFired(now));
  }

  // ---------------------------------------------------------------- the class

  class Supervisor {
    var state: State
    var wantStop: bool
    var recentExits: Slice
    var crashLoop: bool
    var healthTimer: Option<int>

    ghost var pending: nat
    ghost var calls: nat
    ghost var carried: nat
    ghost var restarts: nat
    ghost var allCalls: nat

    ghost predicate Valid()
      reads this
    {
      InBounds(recentExits)
    }

    ghost function View(): Guard
      requires Valid()
      reads this, recentExits.buf
    {
      Guard(state, wantStop, Elements(recentExits), crashLoop, healthTimer, pending, calls, carried, restarts, allCalls)
    }

    constructor ()
      ensures Valid() && View() == Start
    {
      state, wantStop, crashLoop, healthTimer := Stopped, false, false, None;
      var none := new int[0];
      recentExits := Slice(none, 0);
      pending, calls, carried, restarts, allCalls := 0, 0, 0, 0, 0;
    }

    method SpawnLocked(piped: bool, started: bool, now: int)
      requires Valid()
      modifies this
      ensures Valid()
      ensures View() == Step(old(View()), if !piped then NoPipes else if started then Spawned(now) else SpawnFailed)
    {
      if !piped {
        return;
      }
      if !started {
        state := Crashed;
        return;
      }
      state := Running;
      wantStop := false;
      healthTimer := Some(now + HEALTHY_RESET);
    }

    method HealthTimer(now: int)
      requires Valid()
      modifies this
      ensures Valid() && View() == Step(old(View()), TimerFired(now))
    {
      if healthTimer.Some? && healthTimer.value <= now {
        healthTimer := None;
        if state == Running {
          var none := new int[0];
          recentExits := Slice(none, 0);
        }
      }
    }

    // The exit joins the window; the filter works in place on the shared array.
    method CountExit(now: int)
      requires Valid()
      modifies this`recentExits, recentExits.buf
      ensures Valid() && Elements(recentExits) == WithExit(old(Elements(recentExits)), now)
    {
      hide Newer;
      var kept := FilterInPlace(recentExits, now - CRASH_WINDOW);
      recentExits := Append(kept, now);
    }

    /** The watcher's critical section. */
    method OnExit(now: int) returns (tripped: bool)
      requires Valid()
      modifies this, recentExits.buf
      ensures Valid() && View() == Step(old(View()), Exited(now))
      ensures tripped == Trips(old(View()), now)
    {
      hide WithExit;
      var stopWanted := wantStop;
      state := if stopWanted then Stopped else Crashed;
      tripped := false;
      if !stopWanted {
        CountExit(now);
        if recentExits.len >= CRASH_THRESHOLD && !crashLoop {
          crashLoop := true;
          tripped := true;
          pending := pending + 1;
        }
      }
    }

    method BeginRestart()
      requires Valid()
      modifies this
      ensures Valid() && View() == Step(old(View()), RestartBegun)
    {
      state := Restarting;
      crashLoop := false;
      var none := new int[0];
      recentExits := Slice(none, 0);
      calls, carried, restarts := 0, pending, restarts + 1;
    }

    method RequestStop()
      requires Valid()
      modifies this
      ensures Valid() && View() == Step(old(View()), StopRequested)
    {
      wantStop := true;
    }

    /** `TripCrashLoop` up to the call of `fireCrashLoop`. */
    method TripCrashLoop() returns (fire: bool)
      requires Valid()
      modifies this
      ensures Valid() && View() == Step(old(View()), LogTrip) && fire == !old(crashLoop)
    {
      if crashLoop {
        return false;
      }
      crashLoop := true;
      pending := pending + 1;
      return true;
    }
  }
}

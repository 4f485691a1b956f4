/** The login throttle of internal/api/ratelimit.go. */
module LoginLimiter {
  // The sections are in the order in which `handleLogin` (internal/api/auth.go) uses them: ask
  // `allowed`, check the password, then `fail` or `success`.

  const MAX_KEYS := 4096

  datatype Attempt = Attempt(fails: int, until: int)
  type Attempts = map<string, Attempt>

  datatype Limits = Limits(maxFails: nat, window: int)

  predicate Over(a: Attempt, now: int) { now > a.until }

  predicate Allowed(m: Attempts, lim: Limits, key: string, now: int) {
    key !in m || Over(m[key], now) || m[key].fails < lim.maxFails
  }

  function FailsBefore(m: Attempts, key: string, now: int): int {
    if key !in m || Over(m[key], now) then 0 else m[key].fails
  }

  /** One more failure for the key, its window armed anew. */
  function Counted(m: Attempts, lim: Limits, key: string, now: int): Attempts {
    m[key := Attempt(FailsBefore(m, key, now) + 1, now + lim.window)]
  }

  function Cleaned(m: Attempts, now: int): Attempts {
    map k | k in m && !Over(m[k], now) :: m[k]
  }

  function AfterFail(m: Attempts, lim: Limits, key: string, now: int): Attempts {
    var c := Counted(m, lim, key, now);
    if |c| > MAX_KEYS then Cleaned(c, now) else c
  }

  /** Up to 4096 keys a failure drops nothing, and a larger map holds only keys whose window is not over. */
  lemma MapStaysSmall(m: Attempts, lim: Limits, key: string, now: int)
    requires lim.window >= 0
    ensures var m' := AfterFail(m, lim, key, now);
            && (|m.Keys + {key}| <= 4096 ==> m'.Keys == m.Keys + {key})
            && (|m'| > 4096 ==> forall k :: k in m' ==> m'[k].until >= now)
  {
    assert Counted(m, lim, key, now).Keys == m.Keys + {key};
    assert |Counted(m, lim, key, now)| == |m.Keys + {key}|;
  }

  // ---------------------------------------------------------------- runs

  /**
   `allowed` and `fail` are two critical sections with the password check between them, so any
   number of attempts may be in flight. An answer without an attempt in flight changes nothing.
   */
  datatype Event = Ask(key: string, now: int) | Failed(key: string, now: int) | Succeeded(key: string)

  /** `open` counts the attempts of a key that were let through and are not answered yet. */
  datatype Throttle = Throttle(entries: Attempts, open: map<string, nat>) {
    function InFlight(key: string): nat { if key in open then open[key] else 0 }
  }

  const Start := Throttle(map[], map[])

  /** `cleanup` says whether `fail` drops stale keys, as it does, or lets the map grow. */
  function Step(s: Throttle, lim: Limits, e: Event, cleanup: bool): Throttle {
    var n := s.InFlight(e.key);
    match e
    case Ask(key, now) => if Allowed(s.entries, lim, key, now) then s.(open := s.open[key := n + 1]) else s
    case Failed(key, now) =>
      if n == 0 then s
      else Throttle(if cleanup then AfterFail(s.entries, lim, key, now) else Counted(s.entries, lim, key, now),
                    s.open[key := n - 1])
    case Succeeded(key) => if n == 0 then s else Throttle(s.entries - {key}, s.open[key := n - 1])
  }

  function Run(es: seq<Event>, lim: Limits, cleanup: bool): Throttle {
    if es == [] then Start else Step(Run(es[..|es| - 1], lim, cleanup), lim, es[|es| - 1], cleanup)
  }

  ghost predicate NotAfter(es: seq<Event>, now: int) {
    forall e :: e in es && !e.Succeeded? ==> e.now <= now
  }

  /** Both sections read their clock under the lock, so the clocks are in order. */
  ghost predicate WellTimed(es: seq<Event>) {
    forall i :: 0 <= i < |es| && !es[i].Succeeded? ==> NotAfter(es[..i], es[i].now)
  }

  /** When attempts of the key failed, since its last success. */
  function Failures(es: seq<Event>, lim: Limits, key: string): seq<int> {
    if es == [] then []
    else
      var before, e := es[..|es| - 1], es[|es| - 1];
      var earlier := Failures(before, lim, key);
      if e.key != key || e.Ask? || Run(before, lim, true).InFlight(key) == 0 then earlier
      else if e.Succeeded? then []
      else earlier + [e.now]
  }

  /** At no time more than `c` attempts of the key are in flight. */
  ghost predicate AtMost(es: seq<Event>, lim: Limits, key: string, c: nat) {
    forall i :: 0 <= i <= |es| ==> Run(es[..i], lim, true).InFlight(key) <= c
  }

  lemma RunOne(es: seq<Event>, lim: Limits, e: Event, cleanup: bool)
    ensures Run(es + [e], lim, cleanup) == Step(Run(es, lim, cleanup), lim, e, cleanup)
  {
    assert (es + [e])[..|es|] == es;
  }

  lemma FailuresOne(es: seq<Event>, lim: Limits, e: Event, key: string)
    ensures Failures(es + [e], lim, key)
         == if e.key != key || e.Ask? || Run(es, lim, true).InFlight(key) == 0 then Failures(es, lim, key)
            else if e.Succeeded? then [] else Failures(es, lim, key) + [e.now]
  {
    assert (es + [e])[..|es|] == es;
  }

  lemma WellTimedOne(es: seq<Event>, e: Event)
    ensures WellTimed(es + [e]) <==> WellTimed(es) && (e.Succeeded? || NotAfter(es, e.now))
  {
    var all := es + [e];
    assert all[..|es|] == es;
    forall i | 0 <= i < |es| ensures all[i] == es[i] && all[..i] == es[..i] {}
    assert WellTimed(all) ==> e.Succeeded? || NotAfter(all[..|es|], all[|es|].now);
    if WellTimed(all) {
      forall i | 0 <= i < |es| && !es[i].Succeeded? ensures NotAfter(es[..i], es[i].now) {
        assert NotAfter(all[..i], all[i].now);
      }
    }
  }

  lemma AtMostOne(es: seq<Event>, lim: Limits, e: Event, key: string, c: nat)
    ensures AtMost(es + [e], lim, key, c) <==> AtMost(es, lim, key, c) && Run(es + [e], lim, true).InFlight(key) <= c
  {
    var all := es + [e];
    assert all[..|all|] == all && all[..|es|] == es;
    hide Run;
    forall i | 0 <= i <= |es| ensures all[..i] == es[..i] {}
    if AtMost(all, lim, key, c) {
      assert Run(all[..|all|], lim, true).InFlight(key) <= c;
      forall i | 0 <= i <= |es| ensures Run(es[..i], lim, true).InFlight(key) <= c {
        assert Run(all[..i], lim, true).InFlight(key) <= c;
      }
    }
  }

  // ---------------------------------------------------------------- cleanup is invisible

  /** From `now` on, the entries under the key answer alike. */
  predicate SameEntry(m: Attempts, n: Attempts, key: string, now: int) {
    if key in n then key in m && m[key] == n[key]
    else key in m ==> Over(m[key], now)
  }

  predicate SameState(s: Throttle, t: Throttle, key: string, now: int) {
    SameEntry(s.entries, t.entries, key, now) && s.InFlight(key) == t.InFlight(key)
  }

  lemma CleanupStep(s: Throttle, t: Throttle, lim: Limits, e: Event, key: string, now: int)
    requires SameState(s, t, key, now) && SameState(s, t, e.key, now) && (e.Succeeded? || e.now <= now)
    requires !e.Succeeded? ==> SameState(s, t, e.key, e.now)
    ensures SameState(Step(s, lim, e, false), Step(t, lim, e, true), key, now)
  {}

  lemma {:induction false} CleanupKeepsState(es: seq<Event>, lim: Limits, key: string, now: int)
    requires WellTimed(es) && NotAfter(es, now)
    ensures SameState(Run(es, lim, false), Run(es, lim, true), key, now)
  {
    if es != [] {
      var before, e := es[..|es| - 1], es[|es| - 1];
      assert es == before + [e] && e in es;
      WellTimedOne(before, e);
      hide SameState, Step, WellTimed;
      assert NotAfter(before, now);
      CleanupKeepsState(before, lim, key, now);
      CleanupKeepsState(before, lim, e.key, now);
      if !e.Succeeded? { CleanupKeepsState(before, lim, e.key, e.now); }
      CleanupStep(Run(before, lim, false), Run(before, lim, true), lim, e, key, now);
    }
  }

  /** Dropping stale keys changes no answer, for any key, at any time after the run. */
  lemma CleanupIsInvisible(es: seq<Event>, lim: Limits, key: string, now: int)
    requires WellTimed(es) && NotAfter(es, now)
    ensures Allowed(Run(es, lim, true).entries, lim, key, now) <==> Allowed(Run(es, lim, false).entries, lim, key, now)
  {
    CleanupKeepsState(es, lim, key, now);
  }

  // ---------------------------------------------------------------- who is let in

  /**
   The latest `n` failures follow one another by no more than the window, and the one before them
   lies further back.
   */
  ghost predicate IsLatestChain(f: seq<int>, window: int, n: nat) {
    && n <= |f| && (f != [] ==> n >= 1)
    && (forall i :: |f| - n < i < |f| ==> f[i] - f[i - 1] <= window)
    && (0 < n < |f| ==> f[|f| - n] - f[|f| - n - 1] > window)
  }

  // A longer list of latest failures than the chain has a gap in it.
  lemma LongerHasGap(f: seq<int>, window: int, n: nat, longer: nat)
    requires IsLatestChain(f, window, n) && 0 < n < longer <= |f|
    ensures exists i :: |f| - longer < i < |f| && f[i] - f[i - 1] > window
  {
    assert f[|f| - n] - f[|f| - n - 1] > window;
  }

  lemma LatestChainUnique(f: seq<int>, window: int, n: nat, n': nat)
    requires IsLatestChain(f, window, n) && IsLatestChain(f, window, n')
    ensures n == n'
  {
    if n < n' { LongerHasGap(f, window, n, n'); }
    if n' < n { LongerHasGap(f, window, n', n); }
  }

  /** The entry of a key against its failures: the length of the latest chain, and when it ends. */
  ghost predicate CountsChain(m: Attempts, lim: Limits, key: string, f: seq<int>, now: int) {
    if key in m then
      f != [] && m[key].until == f[|f| - 1] + lim.window && m[key].fails >= 1
        && IsLatestChain(f, lim.window, m[key].fails)
    else f == [] || now > f[|f| - 1] + lim.window
  }

  lemma FailCountsChain(m: Attempts, lim: Limits, key: string, f: seq<int>, now: int)
    requires CountsChain(m, lim, key, f, now)
    ensures CountsChain(AfterFail(m, lim, key, now), lim, key, f + [now], now)
  {
    var f' := f + [now];
    if key in m && !Over(m[key], now) {
      var n: nat := m[key].fails;
      assert IsLatestChain(f', lim.window, n + 1) by {
        forall i | |f'| - (n + 1) < i < |f'| ensures f'[i] - f'[i - 1] <= lim.window {
          if i < |f| { assert f'[i] == f[i] && f'[i - 1] == f[i - 1]; }
        }
      }
    } else {
      assert IsLatestChain(f', lim.window, 1);
    }
  }

  lemma OtherCountsChain(s: Throttle, lim: Limits, key: string, f: seq<int>, e: Event, now: int)
    requires CountsChain(s.entries, lim, key, f, now) && (e.Succeeded? || e.now <= now)
    requires e.key != key || e.Ask? || s.InFlight(key) == 0
    ensures CountsChain(Step(s, lim, e, true).entries, lim, key, f, now)
  {
    hide IsLatestChain;
  }

  lemma {:induction false} RunCountsChain(es: seq<Event>, lim: Limits, key: string, now: int)
    requires WellTimed(es) && NotAfter(es, now)
    ensures CountsChain(Run(es, lim, true).entries, lim, key, Failures(es, lim, key), now)
  {
    if es != [] {
      var before, e := es[..|es| - 1], es[|es| - 1];
      assert es == before + [e] && e in es;
      WellTimedOne(before, e);
      RunOne(before, lim, e, true);
      FailuresOne(before, lim, e, key);
      assert NotAfter(before, now);
      hide Run, Failures, CountsChain, WellTimed, NotAfter, AfterFail;
      RunCountsChain(before, lim, key, now);
      var s, f := Run(before, lim, true), Failures(before, lim, key);
      if e.key != key || e.Ask? || s.InFlight(key) == 0 {
        OtherCountsChain(s, lim, key, f, e, now);
      } else if e.Succeeded? {
        NoEntryNoChain(s.entries, lim, key, now);
      } else {
        RunCountsChain(before, lim, key, e.now);
        FailCountsChain(s.entries, lim, key, f, e.now);
        ChainLasts(AfterFail(s.entries, lim, key, e.now), lim, key, f + [e.now], e.now, now);
      }
    }
  }

  lemma NoEntryNoChain(m: Attempts, lim: Limits, key: string, now: int)
    ensures CountsChain(m - {key}, lim, key, [], now)
  {}

  lemma ChainLasts(m: Attempts, lim: Limits, key: string, f: seq<int>, now: int, later: int)
    requires CountsChain(m, lim, key, f, now) && now <= later
    ensures CountsChain(m, lim, key, f, later)
  {
    hide IsLatestChain;
  }

  /**
   In every run, a key is let in if and only if it has not failed since its last success, or its
   latest failure is more than a window ago, or fewer than `maxFails` failures follow one another
   by no more than the window up to the latest. So who fails too often is let in again.
   */
  lemma LetInIff(es: seq<Event>, lim: Limits, key: string, now: int, n: nat)
    requires WellTimed(es) && NotAfter(es, now) && IsLatestChain(Failures(es, lim, key), lim.window, n)
    ensures var f := Failures(es, lim, key);
            Allowed(Run(es, lim, true).entries, lim, key, now)
            <==> f == [] || now > f[|f| - 1] + lim.window || n < lim.maxFails
  {
    RunCountsChain(es, lim, key, now);
    var m, f := Run(es, lim, true).entries, Failures(es, lim, key);
    if key in m { LatestChainUnique(f, lim.window, n, m[key].fails); }
  }

  /** There always is a latest chain. */
  lemma {:induction false} SomeChain(f: seq<int>, window: int) returns (n: nat)
    ensures IsLatestChain(f, window, n)
  {
    if |f| <= 1 {
      n := |f|;
    } else if f[|f| - 1] - f[|f| - 2] > window {
      n := 1;
    } else {
      n := SomeChain(f[..|f| - 1], window);
      n := n + 1;
    }
  }

  // ---------------------------------------------------------------- the rate bound

  /** Any k + 1 failures in a row take longer than the window. */
  ghost predicate Spread(f: seq<int>, k: nat, window: int) {
    forall i :: 0 <= i < |f| - k ==> f[i + k] - f[i] > window
  }

  predicate Ascending(f: seq<int>) {
    forall i, j :: 0 <= i < j < |f| ==> f[i] <= f[j]
  }

  /** The most failures that can be counted against a key with `c` attempts in flight at once. */
  function Most(lim: Limits, c: nat): nat
    requires c >= 1
  {
    lim.maxFails + c - 1
  }

  /**
   The entry of a key against its failures: it counts the latest ones, the failure before those
   is more than a window older, and the key is let through again one window after the last.
   */
  ghost predicate EntryMatches(m: Attempts, lim: Limits, key: string, f: seq<int>, k: int, now: int) {
    if key !in m then f == [] || now > f[|f| - 1] + lim.window
    else
      var a := m[key];
      && 1 <= a.fails <= |f| && a.fails <= k && a.until == f[|f| - 1] + lim.window
      && (a.fails < |f| ==> f[|f| - a.fails] - f[|f| - a.fails - 1] > lim.window)
  }

  /** Counted failures and attempts in flight together are at most `Most`. */
  ghost predicate Inv(s: Throttle, lim: Limits, key: string, f: seq<int>, c: nat, now: int)
    requires c >= 1
  {
    && EntryMatches(s.entries, lim, key, f, Most(lim, c), now)
    && Spread(f, Most(lim, c), lim.window) && Ascending(f) && (forall t :: t in f ==> t <= now)
    && FailsBefore(s.entries, key, now) + s.InFlight(key) <= Most(lim, c)
  }

  predicate Sensible(lim: Limits, c: nat) { lim.maxFails >= 1 && lim.window >= 0 && c >= 1 }

  // With j failures counted, those before them are more than a window older than now.
  lemma FailKeepsSpread(f: seq<int>, k: nat, window: int, j: nat, now: int)
    requires k >= 1 && window >= 0 && Spread(f, k, window) && Ascending(f)
    requires j < k && j <= |f| && forall t :: t in f ==> t <= now
    requires j < |f| ==> (if j == 0 then now else f[|f| - j]) - f[|f| - j - 1] > window
    ensures Spread(f + [now], k, window) && Ascending(f + [now])
  {
    var f' := f + [now];
    forall i | 0 <= i < |f'| - k ensures f'[i + k] - f'[i] > window {
      if i + k == |f| {
        assert f[i] <= f[|f| - j - 1];
        if j > 0 { assert f[|f| - j] in f; }
      } else {
        assert f'[i + k] == f[i + k] && f'[i] == f[i];
      }
    }
    forall i | 0 <= i < |f| ensures f[i] <= now { assert f[i] in f; }
  }

  // What one more failure does to the entry.
  lemma FailKeepsEntry(m: Attempts, lim: Limits, key: string, f: seq<int>, k: nat, now: int)
    requires k >= 1 && lim.window >= 0 && EntryMatches(m, lim, key, f, k, now) && Spread(f, k, lim.window)
        && Ascending(f)
    requires FailsBefore(m, key, now) < k && forall t :: t in f ==> t <= now
    ensures var m' := AfterFail(m, lim, key, now);
            && EntryMatches(m', lim, key, f + [now], k, now)
            && Spread(f + [now], k, lim.window) && Ascending(f + [now])
            && FailsBefore(m', key, now) == FailsBefore(m, key, now) + 1
  {
    EntrySpread(m, lim, key, f, k, now);
    hide Spread, Ascending;
    FailedEntry(m, lim, key, now);
    hide AfterFail, Counted;
    if |f| > 0 { assert f[|f| - 1] in f; }
  }

  lemma EntrySpread(m: Attempts, lim: Limits, key: string, f: seq<int>, k: nat, now: int)
    requires k >= 1 && lim.window >= 0 && EntryMatches(m, lim, key, f, k, now) && Spread(f, k, lim.window)
        && Ascending(f)
    requires FailsBefore(m, key, now) < k && forall t :: t in f ==> t <= now
    ensures Spread(f + [now], k, lim.window) && Ascending(f + [now])
  {
    hide Spread, Ascending;
    if |f| > 0 { assert f[|f| - 1] in f; }
    FailKeepsSpread(f, k, lim.window, FailsBefore(m, key, now), now);
  }

  lemma FailedEntry(m: Attempts, lim: Limits, key: string, now: int)
    requires lim.window >= 0
    ensures key in AfterFail(m, lim, key, now)
    ensures AfterFail(m, lim, key, now)[key] == Attempt(FailsBefore(m, key, now) + 1, now + lim.window)
  {}

  lemma AskKeepsInv(s: Throttle, lim: Limits, f: seq<int>, c: nat, e: Event)
    requires Sensible(lim, c) && e.Ask? && Inv(s, lim, e.key, f, c, e.now)
    requires Step(s, lim, e, true).InFlight(e.key) <= c
    ensures Inv(Step(s, lim, e, true), lim, e.key, f, c, e.now)
  {
    hide Spread, Ascending, EntryMatches;
  }

  lemma FailKeepsInv(s: Throttle, lim: Limits, f: seq<int>, c: nat, e: Event)
    requires Sensible(lim, c) && e.Failed? && s.InFlight(e.key) > 0 && Inv(s, lim, e.key, f, c, e.now)
    ensures Inv(Step(s, lim, e, true), lim, e.key, f + [e.now], c, e.now)
  {
    hide Spread, Ascending, EntryMatches, AfterFail, FailsBefore;
    FailKeepsEntry(s.entries, lim, e.key, f, Most(lim, c), e.now);
  }

  lemma SuccessKeepsInv(s: Throttle, lim: Limits, c: nat, e: Event, now: int)
    requires Sensible(lim, c) && e.Succeeded? && 0 < s.InFlight(e.key) <= c
    ensures Inv(Step(s, lim, e, true), lim, e.key, [], c, now)
  {}

  lemma OtherKeepsInv(s: Throttle, lim: Limits, key: string, f: seq<int>, c: nat, e: Event, now: int)
    requires e.key != key && c >= 1 && Inv(s, lim, key, f, c, now) && (e.Succeeded? || e.now <= now)
    ensures Inv(Step(s, lim, e, true), lim, key, f, c, now)
  {
    hide Spread, Ascending;
  }

  lemma TimePasses(s: Throttle, lim: Limits, key: string, f: seq<int>, c: nat, now: int, later: int)
    requires Sensible(lim, c) && Inv(s, lim, key, f, c, now) && now <= later && s.InFlight(key) <= c
    ensures Inv(s, lim, key, f, c, later)
  {
    hide Spread, Ascending;
  }

  /** The failures of the key after one more event. */
  function NextFailures(s: Throttle, f: seq<int>, key: string, e: Event): seq<int> {
    if e.key != key || e.Ask? || s.InFlight(key) == 0 then f else if e.Succeeded? then [] else f + [e.now]
  }

  lemma StepKeepsInv(s: Throttle, lim: Limits, key: string, f: seq<int>, c: nat, e: Event, now: int)
    requires Sensible(lim, c) && Inv(s, lim, key, f, c, now) && s.InFlight(key) <= c
    requires e.Succeeded? || (e.now <= now && (e.key == key ==> Inv(s, lim, key, f, c, e.now)))
    requires Step(s, lim, e, true).InFlight(key) <= c
    ensures Inv(Step(s, lim, e, true), lim, key, NextFailures(s, f, key, e), c, now)
  {
    hide Inv;
    if e.key != key {
      OtherKeepsInv(s, lim, key, f, c, e, now);
    } else if e.Succeeded? {
      if s.InFlight(key) > 0 { SuccessKeepsInv(s, lim, c, e, now); }
    } else {
      if e.Ask? {
        AskKeepsInv(s, lim, f, c, e);
      } else if s.InFlight(key) > 0 {
        FailKeepsInv(s, lim, f, c, e);
      }
      hide Step;
      TimePasses(Step(s, lim, e, true), lim, key, NextFailures(s, f, key, e), c, e.now, now);
    }
  }

  lemma {:induction false} EveryRun(es: seq<Event>, lim: Limits, key: string, c: nat, now: int)
    requires Sensible(lim, c) && WellTimed(es) && NotAfter(es, now) && AtMost(es, lim, key, c)
    ensures Inv(Run(es, lim, true), lim, key, Failures(es, lim, key), c, now)
  {
    if es == [] { return; }
    var before, e := es[..|es| - 1], es[|es| - 1];
    assert es == before + [e] && e in es;
    WellTimedOne(before, e);
    AtMostOne(before, lim, e, key, c);
    RunOne(before, lim, e, true);
    FailuresOne(before, lim, e, key);
    InFlightNow(before, lim, key, c);
    assert NotAfter(before, now);
    hide Run, Failures, Inv, WellTimed, AtMost, Step, NotAfter;
    EveryRun(before, lim, key, c, now);
    if e.key == key && !e.Succeeded? { EveryRun(before, lim, key, c, e.now); }
    StepKeepsInv(Run(before, lim, true), lim, key, Failures(before, lim, key), c, e, now);
  }

  lemma InFlightNow(es: seq<Event>, lim: Limits, key: string, c: nat)
    requires AtMost(es, lim, key, c)
    ensures Run(es, lim, true).InFlight(key) <= c
  {
    assert es[..|es|] == es;
    hide Run;
  }

  lemma {:induction false} SpreadAdds(f: seq<int>, k: nat, window: int, i: nat, q: nat)
    requires Spread(f, k, window) && q >= 1 && i + q * k < |f|
    ensures f[i + q * k] - f[i] > q * window
  {
    if q > 1 {
      assert q * k == (q - 1) * k + k;
      assert q * window == (q - 1) * window + window;
      SpreadAdds(f, k, window, i, q - 1);
    }
  }

  /** The least that `n` failures span when any k + 1 span more than the window: (ceil(n / k) - 1) windows. */
  function LeastSpan(n: nat, k: nat, window: int): int
    requires k >= 1
  {
    ((n + k - 1) / k - 1) * window
  }

  /** Any `n` in a row of the times `f` span more than `span`. */
  ghost predicate SpanMoreThan(f: seq<int>, n: nat, span: int)
    requires n >= 1
  {
    forall i :: 0 <= i <= |f| - n ==> f[i + n - 1] - f[i] > span
  }

  /**
   In every run with at most c attempts of a key in flight, any n > k = maxFails + c - 1
   consecutive failures of the key without a success span more than (ceil(n / k) - 1) windows.
   For attempts one after the other, c is 1 and k is maxFails.
   */
  lemma RateBound(es: seq<Event>, lim: Limits, key: string, c: nat, n: nat)
    requires Sensible(lim, c) && WellTimed(es) && AtMost(es, lim, key, c) && n > Most(lim, c)
    ensures SpanMoreThan(Failures(es, lim, key), n, LeastSpan(n, Most(lim, c), lim.window))
  {
    var now := LastClock(es);
    EveryRun(es, lim, key, c, now);
    assert Most(lim, c) >= 1;
    hide Failures, Run, EntryMatches, Spread, Ascending, WellTimed, AtMost, Most, FailsBefore, LeastSpan;
    var f := Failures(es, lim, key);
    forall i | 0 <= i <= |f| - n ensures f[i + n - 1] - f[i] > LeastSpan(n, Most(lim, c), lim.window) {
      SpanOfFailures(f, Most(lim, c), lim.window, i, n);
    }
  }

  lemma {:induction false} LastClock(es: seq<Event>) returns (now: int)
    ensures NotAfter(es, now)
  {
    if es == [] { return 0; }
    now := LastClock(es[..|es| - 1]);
    var e := es[|es| - 1];
    assert es == es[..|es| - 1] + [e];
    if !e.Succeeded? && e.now > now { now := e.now; }
  }

  lemma SpanOfFailures(f: seq<int>, k: nat, window: int, i: nat, n: nat)
    requires k >= 1 && window >= 0 && Spread(f, k, window) && Ascending(f)
    requires n > k && i + n <= |f|
    ensures f[i + n - 1] - f[i] > LeastSpan(n, k, window)
  {
    var q := (n + k - 1) / k - 1;
    RoundUp(n, k);
    hide Spread;
    SpreadAdds(f, k, window, i, q);
    var j := i + q * k;
    assert i <= j <= i + n - 1;
    assert f[j] <= f[i + n - 1];
  }

  lemma RoundUp(n: nat, k: nat)
    requires n > k >= 1
    ensures var q := (n + k - 1) / k - 1; q >= 1 && 0 <= q * k <= n - 1
  {
    var c := (n + k - 1) / k;
    assert n + k - 1 == c * k + (n + k - 1) % k;
    assert c * k <= n + k - 1;
    assert (c - 1) * k == c * k - k;
    SmallMultiple(c, k);
  }

  lemma SmallMultiple(c: int, k: nat)
    ensures c <= 1 ==> c * k <= k
  {
    if c <= 1 { assert (1 - c) * k >= 0; }
  }

  // ---------------------------------------------------------------- the bound is exact

  /** After `es`, all at one instant: `k` failures counted, `o` attempts in flight, nothing else. */
  ghost predicate Burst(es: seq<Event>, lim: Limits, key: string, c: nat, now: int, k: nat, o: nat) {
    && WellTimed(es) && NotAfter(es, now) && AtMost(es, lim, key, c)
    && Run(es, lim, true).entries == (if k == 0 then map[] else map[key := Attempt(k, now + lim.window)])
    && Run(es, lim, true).InFlight(key) == o && Failures(es, lim, key) == seq(k, _ => now)
  }

  lemma NotAfterOne(es: seq<Event>, e: Event, now: int)
    ensures NotAfter(es + [e], now) <==> NotAfter(es, now) && (e.Succeeded? || e.now <= now)
  {
    forall d ensures d in es + [e] <==> d in es || d == e {}
  }

  lemma BurstAsk(es: seq<Event>, lim: Limits, key: string, c: nat, now: int, k: nat, o: nat)
    requires lim.window >= 0 && Burst(es, lim, key, c, now, k, o) && k < lim.maxFails && o < c
    ensures Burst(es + [Ask(key, now)], lim, key, c, now, k, o + 1)
  {
    hide Run, Failures, WellTimed, AtMost, NotAfter;
    var e := Ask(key, now);
    RunOne(es, lim, e, true);
    FailuresOne(es, lim, e, key);
    WellTimedOne(es, e);
    NotAfterOne(es, e, now);
    AtMostOne(es, lim, e, key, c);
  }

  lemma BurstFail(es: seq<Event>, lim: Limits, key: string, c: nat, now: int, k: nat, o: nat)
    requires lim.window >= 0 && Burst(es, lim, key, c, now, k, o) && 0 < o <= c
    ensures Burst(es + [Failed(key, now)], lim, key, c, now, k + 1, o - 1)
  {
    hide Run, Failures, WellTimed, AtMost, NotAfter, AfterFail;
    var e := Failed(key, now);
    RunOne(es, lim, e, true);
    FailuresOne(es, lim, e, key);
    WellTimedOne(es, e);
    NotAfterOne(es, e, now);
    AtMostOne(es, lim, e, key, c);
    SingleFail(lim, key, now, k);
    assert seq(k, _ => now) + [now] == seq(k + 1, _ => now);
  }

  lemma SingleFail(lim: Limits, key: string, now: int, k: nat)
    requires lim.window >= 0
    ensures AfterFail(if k == 0 then map[] else map[key := Attempt(k, now + lim.window)], lim, key, now)
         == map[key := Attempt(k + 1, now + lim.window)]
  {
    var c := map[key := Attempt(k + 1, now + lim.window)];
    assert c.Keys == {key};
    assert |c| == |c.Keys| == 1;
  }

  // Attempts one after the other.
  lemma {:induction false} Rounds(lim: Limits, key: string, c: nat, now: int, k: nat) returns (es: seq<Event>)
    requires Sensible(lim, c) && k < lim.maxFails
    ensures Burst(es, lim, key, c, now, k, 0)
  {
    hide Burst, Run, Failures, WellTimed, AtMost, NotAfter;
    if k == 0 {
      es := [];
      NoBurst(lim, key, c, now);
    } else {
      var before := Rounds(lim, key, c, now, k - 1);
      es := OneRound(before, lim, key, c, now, k - 1);
    }
  }

  lemma NoBurst(lim: Limits, key: string, c: nat, now: int)
    ensures Burst([], lim, key, c, now, 0, 0)
  {}

  lemma OneRound(before: seq<Event>, lim: Limits, key: string, c: nat, now: int, k: nat) returns (es: seq<Event>)
    requires Sensible(lim, c) && k < lim.maxFails && Burst(before, lim, key, c, now, k, 0)
    ensures Burst(es, lim, key, c, now, k + 1, 0)
  {
    hide Run, Failures, WellTimed, AtMost, NotAfter;
    BurstAsk(before, lim, key, c, now, k, 0);
    hide Burst;
    es := before + [Ask(key, now)];
    BurstFail(es, lim, key, c, now, k, 1);
    es := es + [Failed(key, now)];
  }

  // Then `o` attempts at once.
  lemma {:induction false} Asks(lim: Limits, key: string, c: nat, now: int, o: nat) returns (es: seq<Event>)
    requires Sensible(lim, c) && o <= c
    ensures Burst(es, lim, key, c, now, lim.maxFails - 1, o)
  {
    hide Burst, Run, Failures, WellTimed, AtMost, NotAfter;
    if o == 0 {
      es := Rounds(lim, key, c, now, lim.maxFails - 1);
    } else {
      es := Asks(lim, key, c, now, o - 1);
      BurstAsk(es, lim, key, c, now, lim.maxFails - 1, o - 1);
      es := es + [Ask(key, now)];
    }
  }

  // `b` of the `c` attempts in flight fail.
  lemma {:induction false} Fails(lim: Limits, key: string, c: nat, now: int, b: nat) returns (es: seq<Event>)
    requires Sensible(lim, c) && b <= c
    ensures Burst(es, lim, key, c, now, lim.maxFails - 1 + b, c - b)
  {
    hide Burst, Run, Failures, WellTimed, AtMost, NotAfter;
    if b == 0 {
      es := Asks(lim, key, c, now, c);
    } else {
      es := Fails(lim, key, c, now, b - 1);
      BurstFail(es, lim, key, c, now, lim.maxFails + b - 2, c - b + 1);
      es := es + [Failed(key, now)];
    }
  }

  /** Somewhere in the run, the key fails `n` times in a row at one instant. */
  ghost predicate FailsAtOnce(es: seq<Event>, lim: Limits, key: string, n: nat) {
    exists i :: AtOnce(Failures(es, lim, key), i, n)
  }

  predicate AtOnce(f: seq<int>, i: int, n: nat) { 0 <= i <= |f| - n && AllEqual(f[i..i + n]) }

  predicate AllEqual(f: seq<int>) { forall i, j :: 0 <= i < j < |f| ==> f[i] == f[j] }

  /**
   With at most c attempts of a key in flight, some run lets n of them fail at one instant
   exactly when n <= maxFails + c - 1: overlap adds the number in flight to the limit, no more.
   */
  lemma ConcurrentAttemptsOverrun(lim: Limits, key: string, c: nat, n: nat)
    requires Sensible(lim, c)
    ensures (exists es :: WellTimed(es) && AtMost(es, lim, key, c) && FailsAtOnce(es, lim, key, n))
       <==> n <= Most(lim, c)
  {
    hide WellTimed, AtMost, FailsAtOnce, Burst, Run, Failures, Most;
    if n <= Most(lim, c) {
      FailsReachMost(lim, c);
      var es := Fails(lim, key, c, 0, c);
      BurstFailsAtOnce(es, lim, key, c, n);
    } else {
      forall es | WellTimed(es) && AtMost(es, lim, key, c) ensures !FailsAtOnce(es, lim, key, n) {
        NoLongerBurst(es, lim, key, c, n);
      }
    }
  }

  lemma FailsReachMost(lim: Limits, c: nat)
    requires Sensible(lim, c)
    ensures lim.maxFails - 1 + c == Most(lim, c)
  {}

  lemma BurstFailsAtOnce(es: seq<Event>, lim: Limits, key: string, c: nat, n: nat)
    requires Sensible(lim, c) && n <= Most(lim, c) && Burst(es, lim, key, c, 0, Most(lim, c), 0)
    ensures WellTimed(es) && AtMost(es, lim, key, c) && FailsAtOnce(es, lim, key, n)
  {
    hide Failures, Run, WellTimed, AtMost;
    assert AtOnce(Failures(es, lim, key), 0, n);
  }

  lemma NoLongerBurst(es: seq<Event>, lim: Limits, key: string, c: nat, n: nat)
    requires Sensible(lim, c) && WellTimed(es) && AtMost(es, lim, key, c) && n > Most(lim, c)
    ensures !FailsAtOnce(es, lim, key, n)
  {
    hide Failures, Run, WellTimed, AtMost, LeastSpan;
    var f := Failures(es, lim, key);
    forall i ensures !AtOnce(f, i, n) {
      if 0 <= i <= |f| - n {
        RateBound(es, lim, key, c, n);
        SpanIsPositive(n, Most(lim, c), lim.window);
        FirstAndLast(f, i, n);
      }
    }
  }

  lemma FirstAndLast(f: seq<int>, i: nat, n: nat)
    requires i + n <= |f| && n >= 1
    ensures AtOnce(f, i, n) ==> f[i] == f[i + n - 1]
  {
    var w := f[i..i + n];
    assert w[0] == f[i] && w[n - 1] == f[i + n - 1];
  }

  lemma SpanIsPositive(n: nat, k: nat, window: int)
    requires n > k >= 1 && window >= 0
    ensures LeastSpan(n, k, window) >= 0
  {
    RoundUp(n, k);
  }

  // ---------------------------------------------------------------- one attempt with nothing in between

  datatype Login = Login(key: string, now: int, passwordOk: bool)

  function AfterLogin(m: Attempts, lim: Limits, l: Login): Attempts {
    if !Allowed(m, lim, l.key, l.now) then m
    else if l.passwordOk then m - {l.key}
    else AfterFail(m, lim, l.key, l.now)
  }

  /** A whole login attempt is its two events, one after the other. */
  lemma LoginIsTwoEvents(s: Throttle, lim: Limits, l: Login)
    ensures var asked := Step(s, lim, Ask(l.key, l.now), true);
            if !Allowed(s.entries, lim, l.key, l.now) then asked == s && AfterLogin(s.entries, lim, l) == s.entries
            else
              var done := Step(asked, lim, if l.passwordOk then Succeeded(l.key) else Failed(l.key, l.now), true);
              done.entries == AfterLogin(s.entries, lim, l) && done.InFlight(l.key) == s.InFlight(l.key)
  {}

  // ---------------------------------------------------------------- the class

  lemma DropOver(m: Attempts, now: int, k: string)
    requires k in m && Over(m[k], now)
    ensures Cleaned(m - {k}, now) == Cleaned(m, now)
  {}

  lemma NoneOver(m: Attempts, now: int)
    requires forall k :: k in m ==> !Over(m[k], now)
    ensures Cleaned(m, now) == m
  {}

  class LoginAttempt {
    var fails: int
    var until: int

    constructor ()
      ensures fails == 0
    {
      fails, until := 0, 0;
    }
  }

  class LoginLimiter {
    var attempts: map<string, LoginAttempt>
    const limits: Limits
    ghost var Contents: Attempts  // what the attempt objects hold

    ghost predicate Valid()
      reads this, attempts.Values
    {
      && attempts.Keys == Contents.Keys
      && (forall k, k' :: k in attempts && k' in attempts && k != k' ==> attempts[k] != attempts[k'])
      && forall k :: k in attempts ==> Contents[k] == Attempt(attempts[k].fails, attempts[k].until)
    }

    constructor (limits: Limits)
      ensures Valid() && Contents == map[] && this.limits == limits
    {
      attempts, Contents, this.limits := map[], map[], limits;
    }

    /** `allowed`. */
    method IsAllowed(key: string, now: int) returns (ok: bool)
      requires Valid()
      ensures ok == Allowed(Contents, limits, key, now)
    {
      if key !in attempts || now > attempts[key].until {
        return true;
      }
      return attempts[key].fails < limits.maxFails;
    }

    /** `fail`. */
    method Fail(key: string, now: int)
      requires Valid()
      modifies this, attempts.Values
      ensures Valid() && Contents == AfterFail(old(Contents), limits, key, now)
    {
      hide Cleaned;
      if key !in attempts || now > attempts[key].until {
        Renew(key);
      }
      Count(key, now);
      assert Contents == Counted(old(Contents), limits, key, now);
      assert |attempts| == |attempts.Keys| && |Contents| == |Contents.Keys|;
      if |attempts| > MAX_KEYS {
        Cleanup(now);
      }
    }

    // A new attempt object for the key, without failures.
    method Renew(key: string)
      requires Valid()
      modifies this
      ensures Valid() && fresh(attempts.Values - old(attempts.Values)) && key in Contents
      ensures Contents == old(Contents)[key := Attempt(0, Contents[key].until)]
    {
      var a := new LoginAttempt();
      attempts := attempts[key := a];
      Contents := Contents[key := Attempt(a.fails, a.until)];
    }

    // One more failure on the key's object, in place.
    method Count(key: string, now: int)
      requires Valid() && key in attempts
      modifies this`Contents, attempts.Values
      ensures Valid()
      ensures Contents == old(Contents)[key := Attempt(old(Contents)[key].fails + 1, now + limits.window)]
    {
      var a := attempts[key];
      a.fails := a.fails + 1;
      a.until := now + limits.window;
      Contents := Contents[key := Attempt(a.fails, a.until)];
    }

    /** The loop over the map at the end of `fail`. */
    method Cleanup(now: int)
      requires Valid()
      modifies this
      ensures Valid() && Contents == Cleaned(old(Contents), now)
    {
      hide Cleaned;
      var todo := attempts.Keys;
      while todo != {}
        invariant Valid() && todo <= attempts.Keys
        invariant forall k :: k in Contents && k !in todo ==> !Over(Contents[k], now)
        invariant Cleaned(Contents, now) == Cleaned(old(Contents), now)
        decreases todo
      {
        var k :| k in todo;
        todo := todo - {k};
        if now > attempts[k].until {
          DropOver(Contents, now, k);
          attempts := attempts - {k};
          Contents := Contents - {k};
        }
      }
      NoneOver(Contents, now);
    }

    /** `success`. */
    method Success(key: string)
      requires Valid()
      modifies this
      ensures Valid() && Contents == old(Contents) - {key}
    {
      attempts := attempts - {key};
      Contents := Contents - {key};
    }

    /** The throttle's part of `handleLogin`: refused, or let through and recorded. */
    method HandleLogin(l: Login) returns (refused: bool)
      requires Valid()
      modifies this, attempts.Values
      ensures Valid() && Contents == AfterLogin(old(Contents), limits, l)
      ensures refused == !Allowed(old(Contents), limits, l.key, l.now)
    {
      var ok := IsAllowed(l.key, l.now);
      if !ok {
        return true;
      }
      if l.passwordOk {
        Success(l.key);
      } else {
        Fail(l.key, l.now);
      }
      return false;
    }
  }
}

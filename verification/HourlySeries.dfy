/**
 The hourly buckets of internal/secmetrics/collector.go.

 Only the 48 newest buckets are kept, and the chart reads the last 24 hours. As long as nothing is
 stamped ahead of the clock, dropping the oldest buckets loses no hour that the chart can reach.
 */
module HourlySeries {
  import opened FiniteSets
  import opened Newest

  const NS_PER_HOUR := 3_600_000_000_000
  const HOUR := 3600
  const MAX_HOUR_BUCKETS := 48

  type Buckets = map<int, nat>

  /** `t.Truncate(time.Hour).Unix()`: the Unix second at which the hour of `t` began. */
  function HourOf(t: int): (h: int)
    ensures h % HOUR == 0
  {
    t / NS_PER_HOUR * HOUR
  }

  /** A whole hour in Unix seconds is that of an instant, in nanoseconds, exactly during that hour. */
  lemma HourMeans(t: int, h: int)
    requires h % 3600 == 0
    ensures HourOf(t) == h <==> h * 1_000_000_000 <= t < h * 1_000_000_000 + 3_600_000_000_000
  {
    var n := h / 3600;
    assert h == n * 3600;
  }

  lemma HourMonotone(s: int, t: int)
    requires s <= t
    ensures HourOf(s) <= HourOf(t)
  {
    assert s / NS_PER_HOUR <= t / NS_PER_HOUR;
  }

  function Get(m: Buckets, h: int): nat { if h in m then m[h] else 0 }

  function Bump(m: Buckets, h: int): Buckets { m[h := Get(m, h) + 1] }

  /** The unpruned truth: how many of the events fell into the hour that began at `h`. */
  function EventsIn(stamps: seq<int>, h: int): nat {
    if stamps == [] then 0
    else EventsIn(stamps[..|stamps| - 1], h) + if HourOf(stamps[|stamps| - 1]) == h then 1 else 0
  }

  lemma OneMoreStamp(stamps: seq<int>, t: int, h: int)
    ensures EventsIn(stamps + [t], h) == EventsIn(stamps, h) + if HourOf(t) == h then 1 else 0
  {
    assert (stamps + [t])[..|stamps|] == stamps;
  }

  /** What `capOldestHours` leaves: the newest buckets, unchanged. */
  ghost predicate CappedHours(m: Buckets, m': Buckets, keep: nat) {
    IsNewest(m'.Keys, m.Keys, keep) && forall h :: h in m' ==> h in m && m'[h] == m[h]
  }

  /** All buckets are hours up to `now`, and those of the last `keep` hours tell the truth. */
  ghost predicate Exact(m: Buckets, stamps: seq<int>, now: int, keep: nat) {
    && (forall h :: h in m ==> h % HOUR == 0 && h <= HourOf(now))
    && forall h :: h > HourOf(now) - keep * HOUR ==> Get(m, h) == EventsIn(stamps, h)
  }

  // n distinct hours after h reach n hours beyond h.
  lemma {:induction false} Pigeonhole(hours: set<int>, h: int) returns (x: int)
    requires hours != {} && h % HOUR == 0
    requires forall k :: k in hours ==> k % HOUR == 0 && k > h
    ensures x in hours && x >= h + |hours| * HOUR
    decreases |hours|
  {
    x := MaxExists(hours);
    var rest := hours - {x};
    assert |rest| == |hours| - 1;
    if rest != {} {
      var y := Pigeonhole(rest, h);
      assert y in hours && y < x;
    }
  }

  /** Counting an event and pruning the buckets keeps the last `keep` hours exact. */
  lemma AddKeepsExact(m: Buckets, m': Buckets, stamps: seq<int>, before: int, now: int, at: int, keep: nat)
    requires Exact(m, stamps, before, keep) && before <= now && at <= now && keep >= 1
    requires CappedHours(Bump(m, HourOf(at)), m', keep)
    ensures Exact(m', stamps + [at], now, keep)
  {
    var b := Bump(m, HourOf(at));
    HourMonotone(before, now);
    HourMonotone(at, now);
    assert (stamps + [at])[..|stamps|] == stamps;
    forall h | h > HourOf(now) - keep * HOUR ensures Get(m', h) == EventsIn(stamps + [at], h) {
      assert Get(m, h) == EventsIn(stamps, h);
      if h in b { NotPruned(b, m', now, keep, h); }
    }
  }

  // A pruned bucket has `keep` later ones above it, so it is too old to matter.
  lemma NotPruned(b: Buckets, m': Buckets, now: int, keep: nat, h: int)
    requires CappedHours(b, m', keep) && h in b && h > HourOf(now) - keep * HOUR && keep >= 1
    requires forall k :: k in b ==> k % HOUR == 0 && k <= HourOf(now)
    ensures h in m'
  {
    SubsetSize(m'.Keys, b.Keys);
    if h !in m' && m' != map[] {
      var x := Pigeonhole(m'.Keys, h);
    }
  }

  /** The chart, read at any later time: every one of its 24 points is exact. */
  lemma ChartIsExact(m: Buckets, stamps: seq<int>, last: int, now: int, i: nat)
    requires Exact(m, stamps, last, MAX_HOUR_BUCKETS) && last <= now && i < 24
    ensures Get(m, HourOf(now) - i * HOUR) == EventsIn(stamps, HourOf(now) - i * HOUR)
  {
    HourMonotone(last, now);
  }
}

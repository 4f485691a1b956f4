/** The bounded count maps of internal/secmetrics/collector.go. */
module LossyCount {
  import opened FiniteSets

  // Every key is counted, and when the map outgrows `max` keys, `capCounts` evicts the lowest counts
  // down to `keep` keys.
  //
  // The sort that picks the evicted keys is not stable and starts from Go's random map order, so
  // an eviction is a relation here, and every result holds for all ways to break ties.

  type Counts = map<string, nat>

  function Get(m: Counts, k: string): nat { if k in m then m[k] else 0 }

  function Bump(m: Counts, k: string): Counts { m[k := Get(m, k) + 1] }

  function Count(ks: seq<string>, k: string): nat {
    if ks == [] then 0 else Count(ks[..|ks| - 1], k) + if ks[|ks| - 1] == k then 1 else 0
  }

  ghost predicate IsSubmap(m': Counts, m: Counts) {
    forall k :: k in m' ==> k in m && m'[k] == m[k]
  }

  /** `m'` is `m` without its lowest counts, down to `keep` keys. */
  ghost predicate IsEviction(m: Counts, m': Counts, keep: nat) {
    && IsSubmap(m', m) && |m'| == keep
    && forall k, e :: k in m' && e in m && e !in m' ==> m[e] <= m[k]
  }

  /** What `capCounts(m, max, keep)` may leave of `m`. */
  ghost predicate Capped(m: Counts, m': Counts, max: nat, keep: nat) {
    if |m| <= max then m' == m else IsEviction(m, m', keep)
  }

  // ---------------------------------------------------------------- sums over a map

  ghost function Sum(m: Counts): nat {
    if m == map[] then 0 else var k :| k in m; m[k] + Sum(m - {k})
  }

  lemma {:induction false} SumRemove(m: Counts, k: string)
    requires k in m
    ensures Sum(m) == m[k] + Sum(m - {k})
    decreases |m|
  {
    var p :| p in m && Sum(m) == m[p] + Sum(m - {p});
    if p != k {
      SumRemove(m - {p}, k);
      SumRemove(m - {k}, p);
      assert m - {p} - {k} == m - {k} - {p};
    }
  }

  lemma {:induction false} SumAtLeast(m: Counts, c: nat)
    requires forall k :: k in m ==> m[k] >= c
    ensures Sum(m) >= c * |m|
    decreases |m|
  {
    if m != map[] {
      var k :| k in m;
      SumRemove(m, k);
      SumAtLeast(m - {k}, c);
      hide Sum;
      assert |m - {k}| == |m| - 1;
      Distribute(c, |m| - 1);
    }
  }

  lemma Distribute(c: nat, n: nat)
    ensures c * (n + 1) == c + c * n
  {}

  // What a submap leaves out is worth at least one for each missing key of positive count.
  lemma {:induction false} SumSubmap(m: Counts, m': Counts)
    requires IsSubmap(m', m) && forall k :: k in m ==> m[k] >= 1
    ensures Sum(m') + (|m| - |m'|) <= Sum(m)
    decreases |m|
  {
    if m' == map[] {
      SumAtLeast(m, 1);
    } else {
      var k :| k in m';
      SumRemove(m', k);
      SumRemove(m, k);
      SumSubmap(m - {k}, m' - {k});
      assert |m - {k}| == |m| - 1 && |m' - {k}| == |m'| - 1;
    }
  }

  lemma SumBump(m: Counts, k: string)
    ensures Sum(Bump(m, k)) == Sum(m) + 1
  {
    var b := Bump(m, k);
    SumRemove(b, k);
    if k in m {
      SumRemove(m, k);
      assert b - {k} == m - {k};
    } else {
      assert b - {k} == m;
    }
  }

  // ---------------------------------------------------------------- the error bound

  /** The most that one eviction can take from one key, after `total` counted keys. */
  function Loss(total: nat, keep: nat): nat { total / (keep + 1) }

  /** The stored count of a key falls short of its true count by at most `ev` losses. */
  predicate Within(stored: nat, actual: nat, ev: nat, loss: nat) { stored <= actual <= stored + ev * loss }

  ghost predicate AllWithin(m: Counts, ks: seq<string>, ev: nat, keep: nat) {
    forall k :: Within(Get(m, k), Count(ks, k), ev, Loss(|ks|, keep))
  }

  /** Every eviction has thrown away at least `max + 1 - keep` of the `total` events. */
  predicate Paid(sum: nat, ev: nat, max: nat, keep: nat, total: nat) {
    sum + ev * (max + 1 - keep) <= total
  }

  /** The stored counts after the keys `ks`, with `ev` evictions on the way. */
  ghost predicate Lossy(m: Counts, ks: seq<string>, ev: nat, max: nat, keep: nat) {
    && |m| <= max && (forall k :: k in m ==> m[k] >= 1) && (ev > 0 ==> |m| >= keep)
    && AllWithin(m, ks, ev, keep)
    && Paid(Sum(m), ev, max, keep, |ks|)
  }

  lemma MulMonotone(e: nat, x: nat, y: nat)
    requires x <= y
    ensures e * x <= e * y
  {}

  lemma LossMeans(q: nat, total: nat, keep: nat)
    ensures q <= Loss(total, keep) <==> q * (keep + 1) <= total
  {
    var d, l := keep + 1, total / (keep + 1);
    assert l * d <= total < (l + 1) * d;
    if q <= l { MulMonotone(d, q, l); } else { MulMonotone(d, l + 1, q); }
  }

  lemma LossMonotone(x: nat, y: nat, keep: nat)
    requires x <= y
    ensures Loss(x, keep) <= Loss(y, keep)
  {
    LossMeans(Loss(x, keep), x, keep);
    LossMeans(Loss(x, keep), y, keep);
  }

  lemma PayEviction(sum: nat, sum': nat, ev: nat, max: nat, keep: nat, total: nat)
    requires keep <= max && Paid(sum, ev, max, keep, total) && sum' + (max + 1 - keep) <= sum + 1
    ensures Paid(sum', ev + 1, max, keep, total + 1)
  {
    assert (ev + 1) * (max + 1 - keep) == ev * (max + 1 - keep) + (max + 1 - keep);
  }

  // The kept counts are together at least `keep` times an evicted one.
  lemma KeptOutweigh(m: Counts, m': Counts, keep: nat, k: string)
    requires IsEviction(m, m', keep) && k in m && k !in m'
    ensures Sum(m - {k}) >= m[k] * keep
  {
    hide Sum;
    SumAtLeast(m', m[k]);
    SumOfSubmap(m - {k}, m');
  }

  lemma OneMoreTime(c: nat, keep: nat, rest: nat)
    requires rest >= c * keep
    ensures c * (keep + 1) <= c + rest
  {}

  // So an evicted count is a small part of the sum.
  lemma EvictedIsSmall(m: Counts, m': Counts, keep: nat, k: string)
    requires IsEviction(m, m', keep) && k in m && k !in m'
    ensures m[k] * (keep + 1) <= Sum(m)
  {
    hide Sum;
    KeptOutweigh(m, m', keep, k);
    SumRemove(m, k);
    OneMoreTime(m[k], keep, Sum(m - {k}));
  }

  lemma {:induction false} SumOfSubmap(m: Counts, m': Counts)
    requires IsSubmap(m', m)
    ensures Sum(m') <= Sum(m)
    decreases |m'|
  {
    if m' != map[] {
      var k :| k in m';
      SumRemove(m', k);
      SumRemove(m, k);
      SumOfSubmap(m - {k}, m' - {k});
    }
  }

  lemma BumpWithin(m: Counts, ks: seq<string>, k: string, ev: nat, keep: nat)
    requires AllWithin(m, ks, ev, keep)
    ensures AllWithin(Bump(m, k), ks + [k], ev, keep)
  {
    hide Loss;
    var all := ks + [k];
    LossMonotone(|ks|, |all|, keep);
    MulMonotone(ev, Loss(|ks|, keep), Loss(|all|, keep));
    assert all[..|ks|] == ks;
    forall x ensures Within(Get(Bump(m, k), x), Count(all, x), ev, Loss(|all|, keep)) {
      assert Within(Get(m, x), Count(ks, x), ev, Loss(|ks|, keep));
    }
  }

  lemma EvictWithin(b: Counts, m': Counts, all: seq<string>, ev: nat, keep: nat)
    requires IsEviction(b, m', keep) && Sum(b) <= |all| && AllWithin(b, all, ev, keep)
    ensures AllWithin(m', all, ev + 1, keep)
  {
    hide Loss, Count;
    var loss := Loss(|all|, keep);
    assert (ev + 1) * loss == ev * loss + loss;
    forall x ensures Within(Get(m', x), Count(all, x), ev + 1, loss) {
      assert Within(Get(b, x), Count(all, x), ev, loss);
      if x in b && x !in m' {
        EvictedIsSmall(b, m', keep, x);
        LossMeans(b[x], |all|, keep);
      }
    }
  }

  /** One more key, then the cap: the bound goes on to hold, with one more eviction if any. */
  lemma AddKeepsBound(m: Counts, m': Counts, ks: seq<string>, k: string, ev: nat, max: nat, keep: nat)
    requires keep <= max && Lossy(m, ks, ev, max, keep) && Capped(Bump(m, k), m', max, keep)
    ensures Lossy(m', ks + [k], if |Bump(m, k)| <= max then ev else ev + 1, max, keep)
  {
    hide AllWithin, Paid, Sum, Bump;
    if |Bump(m, k)| <= max {
      AddWithinCap(m, ks, k, ev, max, keep);
    } else {
      AddOverCap(m, m', ks, k, ev, max, keep);
    }
  }

  lemma AddWithinCap(m: Counts, ks: seq<string>, k: string, ev: nat, max: nat, keep: nat)
    requires keep <= max && Lossy(m, ks, ev, max, keep) && |Bump(m, k)| <= max
    ensures Lossy(Bump(m, k), ks + [k], ev, max, keep)
  {
    hide AllWithin, Sum;
    SumBump(m, k);
    BumpWithin(m, ks, k, ev, keep);
  }

  lemma AddOverCap(m: Counts, m': Counts, ks: seq<string>, k: string, ev: nat, max: nat, keep: nat)
    requires keep <= max && Lossy(m, ks, ev, max, keep) && |Bump(m, k)| > max && IsEviction(Bump(m, k), m', keep)
    ensures Lossy(m', ks + [k], ev + 1, max, keep)
  {
    hide AllWithin, Paid, Sum;
    var b := Bump(m, k);
    SumBump(m, k);
    BumpWithin(m, ks, k, ev, keep);
    SumSubmap(b, m');
    SumIsPaid(m, ev, max, keep, |ks|);
    PayEviction(Sum(m), Sum(m'), ev, max, keep, |ks|);
    EvictWithin(b, m', ks + [k], ev, keep);
  }

  /** What `Lossy` says of each key, with the number of evictions bounded by the number of events. */
  lemma LossyMeans(m: Counts, ks: seq<string>, ev: nat, max: nat, keep: nat, k: string)
    requires keep <= max && Lossy(m, ks, ev, max, keep)
    ensures Get(m, k) <= Count(ks, k) <= Get(m, k) + ev * (|ks| / (keep + 1))
    ensures ev * (max + 1 - keep) <= |ks| && |m| <= max
  {
    hide Count, Sum;
    assert Within(Get(m, k), Count(ks, k), ev, Loss(|ks|, keep));
  }

  lemma SumIsPaid(m: Counts, ev: nat, max: nat, keep: nat, total: nat)
    requires keep <= max && Paid(Sum(m), ev, max, keep, total)
    ensures Sum(m) <= total
  {
    hide Sum;
    MulMonotone(ev, 0, max + 1 - keep);
  }

  // ---------------------------------------------------------------- the top of the list

  datatype NamedCount = NamedCount(name: string, count: nat)

  ghost predicate Enumerates(r: seq<NamedCount>, m: Counts) {
    && (forall i, j :: 0 <= i < j < |r| ==> r[i].name != r[j].name)
    && (forall i :: 0 <= i < |r| ==> r[i].name in m && m[r[i].name] == r[i].count)
    && (forall k :: k in m ==> NamedCount(k, m[k]) in r)
  }

  ghost predicate HighestFirst(r: seq<NamedCount>) {
    forall i, j :: 0 <= i < j < |r| ==> r[i].count >= r[j].count
  }

  ghost function AtLeast(m: Counts, v: nat): set<string> { set k | k in m && m[k] >= v }

  function Names(r: seq<NamedCount>): set<string> { set i | 0 <= i < |r| :: r[i].name }

  lemma {:induction false} NamesSize(r: seq<NamedCount>)
    requires forall i, j :: 0 <= i < j < |r| ==> r[i].name != r[j].name
    ensures |Names(r)| == |r|
  {
    if r != [] {
      var before, last := r[..|r| - 1], r[|r| - 1].name;
      NamesSize(before);
      assert Names(r) == Names(before) + {last};
      assert last !in Names(before);
    }
  }

  lemma EnumerationSize(r: seq<NamedCount>, m: Counts)
    requires Enumerates(r, m)
    ensures |r| == |m|
  {
    NamesSize(r);
    forall k | k in m ensures k in Names(r) {
      var i :| 0 <= i < |r| && r[i] == NamedCount(k, m[k]);
    }
    assert Names(r) == m.Keys;
  }

  lemma NamesAbove(r: seq<NamedCount>, m: Counts, i: nat, v: nat)
    requires Enumerates(r, m) && HighestFirst(r) && i < |r| && r[i].count >= v
    ensures Names(r[..i + 1]) <= AtLeast(m, v)
  {
    var top := r[..i + 1];
    forall j | 0 <= j < |top| ensures top[j].name in AtLeast(m, v) {
      assert top[j] == r[j] && r[j].count >= r[i].count;
    }
  }

  lemma NamesBelow(r: seq<NamedCount>, m: Counts, i: nat, v: nat)
    requires Enumerates(r, m) && HighestFirst(r) && i < |r| && r[i].count < v
    ensures AtLeast(m, v) <= Names(r[..i])
  {
    var top := r[..i];
    forall n | n in AtLeast(m, v) ensures n in Names(top) {
      var j :| 0 <= j < |r| && r[j] == NamedCount(n, m[n]);
      assert j < i;
      assert top[j].name == n;
    }
  }

  // The count at place i of the list says how many counts are at least that high.
  lemma PlaceOfCount(r: seq<NamedCount>, m: Counts, i: nat, v: nat)
    requires Enumerates(r, m) && HighestFirst(r) && i < |r|
    ensures r[i].count >= v <==> |AtLeast(m, v)| > i
  {
    NamesSize(r[..i + 1]);
    NamesSize(r[..i]);
    hide Enumerates, HighestFirst, Names, AtLeast;
    if r[i].count >= v {
      NamesAbove(r, m, i, v);
      SubsetSize(Names(r[..i + 1]), AtLeast(m, v));
    } else {
      NamesBelow(r, m, i, v);
      SubsetSize(AtLeast(m, v), Names(r[..i]));
    }
  }

  lemma EvictionKeepsHighCounts(m: Counts, m': Counts, keep: nat, v: nat, i: nat)
    requires IsEviction(m, m', keep) && i < keep
    ensures |AtLeast(m, v)| > i <==> |AtLeast(m', v)| > i
  {
    SubsetSize(AtLeast(m', v), AtLeast(m, v));
    if e :| e in m && e !in m' && m[e] >= v {
      assert AtLeast(m', v) == m'.Keys;
    } else {
      assert AtLeast(m', v) == AtLeast(m, v);
    }
  }

  lemma SameCountAt(m: Counts, m': Counts, max: nat, keep: nat,
                    r: seq<NamedCount>, r': seq<NamedCount>, i: nat, v: nat)
    requires Capped(m, m', max, keep) && i < keep && i < |r| && i < |r'|
    requires Enumerates(r, m) && HighestFirst(r) && Enumerates(r', m') && HighestFirst(r')
    ensures r[i].count >= v <==> r'[i].count >= v
  {
    PlaceOfCount(r, m, i, v);
    PlaceOfCount(r', m', i, v);
    if |m| > max { EvictionKeepsHighCounts(m, m', keep, v, i); }
  }

  /** However ties are broken, the cap changes no count among the first `keep` places. */
  lemma EvictionKeepsTopCounts(m: Counts, m': Counts, max: nat, keep: nat,
                               r: seq<NamedCount>, r': seq<NamedCount>, i: nat)
    requires keep <= max && Capped(m, m', max, keep) && i < keep
    requires Enumerates(r, m) && HighestFirst(r) && Enumerates(r', m') && HighestFirst(r')
    ensures i < |r| <==> i < |r'|
    ensures i < |r| ==> r[i].count == r'[i].count
  {
    EnumerationSize(r, m);
    EnumerationSize(r', m');
    if i < |r| {
      SameCountAt(m, m', max, keep, r, r', i, r[i].count);
      SameCountAt(m, m', max, keep, r, r', i, r'[i].count);
    }
  }
}

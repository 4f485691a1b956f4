/** What top lists say of the true counts. */
module TopLists {
  import opened FiniteSets
  import opened LossyCount
  import opened Ranking

  /** The map that would have come out without a cap. */
  function Tally(ks: seq<string>): Counts {
    if ks == [] then map[] else Bump(Tally(ks[..|ks| - 1]), ks[|ks| - 1])
  }

  lemma {:induction false} TallyCounts(ks: seq<string>, k: string)
    ensures Get(Tally(ks), k) == Count(ks, k) && (k in Tally(ks) <==> Count(ks, k) > 0)
  {
    if ks != [] { TallyCounts(ks[..|ks| - 1], k); }
  }

  // A map with the true count of every key is that map.
  lemma TallyIsOnly(m: Counts, ks: seq<string>)
    requires forall k :: Get(m, k) == Count(ks, k) && (k in m <==> Count(ks, k) > 0)
    ensures m == Tally(ks)
  {
    forall k ensures Get(m, k) == Get(Tally(ks), k) && (k in m <==> k in Tally(ks)) { TallyCounts(ks, k); }
    hide Tally, Count;
    assert m.Keys == Tally(ks).Keys;
  }

  lemma {:induction false} TallySum(ks: seq<string>)
    ensures Sum(Tally(ks)) == |ks|
  {
    if ks != [] {
      TallySum(ks[..|ks| - 1]);
      SumBump(Tally(ks[..|ks| - 1]), ks[|ks| - 1]);
      hide Sum, Bump;
    }
  }

  lemma NothingTaken(ev: nat, loss: nat)
    ensures ev == 0 ==> ev * loss == 0
    ensures ev > 0 ==> ev * (loss + 1) > 0
  {}

  /** No count of `m` is above that of `t`, nor below it by more than `slack`; a missing one is 0. */
  ghost predicate Close(m: Counts, t: Counts, slack: nat) {
    && (forall k :: k in m ==> k in t && m[k] <= t[k] <= m[k] + slack)
    && (forall k :: k in t && k !in m ==> t[k] <= slack)
  }

  lemma StoredAreClose(m: Counts, ks: seq<string>, ev: nat, max: nat, keep: nat)
    requires Lossy(m, ks, ev, max, keep)
    ensures Close(m, Tally(ks), ev * Loss(|ks|, keep))
  {
    hide Loss, Count, Tally, Paid;
    forall k
      ensures Within(Get(m, k), Get(Tally(ks), k), ev, Loss(|ks|, keep)) && (k in Tally(ks) <==> Get(Tally(ks), k) > 0)
    {
      TallyCounts(ks, k);
      assert Within(Get(m, k), Count(ks, k), ev, Loss(|ks|, keep));
    }
  }

  /**
   The stored map is the map without a cap if and only if nothing was ever evicted: each eviction
   loses counts for good.
   */
  lemma NothingLostIffNoEviction(m: Counts, ks: seq<string>, ev: nat, max: nat, keep: nat)
    requires keep <= max && Lossy(m, ks, ev, max, keep)
    ensures m == Tally(ks) <==> ev == 0
  {
    StoredAreClose(m, ks, ev, max, keep);
    NothingTaken(ev, Loss(|ks|, keep));
    NothingTaken(ev, max - keep);
    TallySum(ks);
    hide Tally, Sum, Loss, AllWithin, Count;
    if ev == 0 {
      forall k ensures k in Tally(ks) ==> k in m { TallyCounts(ks, k); }
      assert m.Keys == Tally(ks).Keys;
    }
  }

  // ---------------------------------------------------------------- the list against that of the true counts

  /** The lowest count that the list shows, 0 if it has room left. */
  function LastShown(top: seq<NamedCount>, n: nat): nat { if |top| < n || n == 0 then 0 else top[n - 1].count }

  /**
   Place by place, the list of `n` counts is at most `slack` below the list of the true counts, and
   no key that beats its last count by more than that is missing.
   */
  ghost predicate NearTop(top: seq<NamedCount>, m: Counts, n: nat, slack: nat) {
    && (forall actual :: IsTop(actual, m, n) ==> PlacesNear(top, actual, slack))
    && (forall k :: Get(m, k) > LastShown(top, n) + slack ==> Shows(top, k))
  }

  ghost predicate PlacesNear(top: seq<NamedCount>, actual: seq<NamedCount>, slack: nat) {
    |top| == |actual| && forall i :: 0 <= i < |top| ==> top[i].count <= actual[i].count <= top[i].count + slack
  }

  predicate Shows(top: seq<NamedCount>, k: string) { exists i :: 0 <= i < |top| && top[i].name == k }

  lemma SizesNear(m: Counts, ks: seq<string>, ev: nat, max: nat, keep: nat, n: nat)
    requires n <= keep <= max && Lossy(m, ks, ev, max, keep)
    ensures |m| == |Tally(ks)| || (|m| >= n && |Tally(ks)| >= n)
  {
    StoredAreClose(m, ks, ev, max, keep);
    NothingLostIffNoEviction(m, ks, ev, max, keep);
    hide Tally, AllWithin, Paid, Sum, Loss;
    SubsetSize(m.Keys, Tally(ks).Keys);
  }

  lemma PlaceNear(m: Counts, t: Counts, r: seq<NamedCount>, r': seq<NamedCount>, i: nat, slack: nat)
    requires Enumerates(r, m) && HighestFirst(r) && Enumerates(r', t) && HighestFirst(r') && i < |r| && i < |r'|
    requires Close(m, t, slack)
    ensures r[i].count <= r'[i].count <= r[i].count + slack
  {
    hide Enumerates, HighestFirst;
    var (v, v') := (r[i].count, r'[i].count);
    PlaceOfCount(r, m, i, v);
    PlaceOfCount(r', t, i, v);
    SubsetSize(AtLeast(m, v), AtLeast(t, v));
    if v' > slack {
      PlaceOfCount(r', t, i, v');
      PlaceOfCount(r, m, i, v' - slack);
      SubsetSize(AtLeast(t, v'), AtLeast(m, v' - slack));
    }
  }

  lemma PlacesAreNear(m: Counts, t: Counts, n: nat, slack: nat, top: seq<NamedCount>, actual: seq<NamedCount>)
    requires |m| == |t| || (|m| >= n && |t| >= n)
    requires Close(m, t, slack) && IsTop(top, m, n) && IsTop(actual, t, n)
    ensures PlacesNear(top, actual, slack)
  {
    hide Close, Enumerates, HighestFirst, Before, IsRanking;
    var r :| IsRanking(r, m) && top == r[..if |r| < n then |r| else n];
    var r' :| IsRanking(r', t) && actual == r'[..if |r'| < n then |r'| else n];
    RankingFacts(r, m);
    RankingFacts(r', t);
    forall i | 0 <= i < |top| ensures top[i].count <= actual[i].count <= top[i].count + slack {
      PlaceNear(m, t, r, r', i, slack);
    }
  }

  lemma RankingFacts(r: seq<NamedCount>, m: Counts)
    requires IsRanking(r, m)
    ensures Enumerates(r, m) && HighestFirst(r) && |r| == |m|
  {
    RankingSize(r, m);
    RankingIsHighestFirst(r, m);
  }

  lemma HighIsShown(m: Counts, n: nat, top: seq<NamedCount>, k: string)
    requires n > 0 && IsTop(top, m, n) && Get(m, k) > LastShown(top, n)
    ensures Shows(top, k)
  {
    var r :| IsRanking(r, m) && top == r[..if |r| < n then |r| else n];
    RankingIsHighestFirst(r, m);
    hide Before;
    var j :| 0 <= j < |r| && r[j] == NamedCount(k, m[k]);
    assert j < |top|;
    assert top[j].name == k;
  }

  /**
   After any run, with any number of evictions `ev`, each shown count is at most `ev` losses below
   the count that the uncapped map has at that place, and every key whose true count beats the
   last one shown by more than that is shown.
   */
  lemma TopIsNearTruth(m: Counts, ks: seq<string>, ev: nat, max: nat, keep: nat, n: nat, top: seq<NamedCount>)
    requires 0 < n <= keep <= max && Lossy(m, ks, ev, max, keep) && IsTop(top, m, n)
    ensures NearTop(top, Tally(ks), n, ev * Loss(|ks|, keep))
  {
    hide IsTop, PlacesNear, Loss, Count, Paid, Sum, Close;
    var slack := ev * Loss(|ks|, keep);
    StoredAreClose(m, ks, ev, max, keep);
    SizesNear(m, ks, ev, max, keep, n);
    forall actual | IsTop(actual, Tally(ks), n) ensures PlacesNear(top, actual, slack) {
      PlacesAreNear(m, Tally(ks), n, slack, top, actual);
    }
    forall k | Get(Tally(ks), k) > LastShown(top, n) + slack ensures Shows(top, k) {
      TallyCounts(ks, k);
      assert Within(Get(m, k), Count(ks, k), ev, Loss(|ks|, keep));
      HighIsShown(m, n, top, k);
    }
  }

  // ---------------------------------------------------------------- lost counts show

  /** Counting one key, then the cap. */
  ghost predicate Adds(m: Counts, k: string, m': Counts, max: nat, keep: nat) { Capped(Bump(m, k), m', max, keep) }

  /** Counting the keys from `m` on may lead to `m'`. */
  ghost predicate CountsTo(m: Counts, ks: seq<string>, m': Counts, max: nat, keep: nat)
    decreases ks
  {
    if ks == [] then m' == m else exists b :: Adds(m, ks[0], b, max, keep) && CountsTo(b, ks[1..], m', max, keep)
  }

  /** Every run keeps the stored counts within the bound, with as many evictions as it has had. */
  lemma {:induction false} EveryCount(m: Counts, before: seq<string>, ev: nat, ks: seq<string>, m': Counts,
                                      max: nat, keep: nat)
    returns (ev': nat)
    requires keep <= max && Lossy(m, before, ev, max, keep) && CountsTo(m, ks, m', max, keep)
    ensures Lossy(m', before + ks, ev', max, keep) && ev <= ev' <= ev + |ks|
    decreases ks
  {
    hide Lossy;
    if ks == [] {
      ev' := ev;
      assert before + ks == before;
    } else {
      var b :| Adds(m, ks[0], b, max, keep) && CountsTo(b, ks[1..], m', max, keep);
      hide Bump, CountsTo;
      AddKeepsBound(m, b, before, ks[0], ev, max, keep);
      var more := if |Bump(m, ks[0])| <= max then ev else ev + 1;
      ev' := EveryCount(b, before + [ks[0]], more, ks[1..], m', max, keep);
      assert before + [ks[0]] + ks[1..] == before + ks;
    }
  }

  function Times(k: string, n: nat): seq<string> { if n == 0 then [] else [k] + Times(k, n - 1) }

  function Raised(m: Counts, k: string, n: nat): Counts { if n == 0 then m else m[k := Get(m, k) + n] }

  lemma AddsOne(m: Counts, k: string, n: nat, max: nat, keep: nat)
    requires n > 0 && |m| <= max && (k in m || |m| < max)
    ensures Adds(m, k, Bump(m, k), max, keep)
    ensures |Bump(m, k)| <= max && Raised(Bump(m, k), k, n - 1) == Raised(m, k, n)
  {
    assert Bump(m, k).Keys == m.Keys + {k};
    assert |Bump(m, k)| == |Bump(m, k).Keys| && |m| == |m.Keys|;
    if k in m { assert Bump(m, k).Keys == m.Keys; }
  }

  lemma {:induction false} CountsUp(m: Counts, k: string, n: nat, max: nat, keep: nat)
    requires |m| <= max && (k in m || |m| < max)
    ensures CountsTo(m, Times(k, n), Raised(m, k, n), max, keep)
    decreases n
  {
    if n > 0 {
      AddsOne(m, k, n, max, keep);
      hide Adds, Raised;
      CountsUp(Bump(m, k), k, n - 1, max, keep);
      assert Times(k, n)[1..] == Times(k, n - 1);
    }
  }

  lemma CountOneMore(ks: seq<string>, k: string, rest: seq<string>)
    ensures Count(ks + [k], k) == Count(ks, k) + 1 && ks + ([k] + rest) == ks + [k] + rest
  {
    assert (ks + [k])[..|ks|] == ks;
  }

  lemma {:induction false} CountOfTimes(ks: seq<string>, k: string, n: nat)
    ensures Count(ks + Times(k, n), k) == Count(ks, k) + n
    decreases n
  {
    if n == 0 {
      assert ks + [] == ks;
    } else {
      hide Count;
      CountOfTimes(ks + [k], k, n - 1);
      CountOneMore(ks, k, Times(k, n - 1));
    }
  }

  // A count above all others is shown first.
  lemma HighestIsFirst(m: Counts, k: string, n: nat, top: seq<NamedCount>)
    requires n > 0 && IsTop(top, m, n) && k in m && forall x :: x in m && x != k ==> m[x] < m[k]
    ensures top != [] && top[0] == NamedCount(k, m[k])
  {
    var r :| IsRanking(r, m) && top == r[..if |r| < n then |r| else n];
    FirstIsLeast(r, m, k);
  }

  lemma CountBelowSum(m: Counts, k: string)
    requires k in m
    ensures m[k] <= Sum(m)
  {
    SumRemove(m, k);
  }

  lemma SomethingLost(m: Counts, ks: seq<string>, ev: nat, max: nat, keep: nat) returns (k: string)
    requires keep <= max && Lossy(m, ks, ev, max, keep) && ev > 0
    ensures Get(m, k) < Count(ks, k)
  {
    NothingLostIffNoEviction(m, ks, ev, max, keep);
    StoredAreClose(m, ks, ev, max, keep);
    hide Loss, Count, Tally, Paid, AllWithin, Sum;
    assert m != Tally(ks);
    assert exists k' :: k' in Tally(ks) && Get(m, k') != Tally(ks)[k'] by {
      if forall k' :: k' in Tally(ks) ==> Get(m, k') == Tally(ks)[k'] {
        forall k' ensures k' in m <==> k' in Tally(ks) { TallyCounts(ks, k'); }
      }
    }
    k :| k in Tally(ks) && Get(m, k) != Tally(ks)[k];
    TallyCounts(ks, k);
  }

  /**
   Whatever a run has counted, once there was an eviction and the map has room for one more key,
   the run can go on so that every list at its end shows in the first place a count that is too low.
   */
  lemma LostCountsShow(m: Counts, ks: seq<string>, ev: nat, max: nat, keep: nat, n: nat)
    returns (more: seq<string>, m': Counts)
    requires keep <= max && Lossy(m, ks, ev, max, keep) && ev > 0 && |m| < max && n > 0
    ensures CountsTo(m, more, m', max, keep)
    ensures forall top: seq<NamedCount> :: IsTop(top, m', n) ==>
        top != [] && top[0].count < Count(ks + more, top[0].name)
  {
    var k := SomethingLost(m, ks, ev, max, keep);
    hide IsTop, Sum, Count, AllWithin, Paid;
    var c := Sum(m) + 1;
    more, m' := Times(k, c), Raised(m, k, c);
    CountsUp(m, k, c, max, keep);
    CountOfTimes(ks, k, c);
    forall x | x in m ensures m[x] <= Sum(m) { CountBelowSum(m, x); }
    forall top: seq<NamedCount> | IsTop(top, m', n) ensures top != [] && top[0].count < Count(ks + more, top[0].name) {
      HighestIsFirst(m', k, n, top);
    }
  }
}

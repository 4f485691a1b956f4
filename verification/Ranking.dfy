/**
 Sorting a count map into a list, and cutting it (`topN` and `capCounts` of the collector).

 `topN` sorts by count, highest first, and equal counts by name, so a map has one ranking.
 `capCounts` sorts by count alone, so any order among equal counts may come out of it.
 */
module Ranking {
  import opened LossyCount
  import opened Ordering

  /** The order of `topN`: highest count first, names in order among equal counts. */
  predicate Before(x: NamedCount, y: NamedCount) {
    x.count > y.count || (x.count == y.count && StrLt(x.name, y.name))
  }

  lemma BeforeIsOrder(x: NamedCount, y: NamedCount, z: NamedCount)
    ensures x != y ==> Before(x, y) || Before(y, x)
    ensures !(Before(x, y) && Before(y, x))
    ensures Before(x, y) && Before(y, z) ==> Before(x, z)
  {
    StrLeTotal(x.name, y.name);
    if StrLt(x.name, y.name) && StrLt(y.name, z.name) {
      StrLeTransitive(x.name, y.name, z.name);
      StrLeTotal(y.name, z.name);
    }
  }

  /** `r` lists the whole map, in the order of `topN`. */
  ghost predicate IsRanking(r: seq<NamedCount>, m: Counts) {
    Enumerates(r, m) && forall i, j :: 0 <= i < j < |r| ==> Before(r[i], r[j])
  }

  /** `out` is the first `n` entries of the ranking of `m`. */
  ghost predicate IsTop(out: seq<NamedCount>, m: Counts, n: nat) {
    exists r :: IsRanking(r, m) && out == r[..if |r| < n then |r| else n]
  }

  lemma RankingIsHighestFirst(r: seq<NamedCount>, m: Counts)
    requires IsRanking(r, m)
    ensures HighestFirst(r)
  {
    forall i, j | 0 <= i < j < |r| ensures r[i].count >= r[j].count {
      assert Before(r[i], r[j]);
    }
  }

  // The first entry of a ranking comes before every other entry of the map.
  lemma FirstIsLeast(r: seq<NamedCount>, m: Counts, k: string)
    requires IsRanking(r, m) && k in m
    ensures r != [] && (r[0] == NamedCount(k, m[k]) || Before(r[0], NamedCount(k, m[k])))
  {
    var i :| 0 <= i < |r| && r[i] == NamedCount(k, m[k]);
  }

  lemma RankingTail(r: seq<NamedCount>, m: Counts)
    requires IsRanking(r, m) && r != []
    ensures IsRanking(r[1..], m - {r[0].name})
  {
    var m' := m - {r[0].name};
    forall k | k in m' ensures NamedCount(k, m'[k]) in r[1..] {
      var i :| 0 <= i < |r| && r[i] == NamedCount(k, m[k]);
      assert r[1..][i - 1] == r[i];
    }
  }

  lemma SameFirst(r: seq<NamedCount>, r': seq<NamedCount>, m: Counts)
    requires IsRanking(r, m) && IsRanking(r', m) && r != [] && r' != []
    ensures r[0] == r'[0]
  {
    FirstIsLeast(r, m, r'[0].name);
    FirstIsLeast(r', m, r[0].name);
    BeforeIsOrder(r[0], r'[0], r[0]);
  }

  lemma RankingSize(r: seq<NamedCount>, m: Counts)
    requires IsRanking(r, m)
    ensures |r| == |m|
  {
    EnumerationSize(r, m);
  }

  /** A map has one ranking, so the top of the list is determined by the counts. */
  lemma {:induction false} RankingUnique(r: seq<NamedCount>, r': seq<NamedCount>, m: Counts)
    requires IsRanking(r, m) && IsRanking(r', m)
    ensures r == r'
    decreases |r|
  {
    hide IsRanking;
    RankingSize(r, m);
    RankingSize(r', m);
    if r != [] {
      SameFirst(r, r', m);
      RankingTail(r, m);
      RankingTail(r', m);
      RankingUnique(r[1..], r'[1..], m - {r[0].name});
      assert r == [r[0]] + r[1..] && r' == [r'[0]] + r'[1..];
    }
  }

  // ---------------------------------------------------------------- sorting by insertion

  function Place(r: seq<NamedCount>, x: NamedCount): (s: seq<NamedCount>)
    ensures |s| == |r| + 1 && x in s && forall y :: y in r ==> y in s
    ensures forall y :: y in s ==> y in r || y == x
  {
    if r == [] || Before(x, r[0]) then [x] + r else [r[0]] + Place(r[1..], x)
  }

  lemma {:induction false} PlaceKeepsOrder(r: seq<NamedCount>, x: NamedCount)
    requires (forall i, j :: 0 <= i < j < |r| ==> Before(r[i], r[j])) && x !in r
    ensures forall i, j :: 0 <= i < j < |Place(r, x)| ==> Before(Place(r, x)[i], Place(r, x)[j])
  {
    if r != [] {
      forall y | y in r[1..] ensures Before(r[0], y) {}
      if Before(x, r[0]) {
        forall y | y in r ensures Before(x, y) { BeforeIsOrder(x, r[0], y); }
      } else {
        BeforeIsOrder(x, r[0], x);
        PlaceKeepsOrder(r[1..], x);
      }
    }
  }

  // Strictly ordered entries of a map, one for each key, list that map.
  lemma OrderedIsRanking(r: seq<NamedCount>, m: Counts)
    requires forall i, j :: 0 <= i < j < |r| ==> Before(r[i], r[j])
    requires forall x :: x in r ==> x.name in m && m[x.name] == x.count
    requires forall k :: k in m ==> NamedCount(k, m[k]) in r
    ensures IsRanking(r, m)
  {
    forall i, j | 0 <= i < j < |r| ensures r[i].name != r[j].name {
      assert r[i] in r && r[j] in r;
      BeforeIsOrder(r[i], r[j], r[i]);
    }
  }

  /** All entries of the map in the order of `topN`; the map is visited in any order. */
  method Rank(m: Counts) returns (out: seq<NamedCount>)
    ensures IsRanking(out, m)
  {
    out := [];
    var todo := m.Keys;
    while todo != {}
      invariant todo <= m.Keys
      invariant forall i, j :: 0 <= i < j < |out| ==> Before(out[i], out[j])
      invariant forall x :: x in out ==> x.name in m && x.name !in todo && m[x.name] == x.count
      invariant forall k :: k in m && k !in todo ==> NamedCount(k, m[k]) in out
      decreases todo
    {
      var k :| k in todo;
      PlaceKeepsOrder(out, NamedCount(k, m[k]));
      out := Place(out, NamedCount(k, m[k]));
      todo := todo - {k};
    }
    OrderedIsRanking(out, m);
  }

  /** `topN`. */
  method TopN(m: Counts, n: nat) returns (out: seq<NamedCount>)
    ensures IsTop(out, m, n)
  {
    var r := Rank(m);
    out := if |r| > n then r[..n] else r;
    assert out == r[..if |r| < n then |r| else n];
  }

  // ---------------------------------------------------------------- the cap

  /** The sort of `capCounts` looks at counts only. */
  function PlaceByCount(r: seq<NamedCount>, x: NamedCount): (s: seq<NamedCount>)
    ensures |s| == |r| + 1 && x in s && forall y :: y in r ==> y in s
    ensures forall y :: y in s ==> y in r || y == x
  {
    if r == [] || x.count > r[0].count then [x] + r else [r[0]] + PlaceByCount(r[1..], x)
  }

  lemma {:induction false} PlaceByCountSorted(r: seq<NamedCount>, x: NamedCount)
    requires HighestFirst(r) && forall y :: y in r ==> y.name != x.name
    requires forall i, j :: 0 <= i < j < |r| ==> r[i].name != r[j].name
    ensures HighestFirst(PlaceByCount(r, x))
    ensures forall i, j :: 0 <= i < j < |r| + 1 ==> PlaceByCount(r, x)[i].name != PlaceByCount(r, x)[j].name
  {
    if r == [] || x.count > r[0].count {
      assert PlaceByCount(r, x) == [x] + r;
    } else {
      forall y | y in r[1..] ensures r[0].count >= y.count && r[0].name != y.name {}
      PlaceByCountSorted(r[1..], x);
    }
  }

  method SortByCount(m: Counts) returns (all: seq<NamedCount>)
    ensures Enumerates(all, m) && HighestFirst(all)
  {
    all := [];
    var todo := m.Keys;
    while todo != {}
      invariant todo <= m.Keys && HighestFirst(all)
      invariant forall i, j :: 0 <= i < j < |all| ==> all[i].name != all[j].name
      invariant forall x :: x in all ==> x.name in m && x.name !in todo && m[x.name] == x.count
      invariant forall k :: k in m && k !in todo ==> NamedCount(k, m[k]) in all
      decreases todo
    {
      var k :| k in todo;
      PlaceByCountSorted(all, NamedCount(k, m[k]));
      all := PlaceByCount(all, NamedCount(k, m[k]));
      todo := todo - {k};
    }
  }

  lemma NamesSplit(all: seq<NamedCount>, keep: nat)
    requires keep <= |all| && forall i, j :: 0 <= i < j < |all| ==> all[i].name != all[j].name
    ensures Names(all[..keep]) + Names(all[keep..]) == Names(all) && Names(all[..keep]) !! Names(all[keep..])
  {
    var kept, gone := all[..keep], all[keep..];
    forall i | 0 <= i < |all| ensures all[i].name in Names(kept) + Names(gone) {
      if i < keep { assert kept[i] == all[i]; } else { assert gone[i - keep] == all[i]; }
    }
    forall n | n in Names(kept) ensures n !in Names(gone) {
      var i :| 0 <= i < |kept| && kept[i].name == n;
      forall j | 0 <= j < |gone| ensures gone[j].name != n {
        assert gone[j] == all[keep + j] && kept[i] == all[i];
      }
    }
  }

  lemma EnumeratedNames(all: seq<NamedCount>, m: Counts)
    requires Enumerates(all, m)
    ensures Names(all) == m.Keys
  {
    forall k | k in m ensures k in Names(all) {
      var i :| 0 <= i < |all| && all[i] == NamedCount(k, m[k]);
    }
  }

  // Deleting the names from place `keep` on is an eviction.
  lemma TailIsEvicted(all: seq<NamedCount>, m: Counts, keep: nat)
    requires Enumerates(all, m) && HighestFirst(all) && keep <= |all|
    ensures IsEviction(m, m - Names(all[keep..]), keep)
  {
    hide Names, Enumerates, HighestFirst;
    NamesOfTail(all, m, keep);
    RemainingKeys(m, Names(all[..keep]), Names(all[keep..]));
    forall k, e | k in Names(all[..keep]) && e in Names(all[keep..]) ensures k in m && e in m && m[e] <= m[k] {
      KeptIsHigher(all, m, keep, k, e);
    }
  }

  lemma NamesOfTail(all: seq<NamedCount>, m: Counts, keep: nat)
    requires Enumerates(all, m) && keep <= |all|
    ensures Names(all[..keep]) + Names(all[keep..]) == m.Keys && Names(all[..keep]) !! Names(all[keep..])
    ensures |Names(all[..keep])| == keep
  {
    NamesSplit(all, keep);
    EnumeratedNames(all, m);
    NamesSize(all[..keep]);
  }

  lemma RemainingKeys(m: Counts, kept: set<string>, gone: set<string>)
    requires kept + gone == m.Keys && kept !! gone
    ensures (m - gone).Keys == kept && IsSubmap(m - gone, m) && |m - gone| == |kept|
  {
    assert (m - gone).Keys == kept;
  }

  lemma KeptIsHigher(all: seq<NamedCount>, m: Counts, keep: nat, k: string, e: string)
    requires Enumerates(all, m) && HighestFirst(all) && keep <= |all|
    requires k in Names(all[..keep]) && e in Names(all[keep..])
    ensures k in m && e in m && m[e] <= m[k]
  {
    var kept, gone := all[..keep], all[keep..];
    var i :| 0 <= i < |kept| && kept[i].name == k;
    var j :| 0 <= j < |gone| && gone[j].name == e;
    assert all[i] == kept[i] && all[keep + j] == gone[j];
  }

  lemma NamesSnoc(r: seq<NamedCount>, x: NamedCount)
    ensures Names(r + [x]) == Names(r) + {x.name}
  {
    assert (r + [x])[|r|] == x;
    forall i | 0 <= i < |r| ensures r[i].name in Names(r + [x]) {
      assert (r + [x])[i] == r[i];
    }
  }

  lemma DeleteOneMore(m: Counts, gone: set<string>, k: string)
    ensures m - gone - {k} == m - (gone + {k})
  {}

  lemma NoNames()
    ensures Names([]) == {}
  {}

  method DeleteAll(m: Counts, entries: seq<NamedCount>) returns (m': Counts)
    ensures m' == m - Names(entries)
  {
    hide Names;
    NoNames();
    m' := m;
    for i := 0 to |entries|
      invariant m' == m - Names(entries[..i])
    {
      assert entries[..i + 1] == entries[..i] + [entries[i]];
      NamesSnoc(entries[..i], entries[i]);
      DeleteOneMore(m, Names(entries[..i]), entries[i].name);
      m' := m' - {entries[i].name};
    }
    assert entries[..|entries|] == entries;
  }

  /** `capCounts`: nothing while the map is small enough, else delete the tail of the sorted list. */
  method CapCounts(m: Counts, max: nat, keep: nat) returns (m': Counts)
    requires keep <= max
    ensures Capped(m, m', max, keep)
  {
    if |m| <= max {
      return m;
    }
    var all := SortByCount(m);
    EnumerationSize(all, m);
    TailIsEvicted(all, m, keep);
    m' := DeleteAll(m, all[keep..]);
  }
}

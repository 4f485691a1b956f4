/**
 Byte-wise string order, and sorting strings by it (Go's `<` and `sort.Strings`).

 The order is total, so a sorted list is determined by its elements: whatever algorithm sorts, and
 whatever order it starts from, the outcome depends on the multiset of the strings alone.
 */
module Ordering {

  predicate StrLe(a: string, b: string) {
    if a == "" then true
    else if b == "" then false
    else if a[0] != b[0] then a[0] < b[0]
    else StrLe(a[1..], b[1..])
  }

  predicate StrLt(a: string, b: string) { a != b && StrLe(a, b) }

  lemma {:induction false} StrLeReflexive(a: string)
    ensures StrLe(a, a)
  {
    if a != "" { StrLeReflexive(a[1..]); }
  }

  lemma {:induction false} StrLeTotal(a: string, b: string)
    ensures StrLe(a, b) || StrLe(b, a)
    ensures StrLe(a, b) && StrLe(b, a) ==> a == b
  {
    if a != "" && b != "" && a[0] == b[0] {
      StrLeTotal(a[1..], b[1..]);
      assert a == [a[0]] + a[1..] && b == [b[0]] + b[1..];
    }
  }

  lemma {:induction false} StrLeTransitive(a: string, b: string, c: string)
    requires StrLe(a, b) && StrLe(b, c)
    ensures StrLe(a, c)
  {
    if a != "" && b != "" && c != "" && a[0] == b[0] && b[0] == c[0] {
      StrLeTransitive(a[1..], b[1..], c[1..]);
    }
  }

  predicate IsSorted(s: seq<string>) {
    forall i, j :: 0 <= i < j < |s| ==> StrLe(s[i], s[j])
  }

  function Insert(s: seq<string>, x: string): (r: seq<string>)
    ensures multiset(r) == multiset(s) + multiset{x}
  {
    if s == [] then [x]
    else if StrLe(x, s[0]) then [x] + s
    else
      assert s == [s[0]] + s[1..];
      [s[0]] + Insert(s[1..], x)
  }

  function Sort(s: seq<string>): (r: seq<string>)
    ensures multiset(r) == multiset(s)
  {
    if s == [] then []
    else
      assert s == [s[0]] + s[1..];
      Insert(Sort(s[1..]), s[0])
  }

  lemma {:induction false} InsertSorted(s: seq<string>, x: string)
    requires IsSorted(s)
    ensures IsSorted(Insert(s, x))
  {
    if s == [] {
    } else if StrLe(x, s[0]) {
      forall j | 0 <= j < |s| ensures StrLe(x, s[j]) {
        if j > 0 { StrLeTransitive(x, s[0], s[j]); }
      }
    } else {
      StrLeTotal(x, s[0]);
      var r := Insert(s[1..], x);
      InsertSorted(s[1..], x);
      forall j | 0 <= j < |r| ensures StrLe(s[0], r[j]) {
        assert r[j] in multiset(r);
        assert r[j] == x || r[j] in s[1..];
      }
    }
  }

  lemma {:induction false} SortSorted(s: seq<string>)
    ensures IsSorted(Sort(s))
  {
    if s != [] {
      SortSorted(s[1..]);
      InsertSorted(Sort(s[1..]), s[0]);
    }
  }

  lemma LeastComesFirst(s: seq<string>, x: string)
    requires IsSorted(s) && x in s
    ensures StrLe(s[0], x)
  {
    StrLeReflexive(s[0]);
    var i :| 0 <= i < |s| && s[i] == x;
  }

  lemma Tail(s: seq<string>)
    requires s != []
    ensures s == [s[0]] + s[1..] && multiset(s[1..]) == multiset(s) - multiset{s[0]}
    ensures IsSorted(s) ==> IsSorted(s[1..])
  {
    assert s == [s[0]] + s[1..];
  }

  /** A multiset of strings has one sorted listing. */
  lemma {:induction false} SortedUnique(s: seq<string>, t: seq<string>)
    requires IsSorted(s) && IsSorted(t) && multiset(s) == multiset(t)
    ensures s == t
  {
    hide StrLe, IsSorted;
    assert |multiset(s)| == |s| && |multiset(t)| == |t|;
    if s != [] {
      assert s[0] in multiset(s) && t[0] in multiset(t);
      LeastComesFirst(s, t[0]);
      LeastComesFirst(t, s[0]);
      StrLeTotal(s[0], t[0]);
      Tail(s);
      Tail(t);
      SortedUnique(s[1..], t[1..]);
    }
  }

  /** Sorting forgets the order of its input and nothing else. */
  lemma SortDependsOnMultiset(s: seq<string>, t: seq<string>)
    ensures Sort(s) == Sort(t) <==> multiset(s) == multiset(t)
  {
    if multiset(s) == multiset(t) {
      SortSorted(s);
      SortSorted(t);
      SortedUnique(Sort(s), Sort(t));
    }
  }
}

/**
 The newest entries of a set of integer keys.

 Both the hourly buckets of the metrics collector and the snapshot table are cut down to these:
 one by sorting the hours and deleting the oldest, the other by a query for the newest versions.
 */
module Newest {
  import opened FiniteSets

  function Min(x: nat, y: nat): nat { if x <= y then x else y }

  /** `kept` is the `keep` greatest of `all`, or all of them when there are no more than that. */
  ghost predicate IsNewest(kept: set<int>, all: set<int>, keep: nat) {
    && kept <= all && |kept| == Min(keep, |all|)
    && forall k, r :: k in kept && r in all && r !in kept ==> k > r
  }

  lemma {:induction false} MaxExists(s: set<int>) returns (x: int)
    requires s != {}
    ensures x in s && forall y :: y in s ==> y <= x
    decreases |s|
  {
    var z := Element(s);
    var rest := s - {z};
    assert s == rest + {z};
    if rest == {} {
      x := z;
    } else {
      x := MaxExists(rest);
      if z > x { x := z; }
    }
  }

  method TakeMax(s: set<int>) returns (x: int)
    requires s != {}
    ensures x in s && forall y :: y in s ==> y <= x
  {
    ghost var w := MaxExists(s);
    x :| x in s && forall y :: y in s ==> y <= x;
  }

  /** Sort the keys newest first and take the head of the list. */
  method SelectNewest(all: set<int>, keep: nat) returns (kept: set<int>)
    ensures IsNewest(kept, all, keep)
  {
    kept := {};
    var rest := all;
    while rest != {} && |kept| < keep
      invariant kept !! rest && kept + rest == all && |kept| <= keep
      invariant forall k, r :: k in kept && r in rest ==> k > r
      decreases |rest|
    {
      var x := TakeMax(rest);
      kept, rest := kept + {x}, rest - {x};
    }
    assert rest == {} ==> kept == all;
    assert |all| == |kept| + |rest|;
  }

  lemma NewestUnique(a: set<int>, b: set<int>, all: set<int>, keep: nat)
    requires IsNewest(a, all, keep) && IsNewest(b, all, keep)
    ensures a == b
  {
    Comparable(a, b, all, keep);
    if a <= b { SubsetSize(a, b); } else { SubsetSize(b, a); }
  }

  // What one of two selections has and the other lacks is newer than all that the other has alone.
  lemma Comparable(a: set<int>, b: set<int>, all: set<int>, keep: nat)
    requires IsNewest(a, all, keep) && IsNewest(b, all, keep)
    ensures a <= b || b <= a
  {
    if !(a <= b) {
      var x := Missing(a, b);
      forall y | y in b ensures y in a {}
    }
  }

  /** The newest key of all is always kept. */
  lemma MaxKept(kept: set<int>, all: set<int>, keep: nat, x: int)
    requires IsNewest(kept, all, keep) && keep >= 1 && x in all && forall y :: y in all ==> y <= x
    ensures x in kept
  {
    SubsetSize({x}, all);
    assert |kept| >= 1;
    var k := Element(kept);
    assert k <= x;
  }

  lemma {:induction false} NewestExists(all: set<int>, keep: nat) returns (kept: set<int>)
    ensures IsNewest(kept, all, keep)
    decreases |all|
  {
    if all == {} || keep == 0 {
      kept := {};
    } else {
      var x := MaxExists(all);
      var rest := NewestExists(all - {x}, keep - 1);
      kept := rest + {x};
      assert |all - {x}| == |all| - 1 && |kept| == |rest| + 1;
    }
  }

  lemma NewestIsThere(all: set<int>, keep: nat)
    ensures exists kept :: IsNewest(kept, all, keep)
  {
    var kept := NewestExists(all, keep);
  }

  ghost function NewestOf(all: set<int>, keep: nat): (kept: set<int>)
    ensures IsNewest(kept, all, keep)
  {
    NewestIsThere(all, keep);
    var kept :| IsNewest(kept, all, keep);
    kept
  }
}

/** The in-process LRU+TTL cache of internal/edge/cache.go. */
module MemCache {
  import opened Options

  // First the cache as a value, a list of slots with the most recently used one in front, and
  // the three operations as functions on that list. Then what any run of these operations
  // guarantees. Last the class, whose list and index share their entries and are updated in
  // place, and whose methods are proved to do what the functions say.
  //
  // A Go string is a sequence of bytes; a `char` here stands for one byte, so `|key|` is `len(key)`.
  // Times are nanoseconds and come from the caller, one clock reading per call.

  newtype byte = x: int | 0 <= x < 256
  type Bytes = seq<byte>

  const DEFAULT_MAX_BYTES := 134_217_728
  const DEFAULT_MAX_ENTRY_BYTES := 8_388_608
  const DEFAULT_MAX_ENTRIES := 50_000

  datatype Limits = Limits(maxBytes: int, maxEntryBytes: int, maxEntries: int)

  /** `NewMemStore` replaces every limit that is not positive. */
  function WithDefaults(lim: Limits): (r: Limits)
    ensures r.maxBytes > 0 && r.maxEntryBytes > 0 && r.maxEntries > 0
    ensures lim.maxBytes > 0 ==> r.maxBytes == lim.maxBytes
    ensures lim.maxEntryBytes > 0 ==> r.maxEntryBytes == lim.maxEntryBytes
    ensures lim.maxEntries > 0 ==> r.maxEntries == lim.maxEntries
  {
    Limits(if lim.maxBytes <= 0 then DEFAULT_MAX_BYTES else lim.maxBytes,
           if lim.maxEntryBytes <= 0 then DEFAULT_MAX_ENTRY_BYTES else lim.maxEntryBytes,
           if lim.maxEntries <= 0 then DEFAULT_MAX_ENTRIES else lim.maxEntries)
  }

  // ---------------------------------------------------------------- the cache as a value

  datatype Slot = Slot(key: string, val: Bytes, exp: int) {
    function Size(): nat { |key| + |val| }
    predicate Expired(now: int) { now > exp }
  }

  function TotalSize(l: seq<Slot>): nat {
    if l == [] then 0 else TotalSize(l[..|l| - 1]) + l[|l| - 1].Size()
  }

  predicate Fits(l: seq<Slot>, lim: Limits) {
    TotalSize(l) <= lim.maxBytes && |l| <= lim.maxEntries
  }

  predicate DistinctKeys(l: seq<Slot>) {
    forall i, j :: 0 <= i < j < |l| ==> l[i].key != l[j].key
  }

  function Without(l: seq<Slot>, key: string): seq<Slot> {
    if l == [] then []
    else if l[0].key == key then Without(l[1..], key)
    else [l[0]] + Without(l[1..], key)
  }

  function Find(l: seq<Slot>, key: string): Option<Slot> {
    if l == [] then None else if l[0].key == key then Some(l[0]) else Find(l[1..], key)
  }

  function Unexpired(l: seq<Slot>, now: int): seq<Slot> {
    if l == [] then []
    else if l[0].Expired(now) then Unexpired(l[1..], now)
    else [l[0]] + Unexpired(l[1..], now)
  }

  /** Eviction from the back, one slot at a time, until what is left fits. */
  function Trim(l: seq<Slot>, lim: Limits): seq<Slot> {
    if Fits(l, lim) || l == [] then l else Trim(l[..|l| - 1], lim)
  }

  function AfterSet(l: seq<Slot>, lim: Limits, key: string, val: Bytes, exp: int): seq<Slot> {
    if |val| > lim.maxEntryBytes then l else Trim([Slot(key, val, exp)] + Without(l, key), lim)
  }

  function AfterGet(l: seq<Slot>, key: string, now: int): (r: (seq<Slot>, Option<Bytes>)) {
    match Find(l, key)
    case None => (l, None)
    case Some(s) =>
      if s.Expired(now) then (Without(l, key), None)
      else ([s] + Without(l, key), Some(s.val))
  }

  // ---------------------------------------------------------------- eviction

  lemma {:induction false} PrefixSize(l: seq<Slot>, k: nat)
    requires k <= |l|
    ensures TotalSize(l[..k]) <= TotalSize(l)
  {
    if k == |l| {
      assert l[..k] == l;
    } else {
      PrefixSize(l[..|l| - 1], k);
      assert l[..|l| - 1][..k] == l[..k];
    }
  }

  /** Eviction keeps exactly the longest prefix of the most-recently-used-first list that fits. */
  lemma {:induction false} TrimKeepsLongestFittingPrefix(l: seq<Slot>, lim: Limits, k: nat)
    requires 0 <= lim.maxBytes && 0 <= lim.maxEntries && k <= |l|
    ensures Trim(l, lim) <= l
    ensures Fits(Trim(l, lim), lim)
    ensures Fits(l[..k], lim) <==> k <= |Trim(l, lim)|
  {
    if Fits(l, lim) || l == [] {
      PrefixSize(l, k);
    } else if k == |l| {
      assert l[..k] == l;
      TrimKeepsLongestFittingPrefix(l[..|l| - 1], lim, 0);
    } else {
      TrimKeepsLongestFittingPrefix(l[..|l| - 1], lim, k);
      assert l[..|l| - 1][..k] == l[..k];
    }
  }

  lemma {:induction false} WithoutMembers(l: seq<Slot>, key: string)
    ensures forall s :: s in Without(l, key) <==> s in l && s.key != key
    ensures |Without(l, key)| <= |l|
  {
    if l != [] { WithoutMembers(l[1..], key); }
  }

  lemma {:induction false} WithoutDistinct(l: seq<Slot>, key: string)
    requires DistinctKeys(l)
    ensures DistinctKeys(Without(l, key))
  {
    if l != [] {
      WithoutDistinct(l[1..], key);
      WithoutMembers(l[1..], key);
      forall t | t in l[1..] ensures t.key != l[0].key {}
    }
  }

  lemma {:induction false} WithoutSize(l: seq<Slot>, key: string)
    ensures TotalSize(Without(l, key)) <= TotalSize(l)
  {
    if l != [] {
      WithoutSize(l[1..], key);
      SizeOfCons(l[0], l[1..]);
      SizeOfCons(l[0], Without(l[1..], key));
      assert l == [l[0]] + l[1..];
    }
  }

  lemma {:induction false} SizeOfCons(s: Slot, l: seq<Slot>)
    ensures TotalSize([s] + l) == s.Size() + TotalSize(l)
  {
    if l == [] {
      assert [s] + l == [s] && [s][..0] == [];
    } else {
      SizeOfCons(s, l[..|l| - 1]);
      assert ([s] + l)[..|l|] == [s] + l[..|l| - 1];
    }
  }

  lemma {:induction false} FindFacts(l: seq<Slot>, key: string)
    ensures Find(l, key).None? <==> forall s :: s in l ==> s.key != key
    ensures Find(l, key).Some? ==> Find(l, key).value in l && Find(l, key).value.key == key
    ensures DistinctKeys(l) ==> forall s :: s in l && s.key == key ==> Find(l, key) == Some(s)
  {
    if l != [] {
      FindFacts(l[1..], key);
    }
  }

  // Pulling a slot out and putting it in front leaves the total as it was.
  lemma {:induction false} MoveToFrontSize(l: seq<Slot>, key: string)
    requires DistinctKeys(l) && Find(l, key).Some?
    ensures TotalSize(l) == Find(l, key).value.Size() + TotalSize(Without(l, key))
    ensures |l| == 1 + |Without(l, key)|
  {
    var s, rest := l[0], l[1..];
    assert l == [s] + rest;
    SizeOfCons(s, rest);
    if s.key == key {
      KeyAbsent(rest, key);
    } else {
      MoveToFrontSize(rest, key);
      SizeOfCons(s, Without(rest, key));
    }
  }

  lemma {:induction false} KeyAbsent(l: seq<Slot>, key: string)
    requires forall s :: s in l ==> s.key != key
    ensures Without(l, key) == l
  {
    if l != [] {
      KeyAbsent(l[1..], key);
      assert l == [l[0]] + l[1..];
    }
  }

  lemma {:induction false} UnexpiredMembers(l: seq<Slot>, now: int)
    ensures forall s :: s in Unexpired(l, now) <==> s in l && !s.Expired(now)
    ensures |Unexpired(l, now)| <= |l|
  {
    if l != [] { UnexpiredMembers(l[1..], now); }
  }

  lemma {:induction false} UnexpiredDistinct(l: seq<Slot>, now: int)
    requires DistinctKeys(l)
    ensures DistinctKeys(Unexpired(l, now))
  {
    if l != [] {
      UnexpiredDistinct(l[1..], now);
      UnexpiredMembers(l[1..], now);
      forall t | t in l[1..] ensures t.key != l[0].key {}
    }
  }

  lemma {:induction false} UnexpiredSize(l: seq<Slot>, now: int)
    ensures TotalSize(Unexpired(l, now)) <= TotalSize(l)
  {
    if l != [] {
      UnexpiredSize(l[1..], now);
      SizeOfCons(l[0], l[1..]);
      SizeOfCons(l[0], Unexpired(l[1..], now));
      assert l == [l[0]] + l[1..];
    }
  }

  // ---------------------------------------------------------------- runs

  datatype Op =
    | Set(key: string, val: Bytes, ttl: int, now: int)
    | Get(key: string, now: int)
    | Sweep(now: int)

  function Step(l: seq<Slot>, lim: Limits, op: Op): seq<Slot> {
    match op
    case Set(key, val, ttl, now) => AfterSet(l, lim, key, val, now + ttl)
    case Get(key, now) => AfterGet(l, key, now).0
    case Sweep(now) => Unexpired(l, now)
  }

  function Run(ops: seq<Op>, lim: Limits): seq<Slot> {
    if ops == [] then [] else Step(Run(ops[..|ops| - 1], lim), lim, ops[|ops| - 1])
  }

  /** What a `Get` at the end of the run `ops` returns. */
  function Lookup(ops: seq<Op>, lim: Limits, key: string, now: int): Option<Bytes> {
    AfterGet(Run(ops, lim), key, now).1
  }

  predicate AcceptedSet(op: Op, lim: Limits, key: string) {
    op.Set? && op.key == key && |op.val| <= lim.maxEntryBytes
  }

  /** `i` is the latest call that set `key` to a value within the per-entry limit. */
  ghost predicate IsLatestSet(ops: seq<Op>, lim: Limits, key: string, i: nat) {
    && i < |ops| && AcceptedSet(ops[i], lim, key)
    && forall j :: i < j < |ops| ==> !AcceptedSet(ops[j], lim, key)
  }

  /** What holds of the cache after every operation of every run. */
  ghost predicate RunInvariant(l: seq<Slot>, ops: seq<Op>, lim: Limits) {
    && DistinctKeys(l) && Fits(l, lim)
    && forall s :: s in l ==> Accounted(s, ops, lim)
  }

  /** The slot holds what the latest accepted Set of its key put there. */
  ghost predicate Accounted(s: Slot, ops: seq<Op>, lim: Limits) {
    exists i: nat :: IsLatestSet(ops, lim, s.key, i) && s.val == ops[i].val && s.exp == ops[i].now + ops[i].ttl
  }

  lemma AfterSetFacts(l: seq<Slot>, lim: Limits, key: string, val: Bytes, exp: int)
    requires 0 <= lim.maxBytes && 0 <= lim.maxEntries && |val| <= lim.maxEntryBytes && DistinctKeys(l)
    ensures var r := AfterSet(l, lim, key, val, exp);
            && DistinctKeys(r) && Fits(r, lim)
            && forall s :: s in r ==> s == Slot(key, val, exp) || (s in l && s.key != key)
  {
    var whole := [Slot(key, val, exp)] + Without(l, key);
    WithoutDistinct(l, key);
    WithoutMembers(l, key);
    assert DistinctKeys(whole);
    TrimKeepsLongestFittingPrefix(whole, lim, 0);
  }

  lemma AfterGetFacts(l: seq<Slot>, lim: Limits, key: string, now: int)
    requires DistinctKeys(l) && Fits(l, lim)
    ensures var r := AfterGet(l, key, now).0;
            && DistinctKeys(r) && Fits(r, lim)
            && forall s :: s in r ==> s in l
  {
    FindFacts(l, key);
    WithoutDistinct(l, key);
    WithoutMembers(l, key);
    WithoutSize(l, key);
    match Find(l, key)
    case None =>
    case Some(s) =>
      MoveToFrontSize(l, key);
      SizeOfCons(s, Without(l, key));
  }

  lemma SweepFacts(l: seq<Slot>, lim: Limits, now: int)
    requires DistinctKeys(l) && Fits(l, lim)
    ensures DistinctKeys(Unexpired(l, now)) && Fits(Unexpired(l, now), lim)
    ensures forall s :: s in Unexpired(l, now) <==> s in l && !s.Expired(now)
  {
    UnexpiredMembers(l, now);
    UnexpiredDistinct(l, now);
    UnexpiredSize(l, now);
  }

  // A later operation that does not set `key` leaves its latest accepted Set where it was.
  lemma LatestSetStays(ops: seq<Op>, lim: Limits, key: string, i: nat, op: Op)
    requires IsLatestSet(ops, lim, key, i) && !AcceptedSet(op, lim, key)
    ensures IsLatestSet(ops + [op], lim, key, i)
  {}

  lemma StepKeepsInvariant(l: seq<Slot>, ops: seq<Op>, lim: Limits, op: Op)
    requires 0 <= lim.maxBytes && 0 <= lim.maxEntries && RunInvariant(l, ops, lim)
    ensures RunInvariant(Step(l, lim, op), ops + [op], lim)
  {
    StepFacts(l, lim, op);
    hide Step, Fits, DistinctKeys;
    var l' := Step(l, lim, op);
    var all := ops + [op];
    forall s | s in l' ensures Accounted(s, all, lim) {
      if AcceptedSet(op, lim, s.key) {
        assert IsLatestSet(all, lim, s.key, |ops|);
      } else {
        StaysAccounted(s, ops, lim, op);
      }
    }
  }

  lemma StaysAccounted(s: Slot, ops: seq<Op>, lim: Limits, op: Op)
    requires Accounted(s, ops, lim) && !AcceptedSet(op, lim, s.key)
    ensures Accounted(s, ops + [op], lim)
  {
    var i: nat :| IsLatestSet(ops, lim, s.key, i) && s.val == ops[i].val && s.exp == ops[i].now + ops[i].ttl;
    LatestSetStays(ops, lim, s.key, i, op);
  }

  // What a step leaves was there before, unless an accepted Set has just put it there.
  lemma StepFacts(l: seq<Slot>, lim: Limits, op: Op)
    requires 0 <= lim.maxBytes && 0 <= lim.maxEntries && DistinctKeys(l) && Fits(l, lim)
    ensures DistinctKeys(Step(l, lim, op)) && Fits(Step(l, lim, op), lim)
    ensures forall s :: s in Step(l, lim, op) ==>
              if AcceptedSet(op, lim, s.key) then s == Slot(op.key, op.val, op.now + op.ttl) else s in l
  {
    hide DistinctKeys, Fits, Unexpired, Trim;
    match op {
      case Set(key, val, ttl, now) =>
        if |val| <= lim.maxEntryBytes { AfterSetFacts(l, lim, key, val, now + ttl); }
      case Get(key, now) => AfterGetFacts(l, lim, key, now);
      case Sweep(now) =>
        SweepFacts(l, lim, now);
    }
  }

  /** Every run keeps keys unique, both bounds, and only values of the latest accepted Set. */
  lemma {:induction false} EveryRun(ops: seq<Op>, lim: Limits)
    requires 0 <= lim.maxBytes && 0 <= lim.maxEntries
    ensures RunInvariant(Run(ops, lim), ops, lim)
  {
    if ops != [] {
      var before := ops[..|ops| - 1];
      EveryRun(before, lim);
      StepKeepsInvariant(Run(before, lim), before, lim, ops[|ops| - 1]);
      assert before + [ops[|ops| - 1]] == ops;
    }
  }

  /** A value that a lookup returns is the one of the latest accepted Set, and has not expired. */
  lemma LookupIsLatestSet(ops: seq<Op>, lim: Limits, key: string, now: int) returns (i: nat)
    requires 0 <= lim.maxBytes && 0 <= lim.maxEntries && Lookup(ops, lim, key, now).Some?
    ensures IsLatestSet(ops, lim, key, i)
    ensures Lookup(ops, lim, key, now) == Some(ops[i].val) && now <= ops[i].now + ops[i].ttl
  {
    EveryRun(ops, lim);
    FindFacts(Run(ops, lim), key);
    var s := Find(Run(ops, lim), key).value;
    i :| IsLatestSet(ops, lim, s.key, i) && s.val == ops[i].val && s.exp == ops[i].now + ops[i].ttl;
  }

  /**
   A value within the entry limit is there right after it was set, and until it expires,
   exactly when its own size fits the byte budget and the cache may hold an entry at all.
   */
  lemma FreshSetIsRetained(ops: seq<Op>, lim: Limits, key: string, val: Bytes, ttl: int, at: int, now: int)
    requires 0 <= lim.maxBytes && 0 <= lim.maxEntries && |val| <= lim.maxEntryBytes
    ensures Lookup(ops + [Set(key, val, ttl, at)], lim, key, now) == Some(val)
       <==> |key| + |val| <= lim.maxBytes && 1 <= lim.maxEntries && now <= at + ttl
  {
    var all := ops + [Set(key, val, ttl, at)];
    assert all[..|all| - 1] == ops;
    var s := Slot(key, val, at + ttl);
    var whole := [s] + Without(Run(ops, lim), key);
    assert Run(all, lim) == Trim(whole, lim);
    TrimKeepsLongestFittingPrefix(whole, lim, 1);
    assert whole[..1] == [s] && [s][..0] == [];
    if Fits([s], lim) {
      assert Trim(whole, lim)[0] == s;
    } else {
      assert Trim(whole, lim) == [];
    }
  }

  // ---------------------------------------------------------------- least recently used

  /**
   The slots used since the key last was, most recent first, with the key's own slot last: what
   `used` becomes by one more operation on a cache that holds `l`.
   */
  function UsedAfter(used: seq<Slot>, l: seq<Slot>, lim: Limits, key: string, op: Op): seq<Slot> {
    match op
    case Set(k, val, ttl, now) =>
      if |val| > lim.maxEntryBytes then used
      else [Slot(k, val, now + ttl)] + if k == key then [] else Without(used, k)
    case Get(k, now) =>
      (match Find(l, k)
       case None => used
       case Some(s) =>
         if s.Expired(now) then Without(used, k)
         else [s] + if k == key then [] else Without(used, k))
    case Sweep(now) => Unexpired(used, now)
  }

  /** The slots used since, after the operations `more` on a cache whose run began with `base`. */
  function Used(base: seq<Op>, slot: Slot, lim: Limits, more: seq<Op>): seq<Slot> {
    if more == [] then [slot]
    else
      var before := more[..|more| - 1];
      UsedAfter(Used(base, slot, lim, before), Run(base + before, lim), lim, slot.key, more[|more| - 1])
  }

  predicate EndsWith(used: seq<Slot>, key: string) { used != [] && used[|used| - 1].key == key }

  /** A lookup or a sweep does not find the key's slot expired. */
  predicate Spares(used: seq<Slot>, op: Op) {
    op.Set? || used == [] || !used[|used| - 1].Expired(op.now)
  }

  /** None of the operations `more` does. */
  predicate AllSpare(base: seq<Op>, slot: Slot, lim: Limits, more: seq<Op>) {
    more == [] ||
    var before := more[..|more| - 1];
    AllSpare(base, slot, lim, before) && Spares(Used(base, slot, lim, before), more[|more| - 1])
  }

  /** At the start and after each of `more`, the slots used since fit both bounds together. */
  predicate AllFit(base: seq<Op>, slot: Slot, lim: Limits, more: seq<Op>) {
    && Fits(Used(base, slot, lim, more), lim)
    && (more == [] || AllFit(base, slot, lim, more[..|more| - 1]))
  }

  /** At the start and after each of `more`, the key is in the cache. */
  predicate AlwaysThere(base: seq<Op>, slot: Slot, lim: Limits, more: seq<Op>) {
    && Find(Run(base + more, lim), slot.key).Some?
    && (more == [] || AlwaysThere(base, slot, lim, more[..|more| - 1]))
  }

  lemma {:induction false} WithoutSum(a: seq<Slot>, b: seq<Slot>, key: string)
    ensures Without(a + b, key) == Without(a, key) + Without(b, key)
  {
    if a == [] {
      assert a + b == b;
    } else {
      WithoutSum(a[1..], b, key);
      assert (a + b)[1..] == a[1..] + b;
    }
  }

  lemma {:induction false} UnexpiredSum(a: seq<Slot>, b: seq<Slot>, now: int)
    ensures Unexpired(a + b, now) == Unexpired(a, now) + Unexpired(b, now)
  {
    if a == [] {
      assert a + b == b;
    } else {
      UnexpiredSum(a[1..], b, now);
      assert (a + b)[1..] == a[1..] + b && (a + b)[0] == a[0];
      assert [a[0]] + (Unexpired(a[1..], now) + Unexpired(b, now))
          == [a[0]] + Unexpired(a[1..], now) + Unexpired(b, now);
    }
  }

  // Taking out another key leaves the end of the list where it is.
  lemma WithoutKeepsEnd(used: seq<Slot>, key: string, k: string)
    requires EndsWith(used, key) && k != key
    ensures EndsWith(Without(used, k), key)
  {
    var before, last := used[..|used| - 1], used[|used| - 1];
    assert used == before + [last];
    WithoutSum(before, [last], k);
    assert Without([last], k) == [last] by { KeyAbsent([last], k); }
  }

  lemma UnexpiredKeepsEnd(used: seq<Slot>, key: string, now: int)
    requires EndsWith(used, key) && !used[|used| - 1].Expired(now)
    ensures EndsWith(Unexpired(used, now), key)
  {
    var before, last := used[..|used| - 1], used[|used| - 1];
    assert used == before + [last];
    UnexpiredSum(before, [last], now);
    assert Unexpired([last], now) == [last] by { NoneExpired([last], now); }
  }

  // A slot in front of a prefix is a prefix of the slot in front of the list.
  lemma PrefixInFront(s: Slot, a: seq<Slot>, l: seq<Slot>, k: string)
    requires a <= l
    ensures [s] + Without(a, k) <= [s] + Without(l, k) && Without(a, k) <= Without(l, k)
  {
    assert l == a + l[|a|..];
    WithoutSum(a, l[|a|..], k);
  }

  // What eviction leaves has the key exactly when the prefix that ends with it fits.
  lemma TrimKeepsKeyIfFits(whole: seq<Slot>, used: seq<Slot>, lim: Limits, key: string)
    requires 0 <= lim.maxBytes && 0 <= lim.maxEntries && DistinctKeys(whole) && used <= whole && EndsWith(used, key)
    ensures if Fits(used, lim) then used <= Trim(whole, lim) else Find(Trim(whole, lim), key) == None
  {
    TrimKeepsLongestFittingPrefix(whole, lim, |used|);
    hide Trim, Fits;
    var kept := Trim(whole, lim);
    assert whole[..|used|] == used;
    if |used| > |kept| {
      forall s | s in kept ensures s.key != key {
        var i :| 0 <= i < |kept| && kept[i] == s;
        assert whole[i] == s && whole[|used| - 1].key == key;
      }
      FindFacts(kept, key);
    }
  }

  lemma PrefixFits(a: seq<Slot>, l: seq<Slot>, lim: Limits)
    requires a <= l && Fits(l, lim)
    ensures Fits(a, lim)
  {
    PrefixSize(l, |a|);
    assert l[..|a|] == a;
  }

  lemma SetRetains(l: seq<Slot>, used: seq<Slot>, lim: Limits, key: string, op: Op)
    requires 0 <= lim.maxBytes && 0 <= lim.maxEntries && DistinctKeys(l) && Fits(l, lim)
    requires used <= l && EndsWith(used, key) && op.Set? && |op.val| <= lim.maxEntryBytes
    ensures var (used', l') := (UsedAfter(used, l, lim, key, op), Step(l, lim, op));
            if Fits(used', lim) then used' <= l' && EndsWith(used', key) else Find(l', key) == None
  {
    hide Without, Trim, Fits;
    var s := Slot(op.key, op.val, op.now + op.ttl);
    var whole := [s] + Without(l, op.key);
    PrefixInFront(s, used, l, op.key);
    WithoutDistinct(l, op.key);
    WithoutMembers(l, op.key);
    assert DistinctKeys(whole);
    if op.key != key { WithoutKeepsEnd(used, key, op.key); }
    TrimKeepsKeyIfFits(whole, UsedAfter(used, l, lim, key, op), lim, key);
  }

  lemma GetRetains(l: seq<Slot>, used: seq<Slot>, lim: Limits, key: string, op: Op)
    requires DistinctKeys(l) && used <= l && EndsWith(used, key) && op.Get? && Spares(used, op)
    ensures var (used', l') := (UsedAfter(used, l, lim, key, op), Step(l, lim, op));
            used' <= l' && EndsWith(used', key)
  {
    hide Without;
    FindFacts(l, op.key);
    assert used[|used| - 1] in l;
    if Find(l, op.key).Some? {
      PrefixInFront(Find(l, op.key).value, used, l, op.key);
      if op.key != key { WithoutKeepsEnd(used, key, op.key); }
    }
  }

  lemma SweepRetains(l: seq<Slot>, used: seq<Slot>, key: string, now: int)
    requires used <= l && EndsWith(used, key) && !used[|used| - 1].Expired(now)
    ensures Unexpired(used, now) <= Unexpired(l, now) && EndsWith(Unexpired(used, now), key)
  {
    UnexpiredKeepsEnd(used, key, now);
    assert l == used + l[|used|..];
    UnexpiredSum(used, l[|used|..], now);
  }

  // One operation keeps the key exactly when what was used since then fits.
  lemma StepRetains(l: seq<Slot>, used: seq<Slot>, lim: Limits, key: string, op: Op)
    requires 0 <= lim.maxBytes && 0 <= lim.maxEntries && DistinctKeys(l) && Fits(l, lim)
    requires used <= l && EndsWith(used, key) && Spares(used, op)
    ensures var (used', l') := (UsedAfter(used, l, lim, key, op), Step(l, lim, op));
            if Fits(used', lim) then used' <= l' && EndsWith(used', key) else Find(l', key) == None
  {
    var used', l' := UsedAfter(used, l, lim, key, op), Step(l, lim, op);
    if op.Set? && |op.val| <= lim.maxEntryBytes {
      SetRetains(l, used, lim, key, op);
    } else {
      StepFacts(l, lim, op);
      match op {
        case Set(_, _, _, _) =>
        case Get(_, _) => GetRetains(l, used, lim, key, op);
        case Sweep(now) => SweepRetains(l, used, key, now);
      }
      PrefixFits(used', l', lim);
    }
  }

  lemma FirstRetains(ops: seq<Op>, lim: Limits, slot: Slot, at: int)
    requires 0 <= lim.maxBytes && 0 <= lim.maxEntries && |slot.val| <= lim.maxEntryBytes
    ensures var l := Run(ops + [Set(slot.key, slot.val, slot.exp - at, at)], lim);
            if Fits([slot], lim) then [slot] <= l else Find(l, slot.key) == None
  {
    EveryRun(ops, lim);
    RunOne(ops, lim, Set(slot.key, slot.val, slot.exp - at, at));
    var l := Run(ops, lim);
    hide Run, Without, Trim, Fits;
    NewestInFront(l, slot);
    TrimKeepsKeyIfFits([slot] + Without(l, slot.key), [slot], lim, slot.key);
  }

  lemma NewestInFront(l: seq<Slot>, slot: Slot)
    requires DistinctKeys(l)
    ensures DistinctKeys([slot] + Without(l, slot.key)) && [slot] <= [slot] + Without(l, slot.key)
  {
    WithoutDistinct(l, slot.key);
    WithoutMembers(l, slot.key);
  }

  lemma RunOne(ops: seq<Op>, lim: Limits, op: Op)
    ensures Run(ops + [op], lim) == Step(Run(ops, lim), lim, op)
  {
    assert (ops + [op])[..|ops|] == ops;
  }

  lemma PresentInFront(used: seq<Slot>, l: seq<Slot>, key: string)
    requires used <= l && EndsWith(used, key)
    ensures Find(l, key).Some?
  {
    FindFacts(l, key);
    assert l[|used| - 1] in l;
  }

  lemma {:induction false} UsedStaysInFront(base: seq<Op>, slot: Slot, lim: Limits, more: seq<Op>)
    requires 0 <= lim.maxBytes && 0 <= lim.maxEntries && AllSpare(base, slot, lim, more)
    requires if Fits([slot], lim) then [slot] <= Run(base, lim) else Find(Run(base, lim), slot.key) == None
    ensures AllFit(base, slot, lim, more) ==>
              Used(base, slot, lim, more) <= Run(base + more, lim) && EndsWith(Used(base, slot, lim, more), slot.key)
    ensures AllFit(base, slot, lim, more) <==> AlwaysThere(base, slot, lim, more)
  {
    if more == [] {
      assert base + more == base;
      hide Run, Fits;
      if Fits([slot], lim) { PresentInFront([slot], Run(base, lim), slot.key); }
    } else {
      hide Run, Fits, UsedAfter, Step, Find, EndsWith, Spares;
      var before, op := more[..|more| - 1], more[|more| - 1];
      UsedStaysInFront(base, slot, lim, before);
      if AllFit(base, slot, lim, before) { OneMoreRetains(base, slot, lim, before, op); }
      assert more == before + [op];
    }
  }

  lemma OneMoreRetains(base: seq<Op>, slot: Slot, lim: Limits, before: seq<Op>, op: Op)
    requires 0 <= lim.maxBytes && 0 <= lim.maxEntries && Spares(Used(base, slot, lim, before), op)
    requires Used(base, slot, lim, before) <= Run(base + before, lim)
        && EndsWith(Used(base, slot, lim, before), slot.key)
    ensures var (used, l) := (Used(base, slot, lim, before + [op]), Run(base + (before + [op]), lim));
            && (Fits(used, lim) ==> used <= l && EndsWith(used, slot.key))
            && (Fits(used, lim) <==> Find(l, slot.key).Some?)
  {
    var used, l := Used(base, slot, lim, before), Run(base + before, lim);
    EveryRun(base + before, lim);
    RunOne(base + before, lim, op);
    assert base + before + [op] == base + (before + [op]);
    assert (before + [op])[..|before|] == before;
    assert Used(base, slot, lim, before + [op]) == UsedAfter(used, l, lim, slot.key, op);
    hide Run, Used, UsedAfter, Step, Fits, EndsWith, Spares, DistinctKeys;
    StepRetains(l, used, lim, slot.key, op);
    var used', l' := UsedAfter(used, l, lim, slot.key, op), Step(l, lim, op);
    if Fits(used', lim) { PresentInFront(used', l', slot.key); }
  }

  /**
   Least recently used, over whole runs: after a size-accepted Set, and as long as no lookup or
   sweep finds it expired, a key is there throughout the operations `more` if and only if at each
   of them its slot and all slots used since it last was fit both bounds together.
   */
  lemma KeyStaysWhileRecentSlotsFit(ops: seq<Op>, lim: Limits, slot: Slot, at: int, more: seq<Op>)
    requires 0 <= lim.maxBytes && 0 <= lim.maxEntries && |slot.val| <= lim.maxEntryBytes
    requires AllSpare(ops + [Set(slot.key, slot.val, slot.exp - at, at)], slot, lim, more)
    ensures var base := ops + [Set(slot.key, slot.val, slot.exp - at, at)];
            AlwaysThere(base, slot, lim, more) <==> AllFit(base, slot, lim, more)
  {
    FirstRetains(ops, lim, slot, at);
    UsedStaysInFront(ops + [Set(slot.key, slot.val, slot.exp - at, at)], slot, lim, more);
  }

  // ---------------------------------------------------------------- the class

  class MemEntry {
    const key: string
    var val: Bytes
    var exp: int
    var size: int

    constructor (key: string, val: Bytes, exp: int, size: int)
      ensures this.key == key && this.val == val && this.exp == exp && this.size == size
    {
      this.key, this.val, this.exp, this.size := key, val, exp, size;
    }

    function AsSlot(): Slot
      reads this
    {
      Slot(key, val, exp)
    }
  }

  /** `list.Remove`: the list without the given element. */
  function RemoveElement(l: seq<MemEntry>, e: MemEntry): (r: seq<MemEntry>)
    ensures |r| <= |l| && e !in r
    ensures forall i :: 0 <= i < |r| ==> r[i] in l
    ensures forall i :: 0 <= i < |l| && l[i] != e ==> l[i] in r
    ensures e in l ==> |r| < |l|
  {
    if l == [] then []
    else if l[0] == e then RemoveElement(l[1..], e)
    else [l[0]] + RemoveElement(l[1..], e)
  }

  /** The sequence without the element at index `i`. */
  function Cut<T>(s: seq<T>, i: nat): (r: seq<T>)
    requires i < |s|
    ensures |r| == |s| - 1
    ensures forall j :: 0 <= j < i ==> r[j] == s[j]
    ensures forall j :: i <= j < |r| ==> r[j] == s[j + 1]
  {
    s[..i] + s[i + 1..]
  }

  lemma CutTail<T>(s: seq<T>, i: nat)
    requires 0 < i < |s|
    ensures Cut(s, i) == [s[0]] + Cut(s[1..], i - 1)
  {}

  // With distinct entries, removing one is cutting it out at its index.
  lemma {:induction false} RemoveElementAt(l: seq<MemEntry>, i: nat)
    requires i < |l| && forall j :: 0 <= j < |l| && j != i ==> l[j] != l[i]
    ensures RemoveElement(l, l[i]) == Cut(l, i)
  {
    if i == 0 {
      ElementAbsent(l[1..], l[0]);
    } else {
      RemoveElementAt(l[1..], i - 1);
      CutTail(l, i);
    }
  }

  lemma {:induction false} ElementAbsent(l: seq<MemEntry>, e: MemEntry)
    requires e !in l
    ensures RemoveElement(l, e) == l
  {
    if l != [] {
      ElementAbsent(l[1..], e);
      assert l == [l[0]] + l[1..];
    }
  }

  lemma {:induction false} WithoutAt(l: seq<Slot>, i: nat)
    requires i < |l| && DistinctKeys(l)
    ensures Without(l, l[i].key) == Cut(l, i)
  {
    if i == 0 {
      KeyAbsent(l[1..], l[0].key);
    } else {
      WithoutAt(l[1..], i - 1);
      CutTail(l, i);
    }
  }

  lemma {:induction false} DropExpired(l: seq<Slot>, key: string, now: int)
    requires forall s :: s in l && s.key == key ==> s.Expired(now)
    ensures Unexpired(Without(l, key), now) == Unexpired(l, now)
  {
    if l != [] { DropExpired(l[1..], key, now); }
  }

  lemma {:induction false} NoneExpired(l: seq<Slot>, now: int)
    requires forall s :: s in l ==> !s.Expired(now)
    ensures Unexpired(l, now) == l
  {
    if l != [] {
      NoneExpired(l[1..], now);
      assert l == [l[0]] + l[1..];
    }
  }

  /** The index holds exactly the entries of the list, each under its own key. */
  ghost predicate Indexed(l: seq<MemEntry>, items: map<string, MemEntry>) {
    && (forall i, j :: 0 <= i < j < |l| ==> l[i].key != l[j].key)
    && (forall i :: 0 <= i < |l| ==> l[i].key in items && items[l[i].key] == l[i])
    && (forall k :: k in items ==> items[k] in l && items[k].key == k)
  }

  /** The entries hold these slots, and each knows its own size. */
  ghost predicate Holds(l: seq<MemEntry>, c: seq<Slot>)
    reads l
  {
    |c| == |l| && forall i :: 0 <= i < |l| ==> l[i].AsSlot() == c[i] && l[i].size == c[i].Size()
  }

  lemma SlotsHaveDistinctKeys(l: seq<MemEntry>, items: map<string, MemEntry>, c: seq<Slot>)
    requires Indexed(l, items) && Holds(l, c)
    ensures DistinctKeys(c)
  {
    forall i, j | 0 <= i < j < |c| ensures c[i].key != c[j].key {
      assert l[i].AsSlot() == c[i] && l[j].AsSlot() == c[j];
    }
  }

  lemma IndexedCut(l: seq<MemEntry>, items: map<string, MemEntry>, i: nat)
    requires i < |l| && Indexed(l, items)
    ensures RemoveElement(l, l[i]) == Cut(l, i)
    ensures Indexed(Cut(l, i), items - {l[i].key})
  {
    RemoveElementAt(l, i);
    var r := Cut(l, i);
    forall k | k in items - {l[i].key} ensures items[k] in r {
      var j :| 0 <= j < |l| && l[j] == items[k];
      assert if j < i then r[j] == l[j] else r[j - 1] == l[j];
    }
  }

  // What taking one entry out does to the list, the index, the slots and the byte count.
  lemma TakeOut(l: seq<MemEntry>, items: map<string, MemEntry>, c: seq<Slot>, e: MemEntry)
    requires Indexed(l, items) && Holds(l, c) && e in l
    ensures DistinctKeys(c) && Find(c, e.key) == Some(e.AsSlot())
    ensures Indexed(RemoveElement(l, e), items - {e.key}) && Holds(RemoveElement(l, e), Without(c, e.key))
    ensures TotalSize(c) == e.size + TotalSize(Without(c, e.key)) && |c| == 1 + |Without(c, e.key)|
    ensures e.key in items && items[e.key] == e && e.size == e.AsSlot().Size()
  {
    hide Without, TotalSize, Find, RemoveElement;
    var i :| 0 <= i < |l| && l[i] == e;
    SlotsHaveDistinctKeys(l, items, c);
    IndexedCut(l, items, i);
    WithoutAt(c, i);
    assert c[i] in c;
    FindFacts(c, e.key);
    MoveToFrontSize(c, e.key);
  }

  lemma PutInFront(l: seq<MemEntry>, items: map<string, MemEntry>, c: seq<Slot>, e: MemEntry)
    requires Indexed(l, items) && Holds(l, c) && e.key !in items && e.size == e.AsSlot().Size()
    ensures Indexed([e] + l, items[e.key := e]) && Holds([e] + l, [e.AsSlot()] + c)
    ensures TotalSize([e.AsSlot()] + c) == e.size + TotalSize(c)
  {
    SizeOfCons(e.AsSlot(), c);
  }

  // An entry that stays in the index goes back in front of the list.
  lemma PutBack(l: seq<MemEntry>, items: map<string, MemEntry>, c: seq<Slot>, e: MemEntry)
    requires e.key in items && items[e.key] == e && Indexed(l, items - {e.key}) && Holds(l, c)
    requires e.size == e.AsSlot().Size()
    ensures Indexed([e] + l, items) && Holds([e] + l, [e.AsSlot()] + c)
    ensures TotalSize([e.AsSlot()] + c) == e.size + TotalSize(c)
  {
    PutInFront(l, items - {e.key}, c, e);
    assert (items - {e.key})[e.key := e] == items;
  }

  lemma EntryOf(l: seq<MemEntry>, items: map<string, MemEntry>, key: string)
    requires Indexed(l, items) && key in items
    ensures items[key] in l && items[key].key == key
  {}

  lemma KeysIndexed(l: seq<MemEntry>, items: map<string, MemEntry>, c: seq<Slot>)
    requires Indexed(l, items) && Holds(l, c)
    ensures forall s :: s in c ==> s.key in items
  {
    forall i | 0 <= i < |c| ensures c[i].key in items {
      assert l[i].AsSlot() == c[i];
    }
  }

  lemma Aligned(l: seq<MemEntry>, c: seq<Slot>)
    requires Holds(l, c)
    ensures |c| == |l|
  {}

  lemma NotIndexed(l: seq<MemEntry>, items: map<string, MemEntry>, c: seq<Slot>, key: string)
    requires Indexed(l, items) && Holds(l, c) && key !in items
    ensures Find(c, key) == None && Without(c, key) == c
  {
    forall s | s in c ensures s.key != key {
      var i :| 0 <= i < |c| && c[i] == s;
      assert s == l[i].AsSlot();
    }
    FindFacts(c, key);
    KeyAbsent(c, key);
  }

  // Taking out the back element drops the last slot.
  lemma LastTakenOut(l: seq<MemEntry>, items: map<string, MemEntry>, c: seq<Slot>)
    requires Indexed(l, items) && Holds(l, c) && l != []
    ensures Without(c, l[|l| - 1].key) == c[..|c| - 1]
  {
    SlotsHaveDistinctKeys(l, items, c);
    assert l[|l| - 1].AsSlot() == c[|c| - 1];
    WithoutAt(c, |c| - 1);
  }

  class MemStore {
    var ll: seq<MemEntry>  // front = most recently used
    var items: map<string, MemEntry>
    var curBytes: int
    const limits: Limits
    ghost var Contents: seq<Slot>  // what the entries of the list hold

    /** List, index, contents and byte counter agree. */
    ghost predicate InStep()
      reads this, ll
    {
      Indexed(ll, items) && Holds(ll, Contents) && curBytes == TotalSize(Contents)
    }

    ghost predicate Valid()
      reads this, ll
    {
      && InStep() && Fits(Contents, limits)
      && limits.maxBytes > 0 && limits.maxEntryBytes > 0 && limits.maxEntries > 0
    }

    constructor (lim: Limits)
      ensures Valid() && limits == WithDefaults(lim) && Contents == []
    {
      ll, items, curBytes, limits, Contents := [], map[], 0, WithDefaults(lim), [];
    }

    method RemoveLocked(el: MemEntry)
      requires InStep() && el in ll
      modifies this
      ensures InStep() && ll == RemoveElement(old(ll), el) && items == old(items) - {el.key}
      ensures Contents == Without(old(Contents), el.key)
    {
      hide Indexed, Holds;
      TakeOut(ll, items, Contents, el);
      ll := RemoveElement(ll, el);
      items := items - {el.key};
      curBytes := curBytes - el.size;
      Contents := Without(Contents, el.key);
    }

    method MoveToFront(e: MemEntry)
      requires InStep() && e in ll
      modifies this
      ensures InStep() && forall x :: x in ll ==> x in old(ll)
      ensures Contents == [e.AsSlot()] + Without(old(Contents), e.key)
    {
      hide Indexed, Holds, Without, RemoveElement, TotalSize;
      TakeOut(ll, items, Contents, e);
      PutBack(RemoveElement(ll, e), items, Without(Contents, e.key), e);
      ll := [e] + RemoveElement(ll, e);
      Contents := [e.AsSlot()] + Without(Contents, e.key);
    }

    method Get(key: string, now: int) returns (r: Option<Bytes>)
      requires Valid()
      modifies this
      ensures Valid() && forall e :: e in ll ==> e in old(ll)
      ensures (Contents, r) == AfterGet(old(Contents), key, now)
    {
      if key !in items {
        NotIndexed(ll, items, Contents, key);
        return None;
      }
      var e := items[key];
      TakeOut(ll, items, Contents, e);
      AfterGetFacts(Contents, limits, key, now);
      if now > e.exp {
        RemoveLocked(e);
        return None;
      }
      MoveToFront(e);
      return Some(e.val);
    }

    // The two branches of Set on whether the key is known, before eviction.
    method Overwrite(e: MemEntry, val: Bytes, exp: int, size: nat)
      requires InStep() && e in ll && size == |e.key| + |val|
      modifies this, e
      ensures InStep() && forall x :: x in ll ==> x in old(ll)
      ensures Contents == [Slot(e.key, val, exp)] + Without(old(Contents), e.key)
    {
      hide Indexed, Holds, Without, TotalSize;
      TakeOut(ll, items, Contents, e);
      ghost var slots := Without(Contents, e.key);
      curBytes := curBytes + size - e.size;
      e.val, e.exp, e.size := val, exp, size;
      PutBack(RemoveElement(ll, e), items, slots, e);
      ll := [e] + RemoveElement(ll, e);
      Contents := [e.AsSlot()] + slots;
    }

    method PushFront(key: string, val: Bytes, exp: int, size: nat)
      requires InStep() && key !in items && size == |key| + |val|
      modifies this
      ensures InStep() && forall x :: x in ll ==> x in old(ll) || fresh(x)
      ensures Contents == [Slot(key, val, exp)] + Without(old(Contents), key)
    {
      hide Indexed, Holds;
      NotIndexed(ll, items, Contents, key);
      var el := new MemEntry(key, val, exp, size);
      PutInFront(ll, items, Contents, el);
      ll := [el] + ll;
      items := items[key := el];
      curBytes := curBytes + size;
      Contents := [el.AsSlot()] + Contents;
    }

    method Evict()
      requires InStep()
      modifies this
      ensures InStep() && Contents == Trim(old(Contents), limits)
      ensures forall x :: x in ll ==> x in old(ll)
    {
      hide Indexed, Holds, Without, TotalSize;
      while (curBytes > limits.maxBytes || |ll| > limits.maxEntries) && |ll| > 0
        invariant InStep() && Trim(Contents, limits) == Trim(old(Contents), limits)
        invariant forall x :: x in ll ==> x in old(ll)
        decreases |ll|
      {
        LastTakenOut(ll, items, Contents);
        Aligned(ll, Contents);
        RemoveLocked(ll[|ll| - 1]);
      }
      Aligned(ll, Contents);
    }

    method Set(key: string, val: Bytes, ttl: int, now: int)
      requires Valid()
      modifies this, ll
      ensures Valid() && forall e :: e in ll ==> e in old(ll) || fresh(e)
      ensures Contents == AfterSet(old(Contents), limits, key, val, now + ttl)
    {
      hide Indexed, Holds, Trim, Without;
      if |val| > limits.maxEntryBytes {
        return;
      }
      SlotsHaveDistinctKeys(ll, items, Contents);
      AfterSetFacts(Contents, limits, key, val, now + ttl);
      if key in items {
        EntryOf(ll, items, key);
        Overwrite(items[key], val, now + ttl, |key| + |val|);
      } else {
        PushFront(key, val, now + ttl, |key| + |val|);
      }
      Evict();
    }

    method SweepExpired(now: int)
      requires Valid()
      modifies this
      ensures Valid() && forall e :: e in ll ==> e in old(ll)
      ensures Contents == Unexpired(old(Contents), now)
    {
      hide Indexed, Holds, Without, TotalSize, Unexpired, RemoveElement;
      SlotsHaveDistinctKeys(ll, items, Contents);
      SweepFacts(Contents, limits, now);
      KeysIndexed(ll, items, Contents);
      var todo := items.Keys;
      while todo != {}
        invariant InStep() && todo <= items.Keys
        invariant forall e :: e in ll ==> e in old(ll)
        invariant forall s :: s in Contents && s.Expired(now) ==> s.key in todo
        invariant Unexpired(Contents, now) == Unexpired(old(Contents), now)
        decreases todo
      {
        var k :| k in todo;
        todo := todo - {k};
        var el := items[k];
        EntryOf(ll, items, k);
        TakeOut(ll, items, Contents, el);
        FindFacts(Contents, k);
        if now > el.exp {
          DropExpired(Contents, k, now);
          WithoutMembers(Contents, k);
          RemoveLocked(el);
        }
      }
      NoneExpired(Contents, now);
    }
  }
}

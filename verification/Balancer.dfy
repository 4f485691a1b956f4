/** The round-robin counters of `balance` in internal/edge/server.go. */
module Balancer {

  const WRAP := 0x1_0000_0000_0000_0000
  const INT_MAX := 0x7FFF_FFFF_FFFF_FFFF

  /** `int(n)` of a uint64. */
  function ToInt(n: int): int { if n <= INT_MAX then n else n - WRAP }

  /** Go's `%`: the remainder has the sign of the dividend. */
  function GoRem(x: int, m: int): int
    requires m > 0
  {
    if x >= 0 then x % m else -((-x) % m)
  }

  datatype Choice = NoUpstream | Chosen(index: nat) | Panics

  /** The upstream that the counter value `n` selects among `m`. */
  function Choose(n: int, m: nat): Choice {
    if m == 0 then NoUpstream
    else var i := GoRem(ToInt(n), m); if i < 0 then Panics else Chosen(i)
  }

  type Counters = map<string, int>

  function Counter(rr: Counters, key: string): int {
    if key in rr then rr[key] else 0
  }

  /** `atomic.AddUint64` on the key's counter. */
  function Advance(rr: Counters, key: string): Counters {
    rr[key := (Counter(rr, key) + 1) % WRAP]
  }

  class RoundRobin {
    var rrState: Counters

    constructor ()
      ensures rrState == map[]
    {
      rrState := map[];
    }

    /** `balance`: an empty list leaves the counter alone; otherwise it advances, then selects. */
    method Balance(key: string, upstreams: nat) returns (c: Choice)
      modifies this
      ensures rrState == if upstreams == 0 then old(rrState) else Advance(old(rrState), key)
      ensures c == Choose(Counter(rrState, key), upstreams)
    {
      if upstreams == 0 {
        return NoUpstream;
      }
      var n := if key in rrState then rrState[key] else 0;
      n := (n + 1) % WRAP;
      rrState := rrState[key := n];
      c := Choose(n, upstreams);
    }
  }

  /** Past 2^63 - 1 the index is out of range, and the call panics, unless it happens to be 0. */
  lemma WhenTheIndexIsValid(n: int, m: nat)
    requires 0 <= n < WRAP && m > 0
    ensures Choose(n, m).Chosen? <==> n <= INT_MAX || (WRAP - n) % m == 0
    ensures Choose(n, m).Chosen? ==> Choose(n, m).index < m
  {}

  // ---------------------------------------------------------------- fairness

  /** The counters after `calls`, each naming its key. */
  function CountersAfter(calls: seq<string>): Counters {
    if calls == [] then map[] else Advance(CountersAfter(calls[..|calls| - 1]), calls[|calls| - 1])
  }

  /** What the calls on one key pick among `m` upstreams, oldest first. */
  function Picks(calls: seq<string>, key: string, m: nat): seq<Choice> {
    if calls == [] then []
    else
      var before := Picks(calls[..|calls| - 1], key, m);
      if calls[|calls| - 1] == key then before + [Choose(Counter(CountersAfter(calls), key), m)] else before
  }

  lemma AdvanceCounts(rr: Counters, called: string, key: string, n: nat)
    requires Counter(rr, key) == n % WRAP
    ensures Counter(Advance(rr, called), key) == (if called == key then n + 1 else n) % WRAP
  {}

  // Calls on other keys do not move the counter.
  lemma {:induction false} CounterCountsPicks(calls: seq<string>, key: string, m: nat)
    ensures Counter(CountersAfter(calls), key) == |Picks(calls, key, m)| % WRAP
  {
    if calls != [] {
      var before := calls[..|calls| - 1];
      CounterCountsPicks(before, key, m);
      AdvanceCounts(CountersAfter(before), calls[|calls| - 1], key, |Picks(before, key, m)|);
    }
  }

  /** How many of the choices are upstream `u`. */
  function Times(picks: seq<Choice>, u: nat): nat {
    if picks == [] then 0
    else Times(picks[..|picks| - 1], u) + if picks[|picks| - 1] == Chosen(u) then 1 else 0
  }

  lemma {:induction false} PicksInTurn(calls: seq<string>, key: string, m: nat, i: nat)
    requires m > 0 && i < |Picks(calls, key, m)| && i < INT_MAX
    ensures Picks(calls, key, m)[i] == Chosen((i + 1) % m)
  {
    var before := Picks(calls[..|calls| - 1], key, m);
    CounterCountsPicks(calls, key, m);
    if i < |before| {
      PicksInTurn(calls[..|calls| - 1], key, m, i);
    }
  }

  // Among a+1, ..., a+k, as many numbers have remainder u as there are multiples of m shifted by u.
  lemma {:induction false} TimesInWindow(picks: seq<Choice>, a: nat, m: nat, u: nat)
    requires m > 0 && u < m
    requires forall i :: 0 <= i < |picks| ==> picks[i] == Chosen((a + i + 1) % m)
    ensures Times(picks, u) == (a + |picks| - u) / m - (a - u) / m
  {
    if picks != [] {
      var k := |picks|;
      TimesInWindow(picks[..k - 1], a, m, u);
      OneMore(a + k, m, u);
      assert picks[k - 1] == Chosen((a + k) % m);
    }
  }

  lemma OneMore(x: nat, m: nat, u: nat)
    requires m > 0 && u < m
    ensures (x - u) / m == (x - 1 - u) / m + if x % m == u then 1 else 0
  {
    var q, r := x / m, x % m;
    assert x == q * m + r;
    if r == u {
      QuotientIs(x - u, m, q, 0);
      assert x - 1 - u == (q - 1) * m + (m - 1);
      QuotientIs(x - 1 - u, m, q - 1, m - 1);
    } else if r > u {
      QuotientIs(x - u, m, q, r - u);
      QuotientIs(x - 1 - u, m, q, r - u - 1);
    } else {
      assert x - u == (q - 1) * m + (m + r - u);
      assert x - 1 - u == (q - 1) * m + (m + r - u - 1);
      QuotientIs(x - u, m, q - 1, m + r - u);
      QuotientIs(x - 1 - u, m, q - 1, m + r - u - 1);
    }
  }

  lemma QuotientIs(x: int, m: nat, q: int, r: int)
    requires m > 0 && x == q * m + r && 0 <= r < m
    ensures x / m == q
  {
    var d := x / m - q;
    assert x == (x / m) * m + x % m;
    assert d * m == r - x % m;
    MultipleIsFar(d, m);
  }

  lemma MultipleIsFar(d: int, m: nat)
    ensures d >= 1 ==> d * m >= m
    ensures d <= -1 ==> d * m <= -(m as int)
  {
    if d >= 1 { assert (d - 1) * m >= 0; }
    if d <= -1 { assert (-1 - d) * m >= 0; }
  }

  // A window of k numbers meets floor(k/m) or ceil(k/m) multiples of m.
  lemma WindowBound(y: int, k: nat, m: nat)
    requires m > 0
    ensures k / m <= (y + k) / m - y / m <= (k + m - 1) / m
  {
    var q, r := y / m, y % m;
    var h, s := k / m, k % m;
    assert y == q * m + r && k == h * m + s;
    assert y + k == (q + h) * m + (r + s);
    if r + s < m {
      QuotientIs(y + k, m, q + h, r + s);
    } else {
      assert y + k == (q + h + 1) * m + (r + s - m);
      QuotientIs(y + k, m, q + h + 1, r + s - m);
    }
    if s == 0 {
      QuotientIs(k + m - 1, m, h, m - 1);
    } else {
      assert k + m - 1 == (h + 1) * m + (s - 1);
      QuotientIs(k + m - 1, m, h + 1, s - 1);
    }
  }

  /**
   Whatever calls on other keys come in between, any k consecutive calls on one key with m
   upstreams choose each upstream floor(k/m) or ceil(k/m) times, up to 2^63 - 1 calls.
   */
  lemma Fairness(calls: seq<string>, key: string, m: nat, from: nat, k: nat, u: nat)
    requires u < m && from + k <= |Picks(calls, key, m)| && from + k <= INT_MAX
    ensures k / m <= Times(Picks(calls, key, m)[from..from + k], u) <= (k + m - 1) / m
  {
    var window := Picks(calls, key, m)[from..from + k];
    forall i | 0 <= i < k ensures window[i] == Chosen((from + i + 1) % m) {
      PicksInTurn(calls, key, m, from + i);
    }
    TimesInWindow(window, from, m, u);
    WindowBound(from - u, k, m);
    assert from - u + k == from + |window| - u;
  }
}

/**
 Sliding windows of clock readings, as the auto-ban and the crash-loop guard keep them.

 A window is the list of the readings after a cut. Go filters it in place, into the array it shares
 with the old slice, and appends to it in place as long as the array has room.
 */
module Windows {

  /** The readings strictly after `cut`, in their order. */
  function Newer(ts: seq<int>, cut: int): (r: seq<int>)
    ensures |r| <= |ts|
    ensures forall t :: t in r <==> t in ts && t > cut
  {
    if ts == [] then []
    else if ts[|ts| - 1] > cut then Newer(ts[..|ts| - 1], cut) + [ts[|ts| - 1]]
    else Newer(ts[..|ts| - 1], cut)
  }

  lemma NewerAppend(ts: seq<int>, t: int, cut: int)
    ensures Newer(ts + [t], cut) == if t > cut then Newer(ts, cut) + [t] else Newer(ts, cut)
  {
    assert (ts + [t])[..|ts|] == ts;
  }

  /** What an earlier cut dropped, a later cut would drop too. */
  lemma {:induction false} NewerTwice(ts: seq<int>, cut: int, later: int)
    requires cut <= later
    ensures Newer(Newer(ts, cut), later) == Newer(ts, later)
  {
    if ts != [] {
      var before, t := ts[..|ts| - 1], ts[|ts| - 1];
      NewerTwice(before, cut, later);
      if t > cut { NewerAppend(Newer(before, cut), t, later); }
    }
  }

  predicate AtMost(ts: seq<int>, cut: int) {
    forall i :: 0 <= i < |ts| ==> ts[i] <= cut
  }

  lemma {:induction false} NothingNewer(ts: seq<int>, cut: int)
    requires AtMost(ts, cut)
    ensures Newer(ts, cut) == []
  {
    if ts != [] { NothingNewer(ts[..|ts| - 1], cut); }
  }

  predicate Ascending(ts: seq<int>) {
    forall i, j :: 0 <= i < j < |ts| ==> ts[i] <= ts[j]
  }

  lemma {:induction false} NewerAscending(ts: seq<int>, cut: int)
    requires Ascending(ts)
    ensures Ascending(Newer(ts, cut))
  {
    if ts != [] {
      NewerAscending(ts[..|ts| - 1], cut);
      var r := Newer(ts[..|ts| - 1], cut);
      forall i | 0 <= i < |r| ensures r[i] <= ts[|ts| - 1] {
        assert r[i] in ts[..|ts| - 1];
      }
    }
  }

  /** A Go slice: the first `len` elements of a backing array. */
  datatype Slice = Slice(buf: array<int>, len: nat)

  ghost predicate InBounds(s: Slice) { s.len <= s.buf.Length }

  ghost function Elements(s: Slice): seq<int>
    requires InBounds(s)
    reads s.buf
  {
    s.buf[..s.len]
  }

  /** `append`: in place while there is room, else into a new array of any greater capacity. */
  method Append(s: Slice, t: int) returns (r: Slice)
    requires InBounds(s)
    modifies s.buf
    ensures InBounds(r) && (r.buf == s.buf || fresh(r.buf))
    ensures Elements(r) == old(Elements(s)) + [t]
  {
    if s.len < s.buf.Length {
      s.buf[s.len] := t;
      return Slice(s.buf, s.len + 1);
    }
    var extra: int := *;
    if extra < 0 { extra := 0; }
    var buf := new int[s.len + 1 + extra];
    for i := 0 to s.len
      invariant buf[..i] == s.buf[..i] && s.buf[..] == old(s.buf[..])
    {
      buf[i] := s.buf[i];
    }
    buf[s.len] := t;
    return Slice(buf, s.len + 1);
  }

  /**
   The filter loop over `hits[:0]`: the result shares the array that it is read from. Writing
   never overtakes reading, so what is kept is what the filter of the old elements gives.
   */
  method FilterInPlace(s: Slice, cut: int) returns (r: Slice)
    requires InBounds(s)
    modifies s.buf
    ensures InBounds(r) && r.buf == s.buf
    ensures Elements(r) == Newer(old(Elements(s)), cut)
  {
    ghost var was := s.buf[..];
    var n := 0;
    for i := 0 to s.len
      invariant n <= i && s.buf[..n] == Newer(was[..i], cut)
      invariant forall j :: i <= j < s.len ==> s.buf[j] == was[j]
    {
      var t := s.buf[i];
      NewerAppend(was[..i], t, cut);
      assert was[..i + 1] == was[..i] + [t];
      if t > cut {
        s.buf[n] := t;
        n := n + 1;
      }
    }
    assert was[..s.len] == old(Elements(s));
    r := Slice(s.buf, n);
  }
}

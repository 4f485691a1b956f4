/**
 The few functions of Go's `strings` package that the modelled code calls.

 A string is a sequence of bytes, one `char` for each, and white space and letters are those of
 ASCII. Splitting and joining are inverse to each other where the separator is in no part.
 */
module Text {
  import opened Options

  predicate HasPrefix(s: string, p: string) { |p| <= |s| && s[..|p|] == p }

  predicate HasSuffix(s: string, p: string) { |p| <= |s| && s[|s| - |p|..] == p }

  lemma PrefixMeans(s: string, p: string)
    ensures HasPrefix(s, p) <==> exists rest :: s == p + rest
    ensures HasSuffix(s, p) <==> exists rest :: s == rest + p
  {
    if HasPrefix(s, p) { assert s == p + s[|p|..]; }
    if HasSuffix(s, p) { assert s == s[..|s| - |p|] + p; }
  }

  /** `strings.Index`: where `p` first occurs in `s`, -1 when it does not. */
  function Index(s: string, p: string): (i: int)
    ensures -1 <= i <= |s| - |p| || i == -1
    ensures i >= 0 ==> HasPrefix(s[i..], p) && forall k :: 0 <= k < i ==> !HasPrefix(s[k..], p)
    ensures i < 0 ==> forall k :: 0 <= k <= |s| ==> !HasPrefix(s[k..], p)
  {
    if HasPrefix(s, p) then
      assert s[0..] == s; 0
    else if s == "" then -1
    else
      var i := Index(s[1..], p);
      assert s[0..] == s;
      assert forall k :: 1 <= k <= |s| ==> s[k..] == s[1..][k - 1..];
      if i < 0 then -1 else i + 1
  }

  /** The first occurrence of a character that what comes before it does not hold. */
  lemma IndexOfFirst(before: string, c: char, after: string)
    requires c !in before
    ensures Index(before + [c] + after, [c]) == |before|
  {
    var s := before + [c] + after;
    assert s[|before|..] == [c] + after;
    forall k | 0 <= k < |before| ensures !HasPrefix(s[k..], [c]) {
      assert s[k..][0] == s[k] == before[k];
    }
  }

  /** The part before a character is read off a text whose part before it does not hold it. */
  lemma CutAt(a: string, c: char, s: string, b: string, t: string)
    requires c !in a && c !in b && a + [c] + s == b + [c] + t
    ensures a == b && s == t
  {
    IndexOfFirst(a, c, s);
    IndexOfFirst(b, c, t);
    var x, y := a + [c] + s, b + [c] + t;
    assert a == x[..|a|] && b == y[..|b|];
    assert s == x[|a| + 1..] && t == y[|b| + 1..];
  }

  predicate Contains(s: string, p: string) { Index(s, p) >= 0 }

  lemma ContainsMeans(s: string, p: string)
    ensures Contains(s, p) <==> exists a, b :: s == a + p + b
  {
    if Contains(s, p) {
      var i := Index(s, p);
      assert s == s[..i] + p + s[i..][|p|..];
    }
    if a, b :| s == a + p + b {
      assert s[|a|..] == p + b;
      assert HasPrefix(s[|a|..], p);
    }
  }

  function Join(parts: seq<string>, sep: string): string {
    if |parts| == 0 then ""
    else if |parts| == 1 then parts[0]
    else parts[0] + sep + Join(parts[1..], sep)
  }

  /** `strings.ToLower` on ASCII letters. */
  function ToLower(s: string): (r: string)
    ensures |r| == |s|
  {
    if s == "" then ""
    else [if 'A' <= s[0] <= 'Z' then s[0] + 32 as char else s[0]] + ToLower(s[1..])
  }

  lemma {:induction false} ToLowerMeans(s: string)
    ensures forall i :: 0 <= i < |s| ==> ToLower(s)[i] == if 'A' <= s[i] <= 'Z' then s[i] + 32 as char else s[i]
  {
    if s != "" {
      ToLowerMeans(s[1..]);
      forall i | 0 < i < |s| ensures ToLower(s)[i] == ToLower(s[1..])[i - 1] && s[1..][i - 1] == s[i] {}
    }
  }

  /** `strings.Split` at a one-character separator: never empty, no piece holds the separator. */
  function Split(s: string, sep: char): (parts: seq<string>)
    ensures |parts| >= 1
    ensures forall p :: p in parts ==> sep !in p
  {
    if s == "" then [""]
    else if s[0] == sep then [""] + Split(s[1..], sep)
    else var rest := Split(s[1..], sep); [[s[0]] + rest[0]] + rest[1..]
  }

  predicate IsSpace(c: char) { c in {' ', '\t', '\n', '\r', 11 as char, 12 as char} }

  /** `strings.TrimSpace` on ASCII spaces. */
  function TrimSpace(s: string): (r: string)
    ensures r != "" ==> !IsSpace(r[0]) && !IsSpace(r[|r| - 1])
  {
    if s == "" then ""
    else if IsSpace(s[0]) then TrimSpace(s[1..])
    else if IsSpace(s[|s| - 1]) then TrimSpace(s[..|s| - 1])
    else s
  }

  predicate Blank(s: string) { forall c :: c in s ==> IsSpace(c) }

  /** Only spaces are trimmed, so with the ends free of spaces the result is determined. */
  lemma {:induction false} TrimSpaceMeans(s: string) returns (a: string, b: string)
    ensures s == a + TrimSpace(s) + b && Blank(a) && Blank(b)
  {
    if s == "" {
      a, b := "", "";
    } else if IsSpace(s[0]) {
      a, b := TrimSpaceMeans(s[1..]);
      assert s == [s[0]] + s[1..] == ([s[0]] + a) + TrimSpace(s) + b;
      a := [s[0]] + a;
    } else if IsSpace(s[|s| - 1]) {
      a, b := TrimSpaceMeans(s[..|s| - 1]);
      assert s == s[..|s| - 1] + [s[|s| - 1]] == a + TrimSpace(s) + (b + [s[|s| - 1]]);
      b := b + [s[|s| - 1]];
    } else {
      a, b := "", "";
    }
  }

  const INT64_MAX := 0x7FFF_FFFF_FFFF_FFFF
  const INT64_MIN := -0x8000_0000_0000_0000
  const TWO_64 := 0x1_0000_0000_0000_0000

  /** The value of an int64 result, wrapped around. */
  function Wrap64(n: int): (r: int)
    ensures INT64_MIN <= r <= INT64_MAX
    ensures INT64_MIN <= n <= INT64_MAX ==> r == n
    ensures (r - n) % TWO_64 == 0
  {
    var u := n % TWO_64;
    if u <= INT64_MAX then u else u - TWO_64
  }

  function Digits(s: string): Option<nat> {
    if s == "" then None
    else if !('0' <= s[|s| - 1] <= '9') then None
    else
      var d := (s[|s| - 1] - '0') as nat;
      if |s| == 1 then Some(d)
      else match Digits(s[..|s| - 1])
           case None => None
           case Some(n) => Some(10 * n + d)
  }

  function Power10(n: nat): nat { if n == 0 then 1 else 10 * Power10(n - 1) }

  predicate IsDecimal(s: string) { forall i :: 0 <= i < |s| ==> '0' <= s[i] <= '9' }

  /** The value of decimal digits, the first one weighing most. */
  function Weighed(s: string): nat
    requires IsDecimal(s)
  {
    if s == "" then 0 else (s[0] - '0') as nat * Power10(|s| - 1) + Weighed(s[1..])
  }

  lemma {:induction false} WeighedLast(s: string, c: char)
    requires IsDecimal(s) && '0' <= c <= '9'
    ensures Weighed(s + [c]) == 10 * Weighed(s) + (c - '0') as nat
  {
    if s == "" {
      assert Power10(0) == 1;
      assert [c][1..] == "";
    } else {
      WeighedLast(s[1..], c);
      assert (s + [c])[1..] == s[1..] + [c];
      assert Power10(|s|) == 10 * Power10(|s| - 1);
      Tenfold((s[0] - '0') as nat, Power10(|s| - 1), Weighed(s[1..]), (c - '0') as nat);
    }
  }

  lemma Tenfold(d: nat, p: nat, w: nat, e: nat)
    ensures d * (10 * p) + (10 * w + e) == 10 * (d * p + w) + e
  {}

  /** A text is read exactly if it is one or more digits, as their decimal value. */
  lemma {:induction false} DigitsMean(s: string)
    ensures Digits(s).Some? <==> s != "" && IsDecimal(s)
    ensures Digits(s).Some? ==> Digits(s).value == Weighed(s)
  {
    if s != "" {
      var before, c := s[..|s| - 1], s[|s| - 1];
      assert s == before + [c];
      DigitsMean(before);
      assert IsDecimal(s) <==> IsDecimal(before) && '0' <= c <= '9';
      if IsDecimal(s) {
        WeighedLast(before, c);
      }
    }
  }

  /** `strconv.Atoi`: an optional sign, digits, and the int64 range. */
  function Atoi(s: string): Option<int> {
    var negative := s != "" && s[0] == '-';
    var digits := if s != "" && (s[0] == '-' || s[0] == '+') then s[1..] else s;
    match Digits(digits)
    case None => None
    case Some(n) =>
      var v: int := if negative then 0 - n else n;
      if INT64_MIN <= v <= INT64_MAX then Some(v) else None
  }

  predicate InRange(n: int) { INT64_MIN <= n <= INT64_MAX }

  /** Unsigned and with either sign, the value is that of the digits, if it is in range. */
  lemma AtoiMeans(d: string)
    requires Digits(d).Some?
    ensures Atoi(d) == (if InRange(Digits(d).value) then Some(Digits(d).value) else None)
    ensures Atoi("+" + d) == Atoi(d)
    ensures Atoi("-" + d) == if InRange(0 - Digits(d).value) then Some(0 - Digits(d).value) else None
  {
    DigitsMean(d);
    assert ("+" + d)[1..] == d && ("-" + d)[1..] == d;
    hide Digits;
  }

  /** Nothing else is read. */
  lemma AtoiNeedsDigits(s: string)
    requires Atoi(s).Some?
    ensures Digits(s).Some? || exists d :: Digits(d).Some? && (s == "+" + d || s == "-" + d)
  {
    if s[0] == '-' || s[0] == '+' {
      assert s == [s[0]] + s[1..];
      assert Digits(s[1..]).Some?;
    }
  }
}

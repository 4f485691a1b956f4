/** The line diff of web/src/lib/diff.ts. */
module LineDiff {
  import opened Subsequences
  import opened Text

  // Split both texts at newlines, fill the LCS length table from the bottom right corner, then walk
  // it from the top left corner.
  //
  // `Script` is the walk as a function of the two line lists. The theorems say that it is an
  // edit script from the old lines to the new ones, that its "same" lines are a longest common
  // subsequence, and that no other edit script between the two texts is shorter.

  datatype LineKind = Same | Add | Del
  datatype DiffLine = DiffLine(kind: LineKind, text: string)

  // ---------------------------------------------------------------- split and join

  const NEWLINE := '\n'

  function Lines(s: string): seq<string> { Split(s, NEWLINE) }

  function Unlines(lines: seq<string>): string { Join(lines, [NEWLINE]) }

  lemma {:induction false} JoinSplit(s: string)
    ensures Unlines(Lines(s)) == s
  {
    if s != "" {
      JoinSplit(s[1..]);
      var rest := Lines(s[1..]);
      if s[0] == NEWLINE {
        assert Lines(s) == [""] + rest && Lines(s)[1..] == rest;
        assert s == [NEWLINE] + s[1..];
      } else {
        assert Lines(s)[1..] == rest[1..];
        assert s == [s[0]] + s[1..];
      }
    }
  }

  lemma {:induction false} SplitPrefix(l: string, s: string)
    requires NEWLINE !in l
    ensures Lines(l + s) == [l + Lines(s)[0]] + Lines(s)[1..]
  {
    if l == "" {
      assert l + s == s && l + Lines(s)[0] == Lines(s)[0];
    } else {
      SplitPrefix(l[1..], s);
      assert (l + s)[1..] == l[1..] + s;
      assert [l[0]] + (l[1..] + Lines(s)[0]) == l + Lines(s)[0];
    }
  }

  lemma {:induction false} SplitJoin(lines: seq<string>)
    requires |lines| >= 1 && forall l :: l in lines ==> NEWLINE !in l
    ensures Lines(Unlines(lines)) == lines
  {
    if |lines| == 1 {
      SplitPrefix(lines[0], "");
      assert lines[0] + "" == lines[0];
    } else {
      SplitJoin(lines[1..]);
      var tail := [NEWLINE] + Unlines(lines[1..]);
      assert tail[1..] == Unlines(lines[1..]);
      assert Lines(tail) == [""] + lines[1..];
      SplitPrefix(lines[0], tail);
      assert lines[0] + tail == Unlines(lines);
      assert lines[0] + "" == lines[0];
    }
  }

  // ---------------------------------------------------------------- the table

  function Max(x: nat, y: nat): nat { if x >= y then x else y }

  /** The value the recurrence puts in the top left corner of the table for `a` and `b`. */
  function Lcs(a: seq<string>, b: seq<string>): nat {
    if a == [] || b == [] then 0
    else if a[0] == b[0] then 1 + Lcs(a[1..], b[1..])
    else Max(Lcs(a[1..], b), Lcs(a, b[1..]))
  }

  ghost predicate IsCommon(s: seq<string>, a: seq<string>, b: seq<string>) {
    IsSubsequence(s, a) && IsSubsequence(s, b)
  }

  // Dropping the first line of `t` moves every position down by one.
  lemma ShiftEmbedding(s: seq<string>, t: seq<string>, f: seq<nat>) returns (g: seq<nat>)
    requires Embeds(s, t, f) && (s == [] || f[0] > 0) && t != []
    ensures Embeds(s, t[1..], g)
  {
    forall i | 0 <= i < |f| ensures f[i] >= 1 {
      if i > 0 { assert f[0] < f[i]; }
    }
    g := seq(|f|, i requires 0 <= i < |f| => f[i] - 1);
  }

  // Dropping the first line of both sides.
  lemma TailEmbedding(s: seq<string>, t: seq<string>, f: seq<nat>) returns (g: seq<nat>)
    requires Embeds(s, t, f) && s != []
    ensures t != [] && Embeds(s[1..], t[1..], g)
  {
    assert f[0] < |t| && (|f| > 1 ==> f[0] < f[1]);
    assert Embeds(s[1..], t, f[1..]);
    g := ShiftEmbedding(s[1..], t, f[1..]);
  }

  lemma {:induction false} CommonBound(s: seq<string>, a: seq<string>, b: seq<string>, f: seq<nat>, g: seq<nat>)
    requires Embeds(s, a, f) && Embeds(s, b, g)
    ensures |s| <= Lcs(a, b)
    decreases |a| + |b|
  {
    if s == [] { return; }
    assert f[0] < |a| && g[0] < |b|;
    if a[0] == b[0] {
      var f' := TailEmbedding(s, a, f);
      var g' := TailEmbedding(s, b, g);
      CommonBound(s[1..], a[1..], b[1..], f', g');
    } else if f[0] > 0 {
      var f' := ShiftEmbedding(s, a, f);
      CommonBound(s, a[1..], b, f', g);
    } else {
      var g' := ShiftEmbedding(s, b, g);
      CommonBound(s, a, b[1..], f, g');
    }
  }

  // ---------------------------------------------------------------- edit scripts

  function OldSide(script: seq<DiffLine>): seq<string> {
    if script == [] then []
    else (if script[0].kind == Add then [] else [script[0].text]) + OldSide(script[1..])
  }

  function NewSide(script: seq<DiffLine>): seq<string> {
    if script == [] then []
    else (if script[0].kind == Del then [] else [script[0].text]) + NewSide(script[1..])
  }

  function SameLines(script: seq<DiffLine>): seq<string> {
    if script == [] then []
    else (if script[0].kind == Same then [script[0].text] else []) + SameLines(script[1..])
  }

  /** `script` turns the lines `a` into the lines `b` by keeping, deleting and inserting lines. */
  predicate IsEditScript(script: seq<DiffLine>, a: seq<string>, b: seq<string>) {
    OldSide(script) == a && NewSide(script) == b
  }

  /** The walk: keep equal heads, else delete when that loses nothing, else insert. */
  function Script(a: seq<string>, b: seq<string>): seq<DiffLine> {
    if a != [] && b != [] then
      if a[0] == b[0] then [DiffLine(Same, a[0])] + Script(a[1..], b[1..])
      else if Lcs(a[1..], b) >= Lcs(a, b[1..]) then [DiffLine(Del, a[0])] + Script(a[1..], b)
      else [DiffLine(Add, b[0])] + Script(a, b[1..])
    else if a != [] then [DiffLine(Del, a[0])] + Script(a[1..], b)
    else if b != [] then [DiffLine(Add, b[0])] + Script(a, b[1..])
    else []
  }

  lemma {:induction false} ScriptIsEditScript(a: seq<string>, b: seq<string>)
    ensures IsEditScript(Script(a, b), a, b)
    ensures |SameLines(Script(a, b))| == Lcs(a, b)
  {
    var t := Script(a, b);
    if t != [] {
      var rest := t[1..];
      match t[0].kind
      case Same =>
        ScriptIsEditScript(a[1..], b[1..]);
        assert rest == Script(a[1..], b[1..]);
      case Del =>
        ScriptIsEditScript(a[1..], b);
        assert rest == Script(a[1..], b);
      case Add =>
        ScriptIsEditScript(a, b[1..]);
        assert rest == Script(a, b[1..]);
    }
  }

  // Every edit script has |a| deletions and keeps, |b| insertions and keeps.
  lemma {:induction false} ScriptLength(script: seq<DiffLine>)
    ensures |script| + |SameLines(script)| == |OldSide(script)| + |NewSide(script)|
  {
    if script != [] { ScriptLength(script[1..]); }
  }

  lemma SkipLine(s: seq<string>, t: seq<string>, f: seq<nat>, l: string) returns (g: seq<nat>)
    requires Embeds(s, t, f)
    ensures Embeds(s, [l] + t, g) && (forall i :: 0 <= i < |g| ==> g[i] > 0)
  {
    g := seq(|f|, i requires 0 <= i < |f| => f[i] + 1);
  }

  lemma KeepLine(s: seq<string>, t: seq<string>, f: seq<nat>, l: string) returns (g: seq<nat>)
    requires Embeds(s, t, f)
    ensures Embeds([l] + s, [l] + t, g)
  {
    var h := SkipLine(s, t, f, l);
    g := [0] + h;
  }

  lemma {:induction false} SameLinesEmbed(script: seq<DiffLine>) returns (f: seq<nat>, g: seq<nat>)
    ensures Embeds(SameLines(script), OldSide(script), f)
    ensures Embeds(SameLines(script), NewSide(script), g)
  {
    if script == [] { return [], []; }
    var rest, l := script[1..], script[0].text;
    f, g := SameLinesEmbed(rest);
    match script[0].kind
    case Same =>
      f := KeepLine(SameLines(rest), OldSide(rest), f, l);
      g := KeepLine(SameLines(rest), NewSide(rest), g, l);
    case Del =>
      f := SkipLine(SameLines(rest), OldSide(rest), f, l);
      assert [] + SameLines(rest) == SameLines(rest) && [] + NewSide(rest) == NewSide(rest);
    case Add =>
      g := SkipLine(SameLines(rest), NewSide(rest), g, l);
      assert [] + SameLines(rest) == SameLines(rest) && [] + OldSide(rest) == OldSide(rest);
  }

  /** The table's corner is the length of a longest common subsequence, and the walk finds one. */
  lemma SameLinesAreLongestCommon(a: seq<string>, b: seq<string>, s: seq<string>)
    ensures IsCommon(SameLines(Script(a, b)), a, b)
    ensures IsCommon(s, a, b) ==> |s| <= |SameLines(Script(a, b))|
  {
    ScriptIsEditScript(a, b);
    var f, g := SameLinesEmbed(Script(a, b));
    if IsCommon(s, a, b) {
      var f' :| Embeds(s, a, f');
      var g' :| Embeds(s, b, g');
      CommonBound(s, a, b, f', g');
    }
  }

  /** No edit script between the two line lists is shorter than the walk's. */
  lemma ScriptIsShortest(a: seq<string>, b: seq<string>, other: seq<DiffLine>)
    requires IsEditScript(other, a, b)
    ensures |Script(a, b)| <= |other|
  {
    ScriptIsEditScript(a, b);
    ScriptLength(Script(a, b));
    ScriptLength(other);
    var f, g := SameLinesEmbed(other);
    CommonBound(SameLines(other), a, b, f, g);
  }

  // ---------------------------------------------------------------- the method

  /** The table: row i, column j holds the LCS length of the lines from i and from j on. */
  ghost predicate IsTable(lcs: array2<nat>, a: seq<string>, b: seq<string>)
    reads lcs
  {
    && lcs.Length0 == |a| + 1 && lcs.Length1 == |b| + 1
    && forall i, j :: 0 <= i <= |a| && 0 <= j <= |b| ==> lcs[i, j] == Lcs(a[i..], b[j..])
  }

  method FillTable(a: seq<string>, b: seq<string>) returns (lcs: array2<nat>)
    ensures fresh(lcs) && IsTable(lcs, a, b)
  {
    var m, n := |a|, |b|;
    lcs := new nat[m + 1, n + 1]((i, j) => 0);
    for i := m downto 0
      invariant forall x, y :: i <= x <= m && 0 <= y <= n ==> lcs[x, y] == Lcs(a[x..], b[y..])
      invariant forall x :: 0 <= x <= m ==> lcs[x, n] == 0
    {
      for j := n downto 0
        invariant forall x, y :: i < x <= m && 0 <= y <= n ==> lcs[x, y] == Lcs(a[x..], b[y..])
        invariant forall y :: j <= y <= n ==> lcs[i, y] == Lcs(a[i..], b[y..])
        invariant forall x :: 0 <= x <= m ==> lcs[x, n] == 0
      {
        LcsStep(a, b, i, j);
        lcs[i, j] := if a[i] == b[j] then lcs[i + 1, j + 1] + 1 else Max(lcs[i + 1, j], lcs[i, j + 1]);
      }
    }
  }

  lemma LcsStep(a: seq<string>, b: seq<string>, i: nat, j: nat)
    requires i < |a| && j < |b|
    ensures Lcs(a[i..], b[j..])
         == if a[i] == b[j] then 1 + Lcs(a[i + 1..], b[j + 1..])
            else Max(Lcs(a[i + 1..], b[j..]), Lcs(a[i..], b[j + 1..]))
  {
    assert a[i..][1..] == a[i + 1..] && b[j..][1..] == b[j + 1..];
  }

  lemma ScriptStep(a: seq<string>, b: seq<string>, i: nat, j: nat)
    requires i <= |a| && j <= |b| && (i < |a| || j < |b|)
    ensures Script(a[i..], b[j..])
         == if i < |a| && j < |b| && a[i] == b[j] then [DiffLine(Same, a[i])] + Script(a[i + 1..], b[j + 1..])
            else if i < |a| && (j == |b| || Lcs(a[i + 1..], b[j..]) >= Lcs(a[i..], b[j + 1..]))
            then [DiffLine(Del, a[i])] + Script(a[i + 1..], b[j..])
            else [DiffLine(Add, b[j])] + Script(a[i..], b[j + 1..])
  {
    if i < |a| { assert a[i..][1..] == a[i + 1..] && a[i..][0] == a[i]; }
    if j < |b| { assert b[j..][1..] == b[j + 1..] && b[j..][0] == b[j]; }
  }

  // One more line of the walk has been emitted.
  lemma Emitted(whole: seq<DiffLine>, out: seq<DiffLine>, line: DiffLine, rest: seq<DiffLine>)
    requires whole == out + ([line] + rest)
    ensures whole == (out + [line]) + rest
  {}

  /** The walk of `diffLines`: two indices over the table, then the two leftovers. */
  method Walk(a: seq<string>, b: seq<string>, lcs: array2<nat>) returns (out: seq<DiffLine>)
    requires IsTable(lcs, a, b)
    ensures out == Script(a, b)
  {
    ghost var whole := Script(a, b);
    out := [];
    var i, j := 0, 0;
    assert a[0..] == a && b[0..] == b;
    hide Script, Lcs;
    while i < |a| && j < |b|
      invariant i <= |a| && j <= |b|
      invariant whole == out + Script(a[i..], b[j..])
    {
      ScriptStep(a, b, i, j);
      if a[i] == b[j] {
        Emitted(whole, out, DiffLine(Same, a[i]), Script(a[i + 1..], b[j + 1..]));
        out := out + [DiffLine(Same, a[i])];
        i, j := i + 1, j + 1;
      } else if lcs[i + 1, j] >= lcs[i, j + 1] {
        Emitted(whole, out, DiffLine(Del, a[i]), Script(a[i + 1..], b[j..]));
        out := out + [DiffLine(Del, a[i])];
        i := i + 1;
      } else {
        Emitted(whole, out, DiffLine(Add, b[j]), Script(a[i..], b[j + 1..]));
        out := out + [DiffLine(Add, b[j])];
        j := j + 1;
      }
    }
    var rest := Leftovers(a[i..], b[j..]);
    out := out + rest;
  }

  /** The two loops after the walk, when one side is used up. */
  method Leftovers(a: seq<string>, b: seq<string>) returns (out: seq<DiffLine>)
    requires a == [] || b == []
    ensures out == Script(a, b)
  {
    ghost var whole := Script(a, b);
    out := [];
    var i, j := 0, 0;
    assert a[0..] == a && b[0..] == b;
    assert Script([], []) == [];
    hide Script, Lcs;
    while i < |a|
      invariant i <= |a| && whole == out + Script(a[i..], b[0..])
    {
      ScriptStep(a, b, i, 0);
      Emitted(whole, out, DiffLine(Del, a[i]), Script(a[i + 1..], b[0..]));
      out := out + [DiffLine(Del, a[i])];
      i := i + 1;
    }
    while j < |b|
      invariant j <= |b| && whole == out + Script(a[i..], b[j..])
    {
      ScriptStep(a, b, i, j);
      Emitted(whole, out, DiffLine(Add, b[j]), Script(a[i..], b[j + 1..]));
      out := out + [DiffLine(Add, b[j])];
      j := j + 1;
    }
    assert a[i..] == [] && b[j..] == [];
  }

  /** `diffLines`: the script that comes out rebuilds both texts, and no script is shorter. */
  method DiffLines(oldStr: string, newStr: string) returns (out: seq<DiffLine>)
    ensures out == Script(Lines(oldStr), Lines(newStr))
    ensures Unlines(OldSide(out)) == oldStr && Unlines(NewSide(out)) == newStr
    ensures forall other :: IsEditScript(other, Lines(oldStr), Lines(newStr)) ==> |out| <= |other|
  {
    var a, b := Lines(oldStr), Lines(newStr);
    var lcs := FillTable(a, b);
    out := Walk(a, b, lcs);
    ScriptIsEditScript(a, b);
    JoinSplit(oldStr);
    JoinSplit(newStr);
    forall other | IsEditScript(other, a, b) ensures |out| <= |other| {
      ScriptIsShortest(a, b, other);
    }
  }
}

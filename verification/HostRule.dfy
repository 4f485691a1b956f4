/**
 The router rule of a host: `hostRule` and `ruleQuote` of internal/traefikcfg/render.go print
 a domain list as a Traefik rule, `domainsFromRule` of internal/api/handlers_features.go reads
 the domains back out of a rule.
 */
module HostRule {
  import opened Ordering
  import opened Text

  const BACKTICK := '`'

  /** `ruleQuote`: the value without its backticks. */
  function RuleQuote(s: string): (r: string)
    ensures BACKTICK !in r
    ensures BACKTICK !in s ==> r == s
  {
    if s == "" then "" else (if s[0] == BACKTICK then "" else [s[0]]) + RuleQuote(s[1..])
  }

  function QuoteAll(ds: seq<string>): (r: seq<string>)
    ensures |r| == |ds| && forall i :: 0 <= i < |ds| ==> r[i] == RuleQuote(ds[i])
  {
    if ds == [] then [] else [RuleQuote(ds[0])] + QuoteAll(ds[1..])
  }

  const HOST := "Host(`"
  const OR := " || "
  const ANY_HOST := "PathPrefix(`/`)"

  function HostPart(d: string): string { HOST + d + "`)" }

  function Parts(ds: seq<string>): (r: seq<string>)
    ensures |r| == |ds| && forall i :: 0 <= i < |ds| ==> r[i] == HostPart(ds[i])
  {
    if ds == [] then [] else [HostPart(ds[0])] + Parts(ds[1..])
  }

  /** `hostRule`. */
  function RuleOf(ds: seq<string>): string {
    if ds == [] then ANY_HOST else Join(Sort(Parts(QuoteAll(ds))), OR)
  }

  /** What the reader finds: between "Host(`" and the next backtick, again and again. */
  function DomainsIn(rule: string): seq<string>
    decreases |rule|
  {
    var i := Index(rule, HOST);
    if i < 0 then [] else
    var rest := rule[i + |HOST|..];
    var j := Index(rest, "`");
    if j < 0 then [] else [rest[..j]] + DomainsIn(rest[j + 1..])
  }

  /** `domainsFromRule`, shrinking the rule as it goes. */
  method DomainsFromRule(rule: string) returns (out: seq<string>)
    ensures out == DomainsIn(rule)
  {
    out := [];
    var r := rule;
    while true
      invariant DomainsIn(rule) == out + DomainsIn(r)
      decreases |r|
    {
      var i := Index(r, HOST);
      if i < 0 { break; }
      var rest := r[i + |HOST|..];
      var j := Index(rest, "`");
      if j < 0 { break; }
      out := out + [rest[..j]];
      r := rest[j + 1..];
    }
  }

  // ---------------------------------------------------------------- reading a rule back

  // Text that cannot start a "Host(`" is skipped.
  lemma IndexAfter(pre: string, d: string, post: string)
    requires pre in {"", ")" + OR}
    ensures Index(pre + HostPart(d) + post, HOST) == |pre|
  {
    var s := pre + HostPart(d) + post;
    assert s[|pre|..] == HOST + (d + "`)" + post);
    assert HasPrefix(s[|pre|..], HOST);
    if pre != "" {
      assert s[..5] == ") || ";
      forall k | 0 <= k < 5 ensures !HasPrefix(s[k..], HOST) {
        assert s[k..][0] == s[k] == ") || "[k];
      }
    }
  }

  // One part read off the front of the rule.
  lemma ReadPart(pre: string, d: string, post: string)
    requires pre in {"", ")" + OR} && BACKTICK !in d
    ensures DomainsIn(pre + HostPart(d) + post) == [d] + DomainsIn(")" + post)
  {
    hide Index, HasPrefix, HostPart, DomainsIn;
    IndexAfter(pre, d, post);
    AfterHost(pre, d, post);
    IndexOfFirst(d, BACKTICK, ")" + post);
    AroundMiddle(d, BACKTICK, ")" + post);
    DomainsStep(pre + HostPart(d) + post, |pre|, |d|);
  }

  lemma AfterHost(pre: string, d: string, post: string)
    ensures var s := pre + HostPart(d) + post;
            |s| == |pre| + |HOST| + |d| + 2 + |post| && s[|pre| + |HOST|..] == d + [BACKTICK] + (")" + post)
  {
    assert pre + HostPart(d) + post == (pre + HOST) + (d + [BACKTICK] + (")" + post));
  }

  lemma AroundMiddle(a: string, c: char, b: string)
    ensures (a + [c] + b)[..|a|] == a && (a + [c] + b)[|a| + 1..] == b
  {}

  lemma DomainsStep(s: string, i: nat, j: nat)
    requires Index(s, HOST) == i && i + |HOST| <= |s|
    requires Index(s[i + |HOST|..], "`") == j && j + 1 <= |s| - i - |HOST|
    ensures DomainsIn(s) == [s[i + |HOST|..][..j]] + DomainsIn(s[i + |HOST|..][j + 1..])
  {}

  lemma NothingAfterLast()
    ensures DomainsIn(")") == [] && DomainsIn(ANY_HOST) == []
  {
    assert !HasPrefix(")"[0..], HOST) && !HasPrefix(")"[1..], HOST);
    forall k | 0 <= k <= |ANY_HOST| ensures !HasPrefix(ANY_HOST[k..], HOST) {
      if k < |ANY_HOST| { assert ANY_HOST[k..][0] == ANY_HOST[k] != 'H'; }
    }
  }

  // A list of parts read off the front of the rule.
  lemma {:induction false} ReadParts(pre: string, ds: seq<string>)
    requires pre in {"", ")" + OR} && ds != [] && forall d :: d in ds ==> BACKTICK !in d
    ensures DomainsIn(pre + Join(Parts(ds), OR)) == ds
    decreases |ds|
  {
    hide DomainsIn, HostPart;
    var d, rest := ds[0], ds[1..];
    assert Parts(ds)[1..] == Parts(rest);
    if rest == [] {
      ReadPart(pre, d, "");
      NothingAfterLast();
      assert pre + HostPart(d) + "" == pre + HostPart(d);
      assert ")" + "" == ")";
    } else {
      var post := OR + Join(Parts(rest), OR);
      ReadPart(pre, d, post);
      ReadParts(")" + OR, rest);
      assert pre + HostPart(d) + post == pre + (HostPart(d) + OR + Join(Parts(rest), OR));
      assert ")" + post == ")" + OR + Join(Parts(rest), OR);
    }
  }

  // The printed order of domains: by their parts, which is not the order of the domains themselves.
  function InsertByPart(ds: seq<string>, x: string): (r: seq<string>)
    ensures multiset(r) == multiset(ds) + multiset{x}
  {
    if ds == [] then [x]
    else if StrLe(HostPart(x), HostPart(ds[0])) then [x] + ds
    else
      assert ds == [ds[0]] + ds[1..];
      [ds[0]] + InsertByPart(ds[1..], x)
  }

  function SortByPart(ds: seq<string>): (r: seq<string>)
    ensures multiset(r) == multiset(ds)
  {
    if ds == [] then []
    else
      assert ds == [ds[0]] + ds[1..];
      InsertByPart(SortByPart(ds[1..]), ds[0])
  }

  lemma {:induction false} PartsOfInsert(ds: seq<string>, x: string)
    ensures Parts(InsertByPart(ds, x)) == Insert(Parts(ds), HostPart(x))
  {
    hide HostPart;
    if ds != [] {
      PartsOfInsert(ds[1..], x);
      assert Parts(ds)[1..] == Parts(ds[1..]);
    }
  }

  lemma {:induction false} PartsOfSort(ds: seq<string>)
    ensures Parts(SortByPart(ds)) == Sort(Parts(ds))
  {
    if ds != [] {
      PartsOfSort(ds[1..]);
      PartsOfInsert(SortByPart(ds[1..]), ds[0]);
      assert Parts(ds)[1..] == Parts(ds[1..]);
    }
  }

  /** The domains read back, in the order they are printed in. */
  lemma ReadBack(ds: seq<string>)
    ensures DomainsIn(RuleOf(ds)) == SortByPart(QuoteAll(ds))
  {
    NothingAfterLast();
    hide DomainsIn, Parts, Sort, Join;
    if ds != [] {
      var sorted := SortByPart(QuoteAll(ds));
      PartsOfSort(QuoteAll(ds));
      QuotedHaveNoBacktick(ds);
      ReadParts("", sorted);
      assert "" + Join(Parts(sorted), OR) == RuleOf(ds);
    }
  }

  lemma QuotedHaveNoBacktick(ds: seq<string>)
    ensures |SortByPart(QuoteAll(ds))| == |ds| && forall d :: d in SortByPart(QuoteAll(ds)) ==> BACKTICK !in d
  {
    var quoted, sorted := QuoteAll(ds), SortByPart(QuoteAll(ds));
    assert |multiset(sorted)| == |multiset(quoted)|;
    forall d | d in sorted ensures BACKTICK !in d {
      assert d in multiset(sorted) && d in multiset(quoted);
    }
  }

  // ---------------------------------------------------------------- what it guarantees

  /** Reading a printed rule gives back every domain as often as it was listed, and no other. */
  lemma RoundTrip(ds: seq<string>)
    ensures multiset(DomainsIn(RuleOf(ds))) == multiset(QuoteAll(ds))
  {
    ReadBack(ds);
  }

  lemma {:induction false} QuoteAllIdempotent(ds: seq<string>)
    requires forall d :: d in ds ==> BACKTICK !in d
    ensures QuoteAll(ds) == ds
  {
    if ds != [] { QuoteAllIdempotent(ds[1..]); }
  }

  lemma HostPartInjective(d: string, e: string)
    ensures HostPart(d) == HostPart(e) ==> d == e
  {
    assert HostPart(d)[|HOST|..|HostPart(d)| - 2] == d;
    assert HostPart(e)[|HOST|..|HostPart(e)| - 2] == e;
  }

  lemma {:induction false} PartCount(ds: seq<string>, d: string)
    ensures multiset(Parts(ds))[HostPart(d)] == multiset(ds)[d]
  {
    hide HostPart;
    if ds != [] {
      PartCount(ds[1..], d);
      HostPartInjective(d, ds[0]);
      assert ds == [ds[0]] + ds[1..];
      assert Parts(ds) == [HostPart(ds[0])] + Parts(ds[1..]);
    }
  }

  lemma PartsMultiset(a: seq<string>, b: seq<string>)
    requires multiset(a) == multiset(b)
    ensures multiset(Parts(a)) == multiset(Parts(b))
  {
    hide HostPart;
    forall p | p in Parts(a) || p in Parts(b) ensures multiset(Parts(a))[p] == multiset(Parts(b))[p] {
      var d :| p == HostPart(d);
      PartCount(a, d);
      PartCount(b, d);
    }
    forall p ensures multiset(Parts(a))[p] == multiset(Parts(b))[p] {
      assert p in multiset(Parts(a)) <==> p in Parts(a);
      assert p in multiset(Parts(b)) <==> p in Parts(b);
    }
  }

  /** Two domain lists print the same rule exactly when they list the same domains equally often. */
  lemma RuleDependsOnMultiset(ds: seq<string>, es: seq<string>)
    ensures RuleOf(ds) == RuleOf(es) <==> multiset(QuoteAll(ds)) == multiset(QuoteAll(es))
  {
    if RuleOf(ds) == RuleOf(es) {
      RoundTrip(ds);
      RoundTrip(es);
    }
    if multiset(QuoteAll(ds)) == multiset(QuoteAll(es)) {
      assert |multiset(QuoteAll(ds))| == |ds| && |multiset(QuoteAll(es))| == |es|;
      PartsMultiset(QuoteAll(ds), QuoteAll(es));
      SortDependsOnMultiset(Parts(QuoteAll(ds)), Parts(QuoteAll(es)));
    }
  }

  /** Printing what was read gives the very rule it was read from. */
  lemma PrintAfterRead(ds: seq<string>)
    ensures RuleOf(DomainsIn(RuleOf(ds))) == RuleOf(ds)
  {
    var es := DomainsIn(RuleOf(ds));
    ReadBack(ds);
    QuotedHaveNoBacktick(ds);
    QuoteAllIdempotent(es);
    RuleDependsOnMultiset(es, ds);
  }
}

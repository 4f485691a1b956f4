/**
 What the rules of a host's routers mean for a visitor of one of its domains.

 The renderer writes four kinds of rule: the bare host rule, and the host rule with a path prefix,
 with the pattern of static assets, or with client addresses. The meaning is that of the rule's
 text: whatever the router is called, its rule says which visitors it takes.
 */
module RouterRules {
  import opened Text
  import opened HostRule
  import opened RenderSpec

  /** A request for one of the domains: `inRange` says which address ranges its client is in. */
  datatype Visit = Visit(entry: string, path: string, isAsset: bool, inRange: string -> bool)

  function AndPath(domains: seq<string>, p: string): string {
    "(" + RuleOf(domains) + ") && PathPrefix(`" + p + "`)"
  }

  function AndAsset(domains: seq<string>): string {
    "(" + RuleOf(domains) + ") && PathRegexp(`" + STATIC_ASSETS + "`)"
  }

  function AndClient(domains: seq<string>, ips: seq<string>): string {
    "(" + RuleOf(domains) + ") && (" + Join(ClientIps(ips), OR) + ")"
  }

  predicate InAnyRange(ips: seq<string>, v: Visit) {
    exists i :: 0 <= i < |ips| && v.inRange(RuleQuote(ips[i]))
  }

  predicate NamesPrefix(domains: seq<string>, rule: string, v: Visit, p: string) {
    BACKTICK !in p && rule == AndPath(domains, p) && HasPrefix(v.path, p)
  }

  predicate NamesRanges(domains: seq<string>, rule: string, v: Visit, ips: seq<string>) {
    rule == AndClient(domains, ips) && InAnyRange(ips, v)
  }

  /** The rule holds of a visitor of one of the domains. */
  ghost predicate Satisfies(domains: seq<string>, rule: string, v: Visit) {
    || rule == RuleOf(domains)
    || (rule == AndAsset(domains) && v.isAsset)
    || (exists p :: NamesPrefix(domains, rule, v, p))
    || (exists ips :: NamesRanges(domains, rule, v, ips))
  }

  // ---------------------------------------------------------------- the four kinds of text are told apart

  /** The text after the host rule and "&&". */
  lemma AfterHostRule(domains: seq<string>, rest: string)
    ensures var rule := "(" + RuleOf(domains) + ") && " + rest;
            rule != RuleOf(domains) && rule[|RuleOf(domains)| + 6..] == rest
  {
    hide RuleOf;
    var rule := "(" + RuleOf(domains) + ") && " + rest;
    assert |rule| > |RuleOf(domains)|;
    assert rule == ("(" + RuleOf(domains) + ") && ") + rest;
  }

  function PathPart(p: string): string { "PathPrefix(`" + p + "`)" }
  const ASSET_PART := "PathRegexp(`" + STATIC_ASSETS + "`)"
  function ClientPart(ips: seq<string>): string { "(" + Join(ClientIps(ips), OR) + ")" }

  lemma Texts(domains: seq<string>, p: string, ips: seq<string>)
    ensures AndPath(domains, p) == "(" + RuleOf(domains) + ") && " + PathPart(p)
    ensures AndAsset(domains) == "(" + RuleOf(domains) + ") && " + ASSET_PART
    ensures AndClient(domains, ips) == "(" + RuleOf(domains) + ") && " + ClientPart(ips)
  {
    hide RuleOf, ClientIps, Join, STATIC_ASSETS;
    var front := "(" + RuleOf(domains);
    Regroup(front, "PathPrefix(`", p, "`)");
    Regroup(front, "PathRegexp(`", STATIC_ASSETS, "`)");
    Regroup(front, "(", Join(ClientIps(ips), OR), ")");
    assert ") && PathPrefix(`" == ") && " + "PathPrefix(`" && ") && PathRegexp(`" == ") && " + "PathRegexp(`";
    assert ") && (" == ") && " + "(";
  }

  lemma Regroup(front: string, kind: string, body: string, end: string)
    ensures front + (") && " + kind) + body + end == front + ") && " + (kind + body + end)
  {}

  lemma PartsDiffer(p: string, ips: seq<string>)
    ensures PathPart(p) != ASSET_PART && PathPart(p) != ClientPart(ips) && ASSET_PART != ClientPart(ips)
  {
    hide ClientIps, Join;
    assert PathPart(p)[0] == 'P' && ASSET_PART[0] == 'P' && ClientPart(ips)[0] == '(';
    assert PathPart(p)[4] == 'P' && ASSET_PART[4] == 'R';
  }

  lemma PathPartInjective(p: string, q: string)
    ensures PathPart(p) == PathPart(q) ==> p == q
  {
    assert PathPart(p)[12..|PathPart(p)| - 2] == p && PathPart(q)[12..|PathPart(q)| - 2] == q;
  }

  /** Rules of two kinds, or of one kind with different contents, are different texts. */
  lemma RulesDiffer(domains: seq<string>, p: string, q: string, ips: seq<string>)
    ensures RuleOf(domains) != AndPath(domains, p) && RuleOf(domains) != AndAsset(domains)
    ensures RuleOf(domains) != AndClient(domains, ips) && AndPath(domains, p) != AndAsset(domains)
    ensures AndPath(domains, p) != AndClient(domains, ips) && AndAsset(domains) != AndClient(domains, ips)
    ensures AndPath(domains, p) == AndPath(domains, q) ==> p == q
  {
    Texts(domains, p, ips);
    Texts(domains, q, ips);
    PartsDiffer(p, ips);
    PathPartInjective(p, q);
    hide RuleOf, AndPath, AndAsset, AndClient, PathPart, ClientPart, ASSET_PART;
    AfterHostRule(domains, PathPart(p));
    AfterHostRule(domains, PathPart(q));
    AfterHostRule(domains, ASSET_PART);
    AfterHostRule(domains, ClientPart(ips));
  }

  // ---------------------------------------------------------------- client addresses are read back

  function ClientIp(ip: string): string { "ClientIP(`" + RuleQuote(ip) + "`)" }

  lemma {:induction false} ClientIpsCons(ips: seq<string>)
    requires ips != []
    ensures ClientIps(ips) == [ClientIp(ips[0])] + ClientIps(ips[1..])
  {
    if |ips| > 1 {
      ClientIpsCons(ips[..|ips| - 1]);
      assert ips[1..][..|ips| - 2] == ips[..|ips| - 1][1..];
      assert ips[1..][|ips| - 2] == ips[|ips| - 1];
    }
  }

  /** What follows the first address in the text. */
  function Following(ips: seq<string>): string
    requires ips != []
  {
    if |ips| == 1 then ")" else ")" + OR + Join(ClientIps(ips[1..]), OR)
  }

  lemma FirstAddress(ips: seq<string>)
    requires ips != []
    ensures Join(ClientIps(ips), OR) == "ClientIP(`" + (RuleQuote(ips[0]) + [BACKTICK] + Following(ips))
  {
    ClientIpsCons(ips);
    ClientIpsLength(ips[1..]);
    hide ClientIps, RuleQuote, Join;
    JoinCons(ClientIp(ips[0]), ClientIps(ips[1..]));
    Regrouped(RuleQuote(ips[0]), Join(ClientIps(ips[1..]), OR));
  }

  lemma JoinCons(first: string, rest: seq<string>)
    ensures Join([first] + rest, OR) == if rest == [] then first else first + OR + Join(rest, OR)
  {
    assert ([first] + rest)[1..] == rest;
  }

  lemma Regrouped(q: string, t: string)
    ensures "ClientIP(`" + q + "`)" == "ClientIP(`" + (q + [BACKTICK] + ")")
    ensures "ClientIP(`" + q + "`)" + OR + t == "ClientIP(`" + (q + [BACKTICK] + (")" + OR + t))
  {
    assert "`)" == [BACKTICK] + ")";
  }

  lemma {:induction false} ClientIpsLength(ips: seq<string>)
    ensures |ClientIps(ips)| == |ips|
  {
    if ips != [] { ClientIpsLength(ips[..|ips| - 1]); }
  }

  /** The text of a list of addresses gives the addresses back, without their backticks. */
  lemma {:induction false} AddressesReadBack(a: seq<string>, b: seq<string>)
    requires Join(ClientIps(a), OR) == Join(ClientIps(b), OR)
    ensures QuoteAll(a) == QuoteAll(b)
    decreases |a|
  {
    if a == [] || b == [] {
      if a != [] { FirstAddress(a); }
      if b != [] { FirstAddress(b); }
      ClientIpsLength(a);
      ClientIpsLength(b);
    } else {
      FirstAddress(a);
      FirstAddress(b);
      SameFirst(RuleQuote(a[0]), Following(a), RuleQuote(b[0]), Following(b));
      SameFollowing(a, b);
      if |a| > 1 { AddressesReadBack(a[1..], b[1..]); }
    }
  }

  lemma SameFirst(q: string, s: string, r: string, t: string)
    requires BACKTICK !in q && BACKTICK !in r
    requires "ClientIP(`" + (q + [BACKTICK] + s) == "ClientIP(`" + (r + [BACKTICK] + t)
    ensures q == r && s == t
  {
    assert ("ClientIP(`" + (q + [BACKTICK] + s))[10..] == q + [BACKTICK] + s;
    assert ("ClientIP(`" + (r + [BACKTICK] + t))[10..] == r + [BACKTICK] + t;
    CutAt(q, BACKTICK, s, r, t);
  }

  lemma SameFollowing(a: seq<string>, b: seq<string>)
    requires a != [] && b != [] && Following(a) == Following(b)
    ensures |a| == 1 <==> |b| == 1
    ensures |a| > 1 ==> Join(ClientIps(a[1..]), OR) == Join(ClientIps(b[1..]), OR)
  {
    hide Join, ClientIps;
    if |a| > 1 { assert Following(a)[5..] == Join(ClientIps(a[1..]), OR); }
    if |b| > 1 { assert Following(b)[5..] == Join(ClientIps(b[1..]), OR); }
  }

  lemma RangesReadBack(domains: seq<string>, a: seq<string>, b: seq<string>, v: Visit)
    requires AndClient(domains, a) == AndClient(domains, b)
    ensures InAnyRange(a, v) <==> InAnyRange(b, v)
  {
    Texts(domains, "", a);
    Texts(domains, "", b);
    hide RuleOf, AndClient, ClientIps, Join;
    AfterHostRule(domains, ClientPart(a));
    AfterHostRule(domains, ClientPart(b));
    assert ClientPart(a)[1..|ClientPart(a)| - 1] == Join(ClientIps(a), OR);
    assert ClientPart(b)[1..|ClientPart(b)| - 1] == Join(ClientIps(b), OR);
    AddressesReadBack(a, b);
    SameRanges(a, b, v);
  }

  lemma SameRanges(a: seq<string>, b: seq<string>, v: Visit)
    requires QuoteAll(a) == QuoteAll(b)
    ensures InAnyRange(a, v) <==> InAnyRange(b, v)
  {
    forall i | 0 <= i < |a| ensures RuleQuote(a[i]) == RuleQuote(b[i]) {
      assert QuoteAll(a)[i] == QuoteAll(b)[i];
    }
    hide QuoteAll, RuleQuote;
  }

  // ---------------------------------------------------------------- what each rule means

  lemma PathMeans(domains: seq<string>, p: string, v: Visit)
    requires BACKTICK !in p
    ensures Satisfies(domains, AndPath(domains, p), v) <==> HasPrefix(v.path, p)
  {
    hide RuleOf, AndPath, AndAsset, AndClient, InAnyRange, HasPrefix;
    forall q ensures NamesPrefix(domains, AndPath(domains, p), v, q) ==> q == p { RulesDiffer(domains, p, q, []); }
    forall ips ensures !NamesRanges(domains, AndPath(domains, p), v, ips) { RulesDiffer(domains, p, p, ips); }
    RulesDiffer(domains, p, p, []);
    assert HasPrefix(v.path, p) ==> NamesPrefix(domains, AndPath(domains, p), v, p);
  }

  lemma AssetMeans(domains: seq<string>, v: Visit)
    ensures Satisfies(domains, AndAsset(domains), v) <==> v.isAsset
  {
    hide RuleOf, AndPath, AndAsset, AndClient, InAnyRange, HasPrefix;
    forall q ensures !NamesPrefix(domains, AndAsset(domains), v, q) { RulesDiffer(domains, q, q, []); }
    forall ips ensures !NamesRanges(domains, AndAsset(domains), v, ips) { RulesDiffer(domains, "", "", ips); }
    RulesDiffer(domains, "", "", []);
  }

  lemma ClientMeans(domains: seq<string>, ips: seq<string>, v: Visit)
    ensures Satisfies(domains, AndClient(domains, ips), v) <==> InAnyRange(ips, v)
  {
    hide RuleOf, AndPath, AndAsset, AndClient, InAnyRange, HasPrefix;
    RulesDiffer(domains, "", "", ips);
    forall q ensures !NamesPrefix(domains, AndClient(domains, ips), v, q) {
      RulesDiffer(domains, q, q, ips);
    }
    forall other | NamesRanges(domains, AndClient(domains, ips), v, other) ensures InAnyRange(ips, v) {
      RangesReadBack(domains, other, ips, v);
    }
    assert InAnyRange(ips, v) ==> NamesRanges(domains, AndClient(domains, ips), v, ips);
  }
}

/** What the edge caches, internal/edge/server.go. */
module CacheRules {
  import opened Options
  import opened Text
  import opened MemCache

  type Header = map<string, seq<string>>

  /** `Header.Values` and `Header.Get`, for a canonical key. */
  function Values(h: Header, key: string): seq<string> { if key in h then h[key] else [] }

  function First(h: Header, key: string): string {
    if Values(h, key) == [] then "" else Values(h, key)[0]
  }

  lemma FirstMeans(h: Header, key: string)
    ensures key in h && h[key] != [] ==> First(h, key) == h[key][0]
    ensures key !in h || h[key] == [] ==> First(h, key) == ""
  {}

  datatype Request = Request(method_: string, host: string, path: string, uri: string, header: Header)
  datatype Response = Response(status: int, header: Header, body: Bytes)

  const NS_PER_SECOND := 1_000_000_000

  predicate IsUpgrade(r: Request) {
    First(r.header, "Upgrade") != "" && Contains(ToLower(First(r.header, "Connection")), "upgrade")
  }

  predicate WantsStream(r: Request) {
    Contains(ToLower(First(r.header, "Accept")), "text/event-stream")
  }

  predicate RequestCacheable(r: Request) {
    && (r.method_ == "GET" || r.method_ == "HEAD")
    && First(r.header, "Authorization") == ""
    && !Contains(ToLower(First(r.header, "Cache-Control")), "no-store")
  }

  /** `vary`: the response depends on more than the encoding. */
  predicate VariesOn(v: string) {
    var t := TrimSpace(v);
    t != "" && ToLower(t) != "accept-encoding"
  }

  /** The seconds behind the first of the two keys that fits, as a wrapped int64 of nanoseconds. */
  function Directive(part: string): Option<int> {
    var shared := if HasPrefix(part, "s-maxage=") then Atoi(part[|"s-maxage="|..]) else None;
    if shared.Some? then Some(Wrap64(shared.value * NS_PER_SECOND))
    else if HasPrefix(part, "max-age=") then
      match Atoi(part[|"max-age="|..])
      case Some(n) => Some(Wrap64(n * NS_PER_SECOND))
      case None => None
    else None
  }

  function FirstDirective(parts: seq<string>): Option<int> {
    if parts == [] then None
    else var d := Directive(TrimSpace(parts[0])); if d.Some? then d else FirstDirective(parts[1..])
  }

  /** `maxAge`. */
  function MaxAge(cc: string): Option<int> { FirstDirective(Split(cc, ',')) }

  /** The directive at place `i` is the first one that says how long. */
  predicate DecidesAge(parts: seq<string>, i: nat) {
    && i < |parts| && Directive(TrimSpace(parts[i])).Some?
    && forall j :: 0 <= j < i ==> Directive(TrimSpace(parts[j])).None?
  }

  lemma {:induction false} FirstDirectiveDecides(parts: seq<string>) returns (i: nat)
    ensures FirstDirective(parts).Some? ==>
        DecidesAge(parts, i) && FirstDirective(parts) == Directive(TrimSpace(parts[i]))
    ensures FirstDirective(parts).None? ==> forall j :: 0 <= j < |parts| ==> Directive(TrimSpace(parts[j])).None?
  {
    hide Directive, TrimSpace;
    i := 0;
    if parts != [] && Directive(TrimSpace(parts[0])).None? {
      var k := FirstDirectiveDecides(parts[1..]);
      i := k + 1;
    }
  }

  /** The age is that of the first directive of either kind, so a later `s-maxage` does not override it. */
  lemma AgeIsTheFirst(cc: string, i: nat)
    requires DecidesAge(Split(cc, ','), i)
    ensures MaxAge(cc) == Directive(TrimSpace(Split(cc, ',')[i]))
  {
    hide Directive, TrimSpace, Split;
    var k := FirstDirectiveDecides(Split(cc, ','));
    assert !(i < k) && !(k < i);
  }

  /** `responseTTL`: how long to keep a response, if at all. */
  function ResponseTtl(r: Response, default: int): Option<int> {
    if r.status != 200 then None
    else if |Values(r.header, "Set-Cookie")| > 0 then None
    else
      var cc := ToLower(First(r.header, "Cache-Control"));
      if Contains(cc, "no-store") || Contains(cc, "private") || Contains(cc, "no-cache") then None
      else if VariesOn(First(r.header, "Vary")) then None
      else match MaxAge(cc)
           case Some(d) => if d <= 0 then None else Some(d)
           case None => Some(default)
  }

  // ---------------------------------------------------------------- the rules in terms of the headers

  /** The word occurs in the text, in letters of either case. */
  ghost predicate Mentions(text: string, word: string) { exists a, b :: ToLower(text) == a + word + b }

  /** The key goes with every variant of the text but for spaces around it and the case of letters. */
  ghost predicate IsAround(text: string, word: string) {
    exists a, m, b :: text == a + m + b && Blank(a) && Blank(b) && ToLower(m) == word
  }

  /** A request that may be answered from the cache, by its method and headers. */
  ghost predicate MayBeCached(r: Request) {
    && r.method_ in {"GET", "HEAD"}
    && First(r.header, "Authorization") == "" && !Mentions(First(r.header, "Cache-Control"), "no-store")
  }

  /** A response that may be kept, by its status and headers. */
  ghost predicate MayBeKept(r: Response) {
    && r.status == 200
    && ("Set-Cookie" in r.header ==> r.header["Set-Cookie"] == [])
    && !Mentions(First(r.header, "Cache-Control"), "no-store")
    && !Mentions(First(r.header, "Cache-Control"), "private")
    && !Mentions(First(r.header, "Cache-Control"), "no-cache")
    && (Blank(First(r.header, "Vary")) || IsAround(First(r.header, "Vary"), "accept-encoding"))
  }

  /** The part of a Cache-Control header gives an age of `n` seconds. */
  ghost predicate GivesAge(part: string, n: int) {
    exists digits :: Atoi(digits) == Some(n) && TrimSpace(part) in {"max-age=" + digits, "s-maxage=" + digits}
  }

  ghost predicate GivesNoAge(part: string) { forall n :: !GivesAge(part, n) }

  /** The age of a response: that of the first part that gives one, which is positive, else the default. */
  ghost predicate IsKeptFor(r: Response, default: int, ttl: int) {
    var parts := Split(ToLower(First(r.header, "Cache-Control")), ',');
    || (ttl == default && forall i :: 0 <= i < |parts| ==> GivesNoAge(parts[i]))
    || (exists i, n :: IsFirstAge(parts, i, n) && ttl == Wrap64(n * NS_PER_SECOND) > 0)
  }

  ghost predicate IsFirstAge(parts: seq<string>, i: nat, n: int) {
    i < |parts| && GivesAge(parts[i], n) && forall j :: 0 <= j < i ==> GivesNoAge(parts[j])
  }

  lemma MentionsMeans(text: string, word: string)
    ensures Contains(ToLower(text), word) <==> Mentions(text, word)
  {
    ContainsMeans(ToLower(text), word);
  }

  lemma RequestCacheableMeans(r: Request)
    ensures RequestCacheable(r) <==> MayBeCached(r)
  {
    MentionsMeans(First(r.header, "Cache-Control"), "no-store");
    hide Contains, Mentions, First;
  }

  // Trimming a text whose ends are no spaces, with spaces around it, gives it back.
  lemma {:induction false} TrimAround(a: string, m: string, b: string)
    requires Blank(a) && Blank(b) && (m != "" ==> !IsSpace(m[0]) && !IsSpace(m[|m| - 1]))
    ensures TrimSpace(a + m + b) == m
    decreases |a| + |b|
  {
    var s := a + m + b;
    if a != "" {
      assert s[1..] == a[1..] + m + b;
      TrimAround(a[1..], m, b);
    } else if m == "" && b != "" {
      assert s[1..] == a + m + b[1..];
      TrimAround(a, m, b[1..]);
    } else if b != "" {
      assert s[..|s| - 1] == a + m + b[..|b| - 1] && s[0] == m[0];
      TrimAround(a, m, b[..|b| - 1]);
    } else {
      assert s == m;
    }
  }

  lemma LowerKeepsEnds(m: string, word: string)
    requires ToLower(m) == word && word != "" && !IsSpace(word[0]) && !IsSpace(word[|word| - 1])
    ensures m != "" && !IsSpace(m[0]) && !IsSpace(m[|m| - 1])
  {
    ToLowerMeans(m);
    hide ToLower;
  }

  lemma VariesMeans(v: string)
    ensures VariesOn(v) <==> !Blank(v) && !IsAround(v, "accept-encoding")
  {
    var a, b := TrimSpaceMeans(v);
    var t := TrimSpace(v);
    hide TrimSpace, ToLower;
    if t == "" { assert v == a + b; }
    if t != "" { assert v[|a|] == t[0] && v[|a|] in v; }
    if a', m, b' :| v == a' + m + b' && Blank(a') && Blank(b') && ToLower(m) == "accept-encoding" {
      LowerKeepsEnds(m, "accept-encoding");
      TrimAround(a', m, b');
    }
  }

  lemma DirectiveMeans(part: string, n: int)
    ensures GivesAge(part, n) ==> Directive(TrimSpace(part)) == Some(Wrap64(n * NS_PER_SECOND))
  {
    var t := TrimSpace(part);
    hide TrimSpace, Atoi, Wrap64;
    if digits :| Atoi(digits) == Some(n) && t in {"max-age=" + digits, "s-maxage=" + digits} {
      if t == "max-age=" + digits {
        assert t[0] == 'm' && t[..8] == "max-age=" && t[8..] == digits;
      } else {
        assert t[..9] == "s-maxage=" && t[9..] == digits;
      }
    }
  }

  lemma DirectiveGives(part: string) returns (n: int)
    ensures Directive(TrimSpace(part)).Some? ==> GivesAge(part, n)
  {
    var t := TrimSpace(part);
    hide TrimSpace, Atoi, Wrap64;
    n := 0;
    if HasPrefix(t, "s-maxage=") && Atoi(t[9..]).Some? {
      assert t == "s-maxage=" + t[9..];
      n := Atoi(t[9..]).value;
    } else if HasPrefix(t, "max-age=") && Atoi(t[8..]).Some? {
      assert t == "max-age=" + t[8..];
      n := Atoi(t[8..]).value;
    }
  }

  lemma NoAgeMeans(part: string)
    ensures Directive(TrimSpace(part)).None? <==> GivesNoAge(part)
  {
    var n := DirectiveGives(part);
    hide Directive, TrimSpace, GivesAge;
    forall k ensures GivesAge(part, k) ==> Directive(TrimSpace(part)).Some? { DirectiveMeans(part, k); }
  }

  lemma KeptForMeans(r: Response, default: int, ttl: int)
    ensures var age := MaxAge(ToLower(First(r.header, "Cache-Control")));
            IsKeptFor(r, default, ttl) <==> if age.Some? then ttl == age.value > 0 else ttl == default
  {
    var parts := Split(ToLower(First(r.header, "Cache-Control")), ',');
    var k := FirstDirectiveDecides(parts);
    hide Directive, TrimSpace, Split, ToLower, First, GivesAge, GivesNoAge;
    forall i | 0 <= i < |parts| ensures Directive(TrimSpace(parts[i])).None? <==> GivesNoAge(parts[i]) {
      NoAgeMeans(parts[i]);
    }
    forall i, n ensures IsFirstAge(parts, i, n) ==> FirstDirective(parts) == Some(Wrap64(n * NS_PER_SECOND)) {
      FirstAgeDecides(parts, i, n);
    }
    if FirstDirective(parts).Some? {
      var n := DirectiveGives(parts[k]);
      DirectiveMeans(parts[k], n);
      assert IsFirstAge(parts, k, n);
    }
  }

  lemma FirstAgeDecides(parts: seq<string>, i: nat, n: int)
    ensures IsFirstAge(parts, i, n) ==> FirstDirective(parts) == Some(Wrap64(n * NS_PER_SECOND))
  {
    var k := FirstDirectiveDecides(parts);
    hide Directive, TrimSpace, GivesAge, GivesNoAge;
    if IsFirstAge(parts, i, n) {
      DirectiveMeans(parts[i], n);
      forall j | 0 <= j < i ensures Directive(TrimSpace(parts[j])).None? { NoAgeMeans(parts[j]); }
    }
  }

  /** A response is kept for `ttl` if and only if its status and headers allow it, and say so long. */
  lemma ResponseTtlMeans(r: Response, default: int, ttl: int)
    ensures ResponseTtl(r, default) == Some(ttl) <==> MayBeKept(r) && IsKeptFor(r, default, ttl)
  {
    var cc := First(r.header, "Cache-Control");
    MentionsMeans(cc, "no-store");
    MentionsMeans(cc, "private");
    MentionsMeans(cc, "no-cache");
    VariesMeans(First(r.header, "Vary"));
    KeptForMeans(r, default, ttl);
    hide Contains, Mentions, VariesOn, MaxAge, IsKeptFor, ToLower, IsAround, Blank, First;
  }

  lemma ResponseTtlSome(r: Response, default: int)
    ensures ResponseTtl(r, default).Some? ==> MayBeKept(r) && IsKeptFor(r, default, ResponseTtl(r, default).value)
  {
    if ResponseTtl(r, default).Some? { ResponseTtlMeans(r, default, ResponseTtl(r, default).value); }
  }

  // ---------------------------------------------------------------- cache keys

  /** `hostOnly`: what stands before the first colon. */
  function HostOnly(h: string): (r: string)
    ensures forall c :: c in r ==> c in h
  {
    var i := Index(h, ":");
    if i >= 0 then h[..i] else h
  }

  lemma HostOnlyMeans(domain: string, port: string)
    requires ':' !in domain
    ensures HostOnly(domain) == domain == HostOnly(domain + ":" + port)
  {
    IndexOfFirst(domain, ':', port);
    forall k | 0 <= k <= |domain| ensures !HasPrefix(domain[k..], ":") {}
  }

  /** The cache key. */
  function Key(method_: string, domain: string, uri: string): string {
    method_ + " " + domain + " " + uri
  }

  /** With methods and domains free of spaces, two requests share a key only if they agree. */
  lemma KeyInjective(m: string, d: string, u: string, m': string, d': string, u': string)
    requires ' ' !in m && ' ' !in m' && ' ' !in d && ' ' !in d'
    ensures Key(m, d, u) == Key(m', d', u') <==> m == m' && d == d' && u == u'
  {
    if Key(m, d, u) == Key(m', d', u') {
      assert Key(m, d, u) == m + " " + (d + " " + u);
      assert Key(m', d', u') == m' + " " + (d' + " " + u');
      CutAt(m, ' ', d + " " + u, m', d' + " " + u');
      CutAt(d, ' ', u, d', u');
    }
  }

  /** A space in the domain would make keys clash; Go's server refuses such a Host header. */
  lemma SpacesWouldClash()
    ensures Key("GET", "a b", "c") == Key("GET", "a", "b c")
  {}
}

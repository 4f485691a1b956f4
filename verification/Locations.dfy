/**
 Which location of a host serves a path.

 The longest-prefix loop of the edge (`resolveBackend`, internal/edge/server.go) against the
 location routers that the renderer publishes (internal/traefikcfg/render.go), of which Traefik
 runs the matching one with the highest priority.
 */
module Locations {
  import opened Options
  import opened Text
  import opened Hosts
  import HostRule

  /** `pathHasPrefix`. */
  predicate PathHasPrefix(path: string, prefix: string) {
    HasPrefix(path, prefix)
    && var rest := path[|prefix|..];
       rest == "" || rest[0] == '/' || HasSuffix(prefix, "/")
  }

  predicate EdgeMatches(loc: Location, path: string) {
    loc.Usable() && PathHasPrefix(path, loc.pathPrefix)
  }

  /** The edge serves `path` from location `i`: the longest matching prefix, the first of them. */
  ghost predicate EdgeServes(locs: seq<Location>, path: string, i: nat) {
    && i < |locs| && EdgeMatches(locs[i], path)
    && forall j :: 0 <= j < |locs| && EdgeMatches(locs[j], path) ==>
         |locs[j].pathPrefix| < |locs[i].pathPrefix|
         || (|locs[j].pathPrefix| == |locs[i].pathPrefix| && i <= j)
  }

  /**
   In path segments: a prefix that ends in a slash takes everything that continues it, and any other
   prefix takes itself and what continues it with a slash. A location without a prefix or without
   upstreams takes nothing.
   */
  ghost predicate Serves(loc: Location, path: string) {
    var p := loc.pathPrefix;
    && p != "" && loc.upstreams != []
    && if p[|p| - 1] == '/' then exists s :: path == p + s
       else path == p || exists s :: path == p + "/" + s
  }

  ghost predicate ServesLongest(locs: seq<Location>, path: string, i: nat) {
    && i < |locs| && Serves(locs[i], path)
    && forall j :: 0 <= j < |locs| && j != i && Serves(locs[j], path) ==>
         |locs[j].pathPrefix| < |locs[i].pathPrefix| || (|locs[j].pathPrefix| == |locs[i].pathPrefix| && i < j)
  }

  lemma MatchesMeans(loc: Location, path: string)
    ensures EdgeMatches(loc, path) <==> Serves(loc, path)
  {
    var p := loc.pathPrefix;
    PrefixMeans(path, p);
    if HasPrefix(path, p) && |path| > |p| && path[|p|] == '/' {
      assert path == p + "/" + path[|p| + 1..];
    }
    if s :| path == p + "/" + s { assert path[..|p|] == p && path[|p|..] == "/" + s; }
    if s :| path == p + s { assert path[..|p|] == p; }
  }

  lemma ServesMeans(locs: seq<Location>, path: string, i: nat)
    ensures EdgeServes(locs, path, i) <==> ServesLongest(locs, path, i)
  {
    forall j | 0 <= j < |locs| ensures EdgeMatches(locs[j], path) <==> Serves(locs[j], path) {
      MatchesMeans(locs[j], path);
    }
    hide EdgeMatches, Serves;
  }

  /** The location loop of `resolveBackend`. */
  method ResolveLocation(locs: seq<Location>, path: string) returns (r: Option<nat>)
    ensures r.Some? ==> EdgeServes(locs, path, r.value) && ServesLongest(locs, path, r.value)
    ensures r.None? ==> forall i :: 0 <= i < |locs| ==> !EdgeMatches(locs[i], path) && !Serves(locs[i], path)
  {
    forall i: nat ensures EdgeServes(locs, path, i) <==> ServesLongest(locs, path, i) { ServesMeans(locs, path, i); }
    forall i | 0 <= i < |locs| ensures EdgeMatches(locs[i], path) <==> Serves(locs[i], path) {
      MatchesMeans(locs[i], path);
    }
    hide Serves;
    var best := -1;
    r := None;
    for i := 0 to |locs|
      invariant r.None? ==> best == -1 && forall j :: 0 <= j < i ==> !EdgeMatches(locs[j], path)
      invariant r.Some? ==>
        && r.value < i && EdgeMatches(locs[r.value], path) && best == |locs[r.value].pathPrefix|
        && forall j :: 0 <= j < i && EdgeMatches(locs[j], path) ==>
             |locs[j].pathPrefix| < best || (|locs[j].pathPrefix| == best && r.value <= j)
    {
      var loc := locs[i];
      if loc.pathPrefix == "" || loc.upstreams == [] {
        continue;
      }
      if PathHasPrefix(path, loc.pathPrefix) && |loc.pathPrefix| > best {
        best := |loc.pathPrefix|;
        r := Some(i);
      }
    }
  }

  // ---------------------------------------------------------------- the published routers

  function RouterPriority(loc: Location): int { 1000 + |loc.pathPrefix| }

  /** The rule "PathPrefix(`p`)" of a location's router, p without backticks. */
  predicate RouterMatches(loc: Location, path: string) {
    loc.Usable() && HasPrefix(path, HostRule.RuleQuote(loc.pathPrefix))
  }

  /** Traefik may serve `path` from location `i`: no matching location router beats its priority. */
  ghost predicate TraefikServes(locs: seq<Location>, path: string, i: nat) {
    && i < |locs| && RouterMatches(locs[i], path)
    && forall j :: 0 <= j < |locs| && RouterMatches(locs[j], path) ==>
         RouterPriority(locs[j]) <= RouterPriority(locs[i])
  }

  ghost predicate Agree(locs: seq<Location>, path: string) {
    forall i :: 0 <= i < |locs| ==> (EdgeServes(locs, path, i) <==> TraefikServes(locs, path, i))
  }

  ghost predicate DistinctPrefixes(locs: seq<Location>) {
    forall i, j :: 0 <= i < j < |locs| && locs[i].Usable() && locs[j].Usable() ==>
      locs[i].pathPrefix != locs[j].pathPrefix
  }

  /** The prefix ends in a slash and holds no backtick. */
  predicate WellFormed(prefix: string) {
    HasSuffix(prefix, "/") && HostRule.BACKTICK !in prefix
  }

  lemma LongestMatch(locs: seq<Location>, path: string, i: nat) returns (w: nat)
    requires i < |locs| && RouterMatches(locs[i], path)
    ensures TraefikServes(locs, path, w) && |locs[w].pathPrefix| >= |locs[i].pathPrefix|
  {
    w := i;
    for j := 0 to |locs|
      invariant w < |locs| && RouterMatches(locs[w], path) && |locs[w].pathPrefix| >= |locs[i].pathPrefix|
      invariant forall k :: 0 <= k < j && RouterMatches(locs[k], path) ==>
                  |locs[k].pathPrefix| <= |locs[w].pathPrefix|
    {
      if RouterMatches(locs[j], path) && |locs[j].pathPrefix| > |locs[w].pathPrefix| {
        w := j;
      }
    }
  }

  lemma AgreeOnWellFormed(locs: seq<Location>, path: string)
    requires DistinctPrefixes(locs)
    requires forall loc :: loc in locs && loc.Usable() ==> WellFormed(loc.pathPrefix)
    ensures Agree(locs, path)
  {
    forall loc | loc in locs ensures EdgeMatches(loc, path) <==> RouterMatches(loc, path) {}
    // Of two prefixes of one path, equally long ones are the same prefix.
    forall i, j | 0 <= i < |locs| && 0 <= j < |locs| && RouterMatches(locs[i], path)
                  && RouterMatches(locs[j], path) && |locs[i].pathPrefix| == |locs[j].pathPrefix|
      ensures i == j
    {}
  }

  // A backtick makes the router's priority outgrow the prefix that it matches.
  lemma DisagreeOnBacktick(locs: seq<Location>, i: nat) returns (path: string)
    requires i < |locs| && locs[i].Usable() && HostRule.BACKTICK in locs[i].pathPrefix
    ensures !Agree(locs, path)
  {
    path := HostRule.RuleQuote(locs[i].pathPrefix);
    QuoteShortens(locs[i].pathPrefix);
    var w := LongestMatch(locs, path, i);
  }

  lemma {:induction false} QuoteShortens(s: string)
    ensures |HostRule.RuleQuote(s)| <= |s|
    ensures HostRule.BACKTICK in s ==> |HostRule.RuleQuote(s)| < |s|
  {
    if s != "" { QuoteShortens(s[1..]); }
  }

  function Longest(locs: seq<Location>): (n: nat)
    ensures forall loc :: loc in locs ==> |loc.pathPrefix| <= n
  {
    if locs == [] then 0
    else var n := Longest(locs[1..]);
         if |locs[0].pathPrefix| > n then |locs[0].pathPrefix| else n
  }

  // Without a final slash the router also matches "/apix", which the edge keeps apart from "/api".
  lemma DisagreeOnMissingSlash(locs: seq<Location>, i: nat) returns (path: string)
    requires i < |locs| && locs[i].Usable() && !HasSuffix(locs[i].pathPrefix, "/")
    requires forall loc :: loc in locs && loc.Usable() ==> HostRule.BACKTICK !in loc.pathPrefix
    ensures !Agree(locs, path)
  {
    var p := locs[i].pathPrefix;
    path := p + seq(Longest(locs) + 1, _ => 'x');
    assert HasPrefix(path, p);
    var w := LongestMatch(locs, path, i);
    var q := locs[w].pathPrefix;
    assert |q| >= |p| && q == path[..|q|] && |q| < |path|;
    assert path[|q|..][0] == path[|q|] == 'x';
    assert q[|q| - 1..] == [q[|q| - 1]] && q[|q| - 1] == path[|q| - 1];
    assert p[|p| - 1..] == [p[|p| - 1]];
    assert !EdgeServes(locs, path, w);
  }

  // Any other prefix gives a path on which the location routers and the edge disagree.
  lemma DisagreeingPath(locs: seq<Location>) returns (path: string)
    requires !(forall loc :: loc in locs && loc.Usable() ==> WellFormed(loc.pathPrefix))
    ensures !Agree(locs, path)
  {
    if i :| 0 <= i < |locs| && locs[i].Usable() && HostRule.BACKTICK in locs[i].pathPrefix {
      path := DisagreeOnBacktick(locs, i);
    } else {
      var loc :| loc in locs && loc.Usable() && !WellFormed(loc.pathPrefix);
      var i :| 0 <= i < |locs| && locs[i] == loc;
      path := DisagreeOnMissingSlash(locs, i);
    }
  }

  /**
   Among themselves, the location routers of a host with distinct prefixes agree with the edge on
   every path exactly when all usable prefixes end in a slash and hold no backtick. What the other
   routers of the host add to that is in HostRouting.
   */
  lemma LocationRoutersAgree(locs: seq<Location>)
    requires DistinctPrefixes(locs)
    ensures (forall path :: Agree(locs, path))
       <==> (forall loc :: loc in locs && loc.Usable() ==> WellFormed(loc.pathPrefix))
  {
    if forall loc :: loc in locs && loc.Usable() ==> WellFormed(loc.pathPrefix) {
      forall path ensures Agree(locs, path) { AgreeOnWellFormed(locs, path); }
    } else {
      var path := DisagreeingPath(locs);
    }
  }
}

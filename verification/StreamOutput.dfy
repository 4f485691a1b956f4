/** What the stream hosts come to in the whole output. */
module StreamOutput {
  import opened Text
  import opened Hosts
  import opened HostRule
  import opened RenderSpec

  // ---------------------------------------------------------------- alternatives of a rule

  const ANY_SNI := "HostSNI(`*`)"

  /** From `i` on, the rule has the text between its beginning or an "||" and its end or an "||". */
  predicate AlternativeAt(rule: string, alt: string, i: nat) {
    var e := i + |alt|;
    && e <= |rule| && rule[i..e] == alt
    && (i == 0 || HasSuffix(rule[..i], OR)) && (e == |rule| || HasPrefix(rule[e..], OR))
  }

  ghost predicate HasAlternative(rule: string, alt: string) { exists i: nat :: AlternativeAt(rule, alt, i) }

  function SniPart(d: string): string { "HostSNI(`" + RuleQuote(d) + "`)" }

  lemma {:induction false} SniPartsCons(ds: seq<string>)
    requires ds != []
    ensures |SniParts(ds)| == |ds| && SniParts(ds) == [SniPart(ds[0])] + SniParts(ds[1..])
  {
    if |ds| > 1 {
      SniPartsCons(ds[..|ds| - 1]);
      assert ds[1..][..|ds| - 2] == ds[..|ds| - 1][1..];
      assert ds[1..][|ds| - 2] == ds[|ds| - 1];
    }
  }

  function SniRule(ds: seq<string>): string { Join(SniParts(ds), OR) }

  /** What follows the first name in the rule. */
  function AfterFirst(ds: seq<string>): string
    requires ds != []
  {
    if |ds| == 1 then "" else OR + SniRule(ds[1..])
  }

  lemma SniRuleCons(ds: seq<string>)
    requires ds != []
    ensures SniRule(ds) == SniPart(ds[0]) + AfterFirst(ds)
  {
    SniPartsCons(ds);
    if |ds| > 1 { SniPartsCons(ds[1..]); }
    JoinMore(SniPart(ds[0]), SniParts(ds[1..]));
    hide SniParts, Join, SniPart;
  }

  lemma JoinMore(first: string, rest: seq<string>)
    ensures Join([first] + rest, OR) == if rest == [] then first + "" else first + (OR + Join(rest, OR))
  {
    assert ([first] + rest)[1..] == rest;
    if rest != [] { Regroup(first, OR, Join(rest, OR)); }
  }

  predicate OccursAt(text: string, alt: string, i: nat) { i + |alt| <= |text| && text[i..i + |alt|] == alt }

  // The catch-all is the first name, or it stands after it and an "||".
  lemma FirstOrLater(q: string, rest: string, i: nat)
    requires BACKTICK !in q && (rest == "" || OR + "HostSNI(`" <= rest)
    requires OccursAt("HostSNI(`" + q + "`)" + rest, ANY_SNI, i)
    ensures (i == 0 && q == "*") || (rest != "" && i >= |q| + 15)
  {
    var rule := "HostSNI(`" + q + "`)" + rest;
    var (n, b) := (|q| + 11, i + 8);
    assert rule[b] == ANY_SNI[8] == BACKTICK && rule[b + 1] == ANY_SNI[9] == '*'
        && rule[b + 2] == ANY_SNI[10] == BACKTICK;
    assert forall k :: 0 <= k < |q| ==> rule[9 + k] == q[k];
    assert rule[n - 2] == BACKTICK && rule[n - 1] == ')';
    if b >= n {
      assert rest[..13] == OR + "HostSNI(`";
      assert forall k :: 0 <= k < 12 ==> rule[n + k] == rest[k] == (OR + "HostSNI(`")[k] != BACKTICK;
    }
  }

  lemma FirstIsAlternative(alt: string, rest: string)
    requires rest == "" || HasPrefix(rest, OR)
    ensures AlternativeAt(alt + rest, alt, 0)
  {
    assert (alt + rest)[|alt|..] == rest;
  }

  lemma LaterAlternative(front: string, rule: string, alt: string, j: nat)
    requires AlternativeAt(rule, alt, j)
    ensures AlternativeAt(front + OR + rule, alt, |front| + 4 + j)
  {
    var (whole, i) := (front + OR + rule, |front| + 4 + j);
    assert whole[..i] == front + OR + rule[..j];
    assert whole[i..i + |alt|] == rule[j..j + |alt|];
    assert whole[i + |alt|..] == rule[j + |alt|..];
    assert HasSuffix(rule[..j], OR) ==> whole[i - 4..i] == rule[j - 4..j];
  }

  lemma LaterText(front: string, rule: string, alt: string, i: nat)
    requires OccursAt(front + OR + rule, alt, i) && i >= |front| + 4
    ensures OccursAt(rule, alt, i - |front| - 4)
  {
    assert (front + OR + rule)[i..i + |alt|] == rule[i - |front| - 4..i - |front| - 4 + |alt|];
  }

  lemma QuoteAllCons(ds: seq<string>)
    requires ds != []
    ensures "*" in QuoteAll(ds) <==> RuleQuote(ds[0]) == "*" || "*" in QuoteAll(ds[1..])
  {
    assert QuoteAll(ds) == [RuleQuote(ds[0])] + QuoteAll(ds[1..]);
  }

  lemma StartOfRest(ds: seq<string>)
    requires ds != []
    ensures AfterFirst(ds) == "" || OR + "HostSNI(`" <= AfterFirst(ds)
    ensures |ds| == 1 ==> AfterFirst(ds) == ""
  {
    if |ds| > 1 {
      SniRuleCons(ds[1..]);
      hide SniRule;
      var part := SniPart(ds[1]);
      assert part[..9] == "HostSNI(`";
      assert AfterFirst(ds)[..13] == OR + part[..9];
    }
  }

  lemma Regroup(a: string, b: string, c: string)
    ensures a + b + c == a + (b + c)
  {}

  lemma SniRuleStep(ds: seq<string>)
    requires |ds| > 1
    ensures SniRule(ds) == SniPart(ds[0]) + OR + SniRule(ds[1..])
  {
    SniRuleCons(ds);
    Regroup(SniPart(ds[0]), OR, SniRule(ds[1..]));
    hide SniRule, SniPart;
  }

  lemma CatchAllStep(ds: seq<string>, i: nat)
    requires ds != [] && OccursAt(SniRule(ds), ANY_SNI, i) && RuleQuote(ds[0]) != "*"
    ensures i >= |SniPart(ds[0])| + 4 && OccursAt(SniRule(ds[1..]), ANY_SNI, i - |SniPart(ds[0])| - 4)
  {
    SniRuleCons(ds);
    StartOfRest(ds);
    if |ds| > 1 { SniRuleStep(ds); }
    hide SniRule, AfterFirst, OccursAt;
    FirstOrLater(RuleQuote(ds[0]), AfterFirst(ds), i);
    LaterText(SniPart(ds[0]), SniRule(ds[1..]), ANY_SNI, i);
  }

  lemma {:induction false} CatchAllIsNamed(ds: seq<string>, i: nat)
    requires OccursAt(SniRule(ds), ANY_SNI, i)
    ensures "*" in QuoteAll(ds)
  {
    if ds != [] {
      QuoteAllCons(ds);
      hide SniRule, QuoteAll, OccursAt, RuleQuote;
      if RuleQuote(ds[0]) != "*" {
        CatchAllStep(ds, i);
        CatchAllIsNamed(ds[1..], i - |SniPart(ds[0])| - 4);
      }
    }
  }

  lemma FirstNamed(ds: seq<string>)
    requires ds != [] && RuleQuote(ds[0]) == "*"
    ensures AlternativeAt(SniRule(ds), ANY_SNI, 0)
  {
    SniRuleCons(ds);
    StartOfRest(ds);
    hide SniRule, AlternativeAt, RuleQuote, AfterFirst;
    FirstIsAlternative(ANY_SNI, AfterFirst(ds));
    assert SniPart(ds[0]) == ANY_SNI;
  }

  lemma LaterNamed(ds: seq<string>, j: nat)
    requires |ds| > 1 && AlternativeAt(SniRule(ds[1..]), ANY_SNI, j)
    ensures AlternativeAt(SniRule(ds), ANY_SNI, |SniPart(ds[0])| + 4 + j)
  {
    SniRuleStep(ds);
    hide SniRule, AlternativeAt, SniPart;
    LaterAlternative(SniPart(ds[0]), SniRule(ds[1..]), ANY_SNI, j);
  }

  lemma {:induction false} NamedIsCatchAll(ds: seq<string>) returns (i: nat)
    requires "*" in QuoteAll(ds)
    ensures AlternativeAt(SniRule(ds), ANY_SNI, i)
  {
    hide SniRule, AlternativeAt, RuleQuote, SniPart, QuoteAll;
    assert ds != [] && |QuoteAll(ds[1..])| == |ds| - 1;
    QuoteAllCons(ds);
    if RuleQuote(ds[0]) == "*" {
      FirstNamed(ds);
      i := 0;
    } else {
      var j := NamedIsCatchAll(ds[1..]);
      LaterNamed(ds, j);
      i := |SniPart(ds[0])| + 4 + j;
    }
  }

  /** The rule names the catch-all, as one alternative among any others, exactly when the domains do. */
  lemma CatchAllAlternative(ds: seq<string>)
    ensures HasAlternative(SniRule(ds), ANY_SNI) <==> "*" in QuoteAll(ds)
  {
    hide SniRule, QuoteAll;
    if i: nat :| AlternativeAt(SniRule(ds), ANY_SNI, i) { CatchAllIsNamed(ds, i); }
    if "*" in QuoteAll(ds) { var i := NamedIsCatchAll(ds); }
  }

  // ---------------------------------------------------------------- passthrough

  /** The host writes a TCP router. */
  predicate RendersTcp(h: Host) { h.upstreams != [] && h.streamEntryPoint != "" && ToLower(h.streamProto) != "udp" }

  /** A router passes TLS through under the catch-all name, which Traefik does not allow. */
  ghost predicate PassesAnyThrough(r: StreamRouter) { r.passthrough && HasAlternative(r.rule, ANY_SNI) }

  predicate PassesStarThrough(h: Host) { RendersTcp(h) && h.tlsPassthrough && "*" in QuoteAll(h.domains) }

  /**
   A stream host passes TLS through under a rule with the catch-all name if and only if it renders
   a TCP router, passthrough is on, and "*" is among its domains, alone or beside other names.
   */
  lemma CatchAllPassthrough(h: Host)
    ensures (exists k :: k in StreamParts(h).tcpRouters && PassesAnyThrough(StreamParts(h).tcpRouters[k]))
       <==> PassesStarThrough(h)
  {
    CatchAllAlternative(h.domains);
    var (m, name) := (StreamParts(h).tcpRouters, RouterName(h.id));
    assert SniRule(h.domains) == Join(SniParts(h.domains), OR);
    hide SniParts, Join, ToLower, RouterName, ServiceName, QuoteAll, HasAlternative, SniRule;
    assert RendersTcp(h) <==> name in m;
    assert h.domains == [] ==> QuoteAll(h.domains) == [];
    if name in m { assert PassesAnyThrough(m[name]) <==> PassesStarThrough(h); }
  }

  // ---------------------------------------------------------------- the whole output

  predicate IsStream(h: Host) { h.enabled && h.kind == Stream }

  /** The TCP or the UDP routers of a configuration. */
  function Flows(c: Cfg, udp: bool): map<string, StreamRouter> { if udp then c.udpRouters else c.tcpRouters }

  lemma AddHostFlows(c: Cfg, h: Host, inp: Inputs, udp: bool)
    ensures Flows(AddHost(c, h, inp), udp)
        == if IsStream(h) then Flows(c, udp) + Flows(StreamParts(h), udp) else Flows(c, udp)
  {
    OtherPartsFlowNot(h, inp);
    OverFlows(c, ProxyParts(h, inp), udp);
    OverFlows(WithNoop(c), RedirectionParts(h, inp), udp);
    OverFlows(WithNoop(c), DeadParts(h, inp), udp);
    OverFlows(c, StreamParts(h), udp);
    NoopFlowsNot(c, udp);
    PlusNothing(Flows(c, udp));
    hide ProxyParts, RedirectionParts, DeadParts, StreamParts, Over, WithNoop, Flows;
  }

  lemma NoopFlowsNot(c: Cfg, udp: bool)
    ensures Flows(WithNoop(c), udp) == Flows(c, udp)
  {}

  lemma PlusNothing<T>(m: map<string, T>)
    ensures m + map[] == m
  {}

  lemma OverFlows(c: Cfg, d: Cfg, udp: bool)
    ensures Flows(Over(c, d), udp) == Flows(c, udp) + Flows(d, udp)
  {}

  lemma OtherPartsFlowNot(h: Host, inp: Inputs)
    ensures forall udp :: Flows(ProxyParts(h, inp), udp) == map[]
    ensures forall udp :: Flows(RedirectionParts(h, inp), udp) == map[] == Flows(DeadParts(h, inp), udp)
  {}

  lemma SharedPartsFlowNot(inp: Inputs)
    ensures forall udp :: Flows(BaseParts(inp), udp) == map[]
    ensures forall udp :: Flows(DefaultParts(inp), udp) == map[] == Flows(BannedParts(inp), udp)
  {}

  lemma RenderedFlows(inp: Inputs, udp: bool)
    ensures Flows(Rendered(inp), udp) == Flows(AddHosts(BaseParts(inp), inp.hosts, inp), udp)
  {
    SharedPartsFlowNot(inp);
    var c := AddHosts(BaseParts(inp), inp.hosts, inp);
    OverFlows(c, DefaultParts(inp), udp);
    OverFlows(Over(c, DefaultParts(inp)), BannedParts(inp), udp);
    hide AddHosts, BaseParts, DefaultParts, BannedParts, Over;
  }

  /** The rows of a table have ids of their own. */
  predicate DistinctIds(hosts: seq<Host>) { forall i, j :: 0 <= i < j < |hosts| ==> hosts[i].id != hosts[j].id }

  predicate FlowOf(hosts: seq<Host>, i: int, udp: bool, k: string, r: StreamRouter) {
    && 0 <= i < |hosts| && IsStream(hosts[i]) && k in Flows(StreamParts(hosts[i]), udp)
    && Flows(StreamParts(hosts[i]), udp)[k] == r
  }

  predicate IsAt<T(==)>(m: map<string, T>, k: string, r: T) { k in m && m[k] == r }

  lemma FlowName(h: Host, udp: bool, k: string)
    requires k in Flows(StreamParts(h), udp)
    ensures k == RouterName(h.id)
  {
    hide ToLower, SniParts, Join, RouterName, ServiceName;
  }

  lemma RouterNamesDiffer(a: string, b: string)
    ensures RouterName(a) == RouterName(b) ==> a == b
  {
    assert RouterName(a)[5..] == a && RouterName(b)[5..] == b;
  }

  lemma OneFlowOnly(hosts: seq<Host>, i: nat, j: nat, udp: bool, k: string)
    requires i < j < |hosts| && DistinctIds(hosts)
    ensures !(k in Flows(StreamParts(hosts[i]), udp) && k in Flows(StreamParts(hosts[j]), udp))
  {
    hide StreamParts, Flows;
    if k in Flows(StreamParts(hosts[i]), udp) && k in Flows(StreamParts(hosts[j]), udp) {
      FlowName(hosts[i], udp, k);
      FlowName(hosts[j], udp, k);
      RouterNamesDiffer(hosts[i].id, hosts[j].id);
    }
  }

  lemma FlowOfOneMore(before: seq<Host>, last: Host, udp: bool, k: string, r: StreamRouter)
    ensures (exists i :: FlowOf(before + [last], i, udp, k, r))
       <==> (exists i :: FlowOf(before, i, udp, k, r)) || (IsStream(last) && IsAt(Flows(StreamParts(last), udp), k, r))
  {
    hide StreamParts, Flows, IsStream;
    var n := |before|;
    forall i ensures FlowOf(before, i, udp, k, r) <==> i != n && FlowOf(before + [last], i, udp, k, r) {}
    assert FlowOf(before + [last], n, udp, k, r) <==> IsStream(last) && IsAt(Flows(StreamParts(last), udp), k, r);
  }

  lemma OneMoreHost(c: Cfg, before: seq<Host>, last: Host, inp: Inputs, udp: bool)
    ensures Flows(AddHosts(c, before + [last], inp), udp)
         == if IsStream(last) then Flows(AddHosts(c, before, inp), udp) + Flows(StreamParts(last), udp)
            else Flows(AddHosts(c, before, inp), udp)
  {
    assert (before + [last])[..|before|] == before;
    AddHostFlows(AddHosts(c, before, inp), last, inp, udp);
    hide AddHost, Flows, StreamParts;
  }

  lemma {:induction false} FlowsOfHosts(c: Cfg, hosts: seq<Host>, inp: Inputs, udp: bool, k: string, r: StreamRouter)
    requires DistinctIds(hosts) && Flows(c, udp) == map[]
    ensures IsAt(Flows(AddHosts(c, hosts, inp), udp), k, r) <==> exists i :: FlowOf(hosts, i, udp, k, r)
  {
    if hosts != [] {
      var (before, last) := (hosts[..|hosts| - 1], hosts[|hosts| - 1]);
      assert hosts == before + [last];
      OneMoreHost(c, before, last, inp, udp);
      FlowsOfHosts(c, before, inp, udp, k, r);
      FlowOfOneMore(before, last, udp, k, r);
      forall i: nat | i < |before| ensures k in Flows(StreamParts(last), udp) ==> !FlowOf(before, i, udp, k, r) {
        OneFlowOnly(hosts, i, |before|, udp, k);
      }
      hide StreamParts, AddHosts, Flows, IsStream;
    }
  }

  /** A stream router of the output is one of its stream hosts' own, and each of those is there. */
  lemma FlowsOfOutput(inp: Inputs, udp: bool, k: string, r: StreamRouter)
    requires DistinctIds(inp.hosts)
    ensures IsAt(Flows(Rendered(inp), udp), k, r) <==> exists i :: FlowOf(inp.hosts, i, udp, k, r)
  {
    RenderedFlows(inp, udp);
    SharedPartsFlowNot(inp);
    FlowsOfHosts(BaseParts(inp), inp.hosts, inp, udp, k, r);
    hide AddHosts, Flows, BaseParts, Rendered;
  }

  /**
   The output has a TCP router that passes TLS through under a rule with the catch-all name if and
   only if some stream host asks for it.
   */
  lemma CatchAllInOutput(inp: Inputs)
    requires DistinctIds(inp.hosts)
    ensures (exists k :: k in Rendered(inp).tcpRouters && PassesAnyThrough(Rendered(inp).tcpRouters[k]))
       <==> exists h :: h in inp.hosts && IsStream(h) && PassesStarThrough(h)
  {
    hide Rendered, PassesAnyThrough, PassesStarThrough, IsStream;
    if k :| k in Rendered(inp).tcpRouters && PassesAnyThrough(Rendered(inp).tcpRouters[k]) { CatchAllHost(inp, k); }
    if h :| h in inp.hosts && IsStream(h) && PassesStarThrough(h) {
      var i :| 0 <= i < |inp.hosts| && inp.hosts[i] == h;
      var k := CatchAllRouter(inp, i);
    }
  }

  lemma CatchAllHost(inp: Inputs, k: string)
    requires DistinctIds(inp.hosts) && k in Rendered(inp).tcpRouters && PassesAnyThrough(Rendered(inp).tcpRouters[k])
    ensures exists h :: h in inp.hosts && IsStream(h) && PassesStarThrough(h)
  {
    var r := Rendered(inp).tcpRouters[k];
    FlowsOfOutput(inp, false, k, r);
    hide Rendered, PassesAnyThrough, PassesStarThrough, IsStream;
    var i :| FlowOf(inp.hosts, i, false, k, r);
    CatchAllPassthrough(inp.hosts[i]);
    hide StreamParts;
    assert inp.hosts[i] in inp.hosts;
  }

  lemma CatchAllRouter(inp: Inputs, i: nat) returns (k: string)
    requires DistinctIds(inp.hosts) && i < |inp.hosts| && IsStream(inp.hosts[i]) && PassesStarThrough(inp.hosts[i])
    ensures k in Rendered(inp).tcpRouters && PassesAnyThrough(Rendered(inp).tcpRouters[k])
  {
    var h := inp.hosts[i];
    CatchAllPassthrough(h);
    hide StreamParts, PassesAnyThrough, PassesStarThrough, IsStream, Rendered;
    k :| k in StreamParts(h).tcpRouters && PassesAnyThrough(StreamParts(h).tcpRouters[k]);
    assert FlowOf(inp.hosts, i, false, k, StreamParts(h).tcpRouters[k]);
    FlowsOfOutput(inp, false, k, StreamParts(h).tcpRouters[k]);
  }

  // ---------------------------------------------------------------- what a stream host does

  /** The host has an entry point and a backend. */
  predicate IsComplete(h: Host) { h.upstreams != [] && h.streamEntryPoint != "" }

  /**
   A complete stream host has one router, from its entry point to its first upstream: for UDP if it
   says so in any case of letters, else for TCP, where it takes the domains it names, or any client.
   */
  lemma StreamMeans(h: Host)
    ensures var (c, udp) := (StreamParts(h), ToLower(h.streamProto) == "udp");
            var (name, svc) := (RouterName(h.id), ServiceName(h.id));
            if !IsComplete(h) then c == Empty
            else
              && Flows(c, udp).Keys == {name} && Flows(c, !udp) == map[]
              && Flows(c, udp)[name].entryPoint == h.streamEntryPoint && Flows(c, udp)[name].service == svc
              && (if udp then c.udpServices else c.tcpServices)
                 == map[svc := StreamService(h.upstreams[0].host, h.upstreams[0].port)]
              && (!udp ==>
                    && Flows(c, udp)[name].rule == (if h.domains == [] then ANY_SNI else SniRule(h.domains))
                    && (Flows(c, udp)[name].passthrough <==> h.tlsPassthrough && h.domains != []))
  {
    hide ToLower, SniParts, Join, RouterName, ServiceName;
  }

  lemma {:induction false} SniPartsAre(ds: seq<string>)
    ensures |SniParts(ds)| == |ds|
    ensures forall i :: 0 <= i < |ds| ==> SniParts(ds)[i] == "HostSNI(`" + RuleQuote(ds[i]) + "`)"
  {
    if ds != [] { SniPartsAre(ds[..|ds| - 1]); }
  }

  // ---------------------------------------------------------------- bans

  lemma {:induction false} FlowsIgnoreInputs(c: Cfg, d: Cfg, hosts: seq<Host>, inp: Inputs, inp': Inputs, udp: bool)
    requires Flows(c, udp) == Flows(d, udp)
    ensures Flows(AddHosts(c, hosts, inp), udp) == Flows(AddHosts(d, hosts, inp'), udp)
  {
    if hosts != [] {
      var (before, last) := (hosts[..|hosts| - 1], hosts[|hosts| - 1]);
      assert hosts == before + [last];
      FlowsIgnoreInputs(c, d, before, inp, inp', udp);
      OneMoreHost(c, before, last, inp, udp);
      OneMoreHost(d, before, last, inp', udp);
      hide AddHosts, Flows, StreamParts;
    }
  }

  /** Bans reach no stream host: its routers are those of an output without bans. */
  lemma BansSpareStreams(inp: Inputs, udp: bool)
    ensures Flows(Rendered(inp), udp) == Flows(Rendered(inp.(bannedIps := [])), udp)
  {
    var free := inp.(bannedIps := []);
    RenderedFlows(inp, udp);
    RenderedFlows(free, udp);
    SharedPartsFlowNot(inp);
    SharedPartsFlowNot(free);
    hide AddHosts, Flows, BaseParts, Rendered;
    FlowsIgnoreInputs(BaseParts(inp), BaseParts(free), inp.hosts, inp, free, udp);
  }
}

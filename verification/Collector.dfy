/** The metrics collector of internal/secmetrics/collector.go. */
module Collector {
  import opened LossyCount
  import opened Ranking
  import opened TopLists
  import opened EventLog
  import Newest
  import Series = HourlySeries

  // The class keeps, beside its own fields, the log of all events it was given; its invariant says
  // what the bounded fields still tell about that log, and every `Add` carries it on.

  const MAX_COUNT_KEYS := 50000
  const KEEP_COUNT_KEYS := 40000
  const RECENT_MAX := 200
  const TOP := 10

  datatype RuleCounter = RuleCounter(count: nat, msg: string)

  // ---------------------------------------------------------------- the maps without a cap

  /** A map without a cap holds the true count of every key. */
  ghost predicate Exactly(m: Counts, ks: seq<string>) {
    forall k :: Get(m, k) == Count(ks, k) && (k in m <==> Count(ks, k) > 0)
  }

  lemma BumpExactly(m: Counts, ks: seq<string>, k: string)
    requires Exactly(m, ks)
    ensures Exactly(Bump(m, k), ks + [k])
  {
    var all := ks + [k];
    assert all[..|ks|] == ks;
    forall x ensures Get(Bump(m, k), x) == Count(all, x) && (x in Bump(m, k) <==> Count(all, x) > 0) {
      assert Get(m, x) == Count(ks, x);
    }
  }

  function RuleCounts(m: map<string, RuleCounter>): Counts {
    map k | k in m :: m[k].count
  }

  ghost predicate RulesExact(m: map<string, RuleCounter>, log: seq<Event>) {
    && Exactly(RuleCounts(m), Keys(log, Rule))
    && forall k :: k in m ==> m[k].msg == FirstMessage(log, k)
  }

  // The empty value is never counted, and a rule without events has no message.
  lemma {:induction false} UncountedKeys(log: seq<Event>, f: Field, k: string)
    ensures Count(Keys(log, f), "") == 0
    ensures f == Rule && k != "" && Count(Keys(log, f), k) == 0 ==> FirstMessage(log, k) == ""
  {
    if log != [] {
      var before, e := log[..|log| - 1], log[|log| - 1];
      assert log == before + [e];
      hide Keys, Count, FirstMessage;
      UncountedKeys(before, f, k);
      KeysGrow(before, e, f);
      MessageGrows(before, e, k);
      CountGrows(Keys(before, f), FieldOf(e, f), k);
      CountGrows(Keys(before, f), FieldOf(e, f), "");
    }
  }

  function CountRule(m: map<string, RuleCounter>, e: Event): map<string, RuleCounter> {
    if e.ruleID == "" then m
    else
      var cr := if e.ruleID in m then m[e.ruleID] else RuleCounter(0, "");
      m[e.ruleID := RuleCounter(cr.count + 1, if cr.msg == "" then e.message else cr.msg)]
  }

  lemma RuleStep(m: map<string, RuleCounter>, log: seq<Event>, e: Event)
    requires RulesExact(m, log)
    ensures RulesExact(CountRule(m, e), log + [e])
  {
    hide Keys, Count, FirstMessage;
    KeysGrow(log, e, Rule);
    UncountedKeys(log, Rule, e.ruleID);
    var m' := CountRule(m, e);
    if e.ruleID == "" {
      assert "" !in RuleCounts(m);
    } else {
      BumpExactly(RuleCounts(m), Keys(log, Rule), e.ruleID);
      assert RuleCounts(m') == Bump(RuleCounts(m), e.ruleID);
      assert e.ruleID in m <==> e.ruleID in RuleCounts(m);
    }
    forall k | k in m' ensures m'[k].msg == FirstMessage(log + [e], k) {
      MessageGrows(log, e, k);
    }
  }

  function CountCategory(m: Counts, e: Event): Counts {
    if e.category != "" then Bump(m, e.category) else m
  }

  lemma CategoryStep(m: Counts, log: seq<Event>, e: Event)
    requires Exactly(m, Keys(log, Category))
    ensures Exactly(CountCategory(m, e), Keys(log + [e], Category))
  {
    KeysGrow(log, e, Category);
    if e.category != "" {
      BumpExactly(m, Keys(log, Category), e.category);
    }
  }

  function BumpField(m: Counts, v: string): Counts { if v != "" then Bump(m, v) else m }

  // A bounded map counts one event; the result is one more eviction if that overflowed it.
  lemma FieldStep(m: Counts, m': Counts, log: seq<Event>, e: Event, f: Field, ev: nat) returns (ev': nat)
    requires Lossy(m, Keys(log, f), ev, MAX_COUNT_KEYS, KEEP_COUNT_KEYS)
    requires Capped(BumpField(m, FieldOf(e, f)), m', MAX_COUNT_KEYS, KEEP_COUNT_KEYS)
    ensures Lossy(m', Keys(log + [e], f), ev', MAX_COUNT_KEYS, KEEP_COUNT_KEYS)
    ensures ev' == if |BumpField(m, FieldOf(e, f))| > MAX_COUNT_KEYS then ev + 1 else ev
  {
    KeysGrow(log, e, f);
    if FieldOf(e, f) != "" {
      AddKeepsBound(m, m', Keys(log, f), FieldOf(e, f), ev, MAX_COUNT_KEYS, KEEP_COUNT_KEYS);
      ev' := if |Bump(m, FieldOf(e, f))| <= MAX_COUNT_KEYS then ev else ev + 1;
    } else {
      ev' := ev;
    }
  }

  lemma LatestStep(log: seq<Event>, e: Event, n: nat)
    ensures Latest(Latest(log, n) + [e], n) == Latest(log + [e], n)
  {}

  // ---------------------------------------------------------------- the class

  datatype RuleTop = RuleTop(entry: NamedCount, rlabel: string)

  datatype Snapshot = Snapshot(total: int, blocked: int, topRules: seq<RuleTop>, categories: seq<NamedCount>,
                               topIPs: seq<NamedCount>, topHosts: seq<NamedCount>,
                               series: seq<nat>, recent: seq<Event>)

  class Collector {
    var total: int
    var blocked: int
    var byRule: map<string, RuleCounter>
    var byCategory: Counts
    var byIP: Counts
    var byHost: Counts
    var hourly: Series.Buckets
    var recent: seq<Event>  // newest last

    ghost var log: seq<Event>     // every event ever added
    ghost var ipEvictions: nat    // how often byIP was cut down
    ghost var hostEvictions: nat  // how often byHost was cut down
    ghost var clock: int          // when the last event was added
    ghost var timely: bool        // no event was stamped after its clock, and no clock went back

    ghost predicate Valid()
      reads this
    {
      && total == |log| && blocked == Blocked(log) && KeysCounted(log)
      && HoursCounted(log)
      && recent == Latest(log, RECENT_MAX)
    }

    /** The four maps against the events of `seen`. */
    ghost predicate KeysCounted(seen: seq<Event>)
      reads this`byRule, this`byCategory, this`byIP, this`byHost, this`ipEvictions, this`hostEvictions
    {
      && RulesExact(byRule, seen) && Exactly(byCategory, Keys(seen, Category))
      && Lossy(byIP, Keys(seen, ClientIP), ipEvictions, MAX_COUNT_KEYS, KEEP_COUNT_KEYS)
      && Lossy(byHost, Keys(seen, Host), hostEvictions, MAX_COUNT_KEYS, KEEP_COUNT_KEYS)
    }

    /** The hourly buckets against the events of `seen`. */
    ghost predicate HoursCounted(seen: seq<Event>)
      reads this`hourly, this`clock, this`timely
    {
      timely ==> Series.Exact(hourly, Stamps(seen), clock, Series.MAX_HOUR_BUCKETS)
    }

    constructor (now: int)
      ensures Valid() && log == [] && clock == now && timely
    {
      total, blocked := 0, 0;
      byRule, byCategory, byIP, byHost, hourly, recent := map[], map[], map[], map[], map[], [];
      log, ipEvictions, hostEvictions, clock, timely := [], 0, 0, now, true;
    }

    /** `add`. Only the hours depend on how the event is stamped and on the clock. */
    method Add(e: Event, now: int)
      requires Valid()
      modifies this
      ensures Valid() && log == old(log) + [e] && clock == now
      ensures timely <==> old(timely) && old(clock) <= now && e.at <= now
      ensures Series.CappedHours(Series.Bump(old(hourly), Series.HourOf(e.at)), hourly, Series.MAX_HOUR_BUCKETS)
      ensures Capped(BumpField(old(byIP), FieldOf(e, ClientIP)), byIP, MAX_COUNT_KEYS, KEEP_COUNT_KEYS)
      ensures Capped(BumpField(old(byHost), FieldOf(e, Host)), byHost, MAX_COUNT_KEYS, KEEP_COUNT_KEYS)
      ensures ipEvictions == old(ipEvictions)
               + if |BumpField(old(byIP), FieldOf(e, ClientIP))| > MAX_COUNT_KEYS then 1 else 0
      ensures hostEvictions == old(hostEvictions)
               + if |BumpField(old(byHost), FieldOf(e, Host))| > MAX_COUNT_KEYS then 1 else 0
    {
      hide Lossy, Series.Exact, Series.CappedHours, Capped, RulesExact, Exactly;
      hide KeysCounted, HoursCounted, Stamps, Blocked, Latest, BumpField, FieldOf, Series.Bump, Series.HourOf;
      ghost var seen := log;
      LogGrows(seen, e);
      LatestStep(seen, e, RECENT_MAX);
      total := total + 1;
      if e.blocked {
        blocked := blocked + 1;
      }
      CountKeys(e);
      CountInHour(e, now);
      recent := Latest(recent + [e], RECENT_MAX);
      log := seen + [e];
    }

    // The counter by hour.
    method CountInHour(e: Event, now: int)
      requires HoursCounted(log)
      modifies this`hourly, this`clock, this`timely
      ensures HoursCounted(log + [e]) && clock == now
      ensures timely <==> old(timely) && old(clock) <= now && e.at <= now
      ensures Series.CappedHours(Series.Bump(old(hourly), Series.HourOf(e.at)), hourly, Series.MAX_HOUR_BUCKETS)
    {
      hide Series.Exact, Series.CappedHours, Series.Bump, Series.HourOf, Stamps;
      LogGrows(log, e);
      hourly := CountHour(hourly, Stamps(log), clock, now, e.at);
      timely := timely && clock <= now && e.at <= now;
      clock := now;
    }

    // The counters by key.
    method CountKeys(e: Event)
      requires KeysCounted(log)
      modifies this`byRule, this`byCategory, this`byIP, this`byHost, this`ipEvictions, this`hostEvictions
      ensures KeysCounted(log + [e])
      ensures Capped(BumpField(old(byIP), FieldOf(e, ClientIP)), byIP, MAX_COUNT_KEYS, KEEP_COUNT_KEYS)
      ensures Capped(BumpField(old(byHost), FieldOf(e, Host)), byHost, MAX_COUNT_KEYS, KEEP_COUNT_KEYS)
      ensures ipEvictions == old(ipEvictions)
               + if |BumpField(old(byIP), FieldOf(e, ClientIP))| > MAX_COUNT_KEYS then 1 else 0
      ensures hostEvictions == old(hostEvictions)
               + if |BumpField(old(byHost), FieldOf(e, Host))| > MAX_COUNT_KEYS then 1 else 0
    {
      hide Lossy, Capped, RulesExact, Exactly, Keys, CountRule, CountCategory, Bump, BumpField, FieldOf, FirstMessage,
           RuleCounts;
      RuleStep(byRule, log, e);
      CategoryStep(byCategory, log, e);
      byRule := CountRule(byRule, e);
      byCategory := CountCategory(byCategory, e);
      byIP, ipEvictions := CountField(byIP, log, e, ClientIP, ipEvictions);
      byHost, hostEvictions := CountField(byHost, log, e, Host, hostEvictions);
    }

    /** What the four maps say of the log, and lists of ten of the two bounded ones. */
    lemma ListsAreTrue(topIPs: seq<NamedCount>, topHosts: seq<NamedCount>)
      requires KeysCounted(log) && IsTop(topIPs, byIP, TOP) && IsTop(topHosts, byHost, TOP)
      ensures NearIPs(topIPs, log, ipEvictions) && NearHosts(topHosts, log, hostEvictions)
      ensures byCategory == ByCategory(log) && RuleCounts(byRule) == ByRule(log)
    {
      hide Lossy, IsTop, NearTop, Keys, Count, Tally, ByIP, ByHost, ByCategory, ByRule, WithIP, WithHost;
      KeysAreFields(log);
      KeysAreAsMany(log);
      ListIsNearTruth(byIP, Keys(log, ClientIP), ipEvictions, topIPs);
      ListIsNearTruth(byHost, Keys(log, Host), hostEvictions, topHosts);
      TallyIsOnly(byCategory, Keys(log, Category));
      TallyIsOnly(RuleCounts(byRule), Keys(log, Rule));
    }

    /**
     `Snapshot`, in terms of the events themselves. The points of the series are exact when no stamp
     and no clock was ahead, and the lists of addresses and hosts are as near as evictions allow.
     */
    method TakeSnapshot(now: int) returns (s: Snapshot)
      requires Valid()
      ensures s.total == |log| && s.blocked == |BlockedOnes(log)|
      ensures IsTop(s.topIPs, byIP, 10) && NearIPs(s.topIPs, log, ipEvictions)
      ensures IsTop(s.topHosts, byHost, 10) && NearHosts(s.topHosts, log, hostEvictions)
      ensures IsTop(s.categories, ByCategory(log), 10) && IsTop(Entries(s.topRules), ByRule(log), 10)
      ensures forall t :: t in s.topRules ==> IsFirstMessage(log, t.entry.name, t.rlabel)
      ensures |s.series| == 24
      ensures forall i :: 0 <= i < 24 ==>
                s.series[i] == Series.Get(hourly, Series.HourOf(now) - (23 - i) * Series.HOUR)
      ensures timely && clock <= now ==> forall i :: 0 <= i < 24 ==> s.series[i] == |InHour(log, PointAt(now, i))|
      ensures |s.recent| == if |log| < 200 then |log| else 200
      ensures forall i :: 0 <= i < |s.recent| ==> s.recent[i] == log[|log| - 1 - i]
    {
      hide Lossy, Series.Exact, RulesExact, Exactly, Keys, Stamps, Blocked, IsTop, RuleCounts, NearIPs, NearHosts,
           Tally;
      hide ByIP, ByHost, ByCategory, ByRule, InHour, BlockedOnes, IsFirstMessage, IsExactSeries, PointAt;
      BlockedMeans(log);
      var topRules := TopRules(byRule, TOP);
      LabelsAreMessages(byRule, log, topRules);
      forall t | t in topRules
        ensures IsFirstMessage(log, t.entry.name, t.rlabel)
      {
        FirstMessageMeans(log, t.entry.name);
      }
      var categories := TopN(byCategory, TOP);
      var topIPs := TopN(byIP, TOP);
      var topHosts := TopN(byHost, TOP);
      ListsAreTrue(topIPs, topHosts);
      var series := ReadSeries(hourly, now);
      if timely && clock <= now {
        SeriesIsExact(hourly, Stamps(log), clock, now, series);
        PointsAreEvents(log, now, series);
      }
      var newestFirst := Reversed(recent);
      s := Snapshot(total, blocked, topRules, categories, topIPs, topHosts, series, newestFirst);
    }
  }

  /** The list of ten addresses against the events' own, by what `ev` evictions can take from a count. */
  ghost predicate NearIPs(top: seq<NamedCount>, log: seq<Event>, ev: nat) {
    NearTop(top, ByIP(log), 10, ev * (|WithIP(log)| / 40001))
  }

  ghost predicate NearHosts(top: seq<NamedCount>, log: seq<Event>, ev: nat) {
    NearTop(top, ByHost(log), 10, ev * (|WithHost(log)| / 40001))
  }

  lemma ListIsNearTruth(m: Counts, ks: seq<string>, ev: nat, top: seq<NamedCount>)
    requires Lossy(m, ks, ev, MAX_COUNT_KEYS, KEEP_COUNT_KEYS) && IsTop(top, m, TOP)
    ensures NearTop(top, Tally(ks), 10, ev * (|ks| / 40001))
  {
    hide Lossy, IsTop, NearTop;
    TopIsNearTruth(m, ks, ev, MAX_COUNT_KEYS, KEEP_COUNT_KEYS, TOP, top);
  }

  /** The instant at which the hour of point `i` of the chart begins; the last one is the hour of `now`. */
  function PointAt(now: int, i: int): int {
    now / 3_600_000_000_000 * 3_600_000_000_000 - (23 - i) * 3_600_000_000_000
  }

  lemma PointsAreEvents(log: seq<Event>, now: int, series: seq<nat>)
    requires IsExactSeries(series, Stamps(log), now)
    ensures forall i :: 0 <= i < 24 ==> series[i] == |InHour(log, PointAt(now, i))|
  {
    hide InHour, Series.EventsIn, Stamps;
    forall i | 0 <= i < 24 ensures series[i] == |InHour(log, PointAt(now, i))| {
      var h := Series.HourOf(now) - (23 - i) * Series.HOUR;
      HoursAreStamps(log, h);
      assert h * 1_000_000_000 == PointAt(now, i);
    }
  }

  function Reversed(events: seq<Event>): (r: seq<Event>)
    ensures |r| == |events| && forall i :: 0 <= i < |r| ==> r[i] == events[|events| - 1 - i]
  {
    if events == [] then [] else [events[|events| - 1]] + Reversed(events[..|events| - 1])
  }

  function Entries(tops: seq<RuleTop>): seq<NamedCount> {
    seq(|tops|, i requires 0 <= i < |tops| => tops[i].entry)
  }

  /** `topRules`: the order of `topN`, each rule with its message. */
  method TopRules(m: map<string, RuleCounter>, n: nat) returns (out: seq<RuleTop>)
    ensures IsTop(Entries(out), RuleCounts(m), n)
    ensures forall t :: t in out ==> t.entry.name in m && t.rlabel == m[t.entry.name].msg
  {
    var top := TopN(RuleCounts(m), n);
    TopNamesAreKeys(top, RuleCounts(m), n);
    out := seq(|top|, i requires 0 <= i < |top| && top[i].name in m => RuleTop(top[i], m[top[i].name].msg));
    assert Entries(out) == top;
  }

  lemma TopNamesAreKeys(top: seq<NamedCount>, m: Counts, n: nat)
    requires IsTop(top, m, n)
    ensures forall i :: 0 <= i < |top| ==> top[i].name in m && m[top[i].name] == top[i].count
  {
    var r :| IsRanking(r, m) && top == r[..if |r| < n then |r| else n];
  }

  lemma LabelsAreMessages(m: map<string, RuleCounter>, log: seq<Event>, tops: seq<RuleTop>)
    requires RulesExact(m, log)
    requires forall t :: t in tops ==> t.entry.name in m && t.rlabel == m[t.entry.name].msg
    ensures forall t :: t in tops ==> t.rlabel == FirstMessage(log, t.entry.name)
  {}

  /** Each point is the number of events in its hour, the current hour last. */
  ghost predicate IsExactSeries(series: seq<nat>, stamps: seq<int>, now: int) {
    |series| == 24 && forall i :: 0 <= i < 24 ==>
      series[i] == Series.EventsIn(stamps, Series.HourOf(now) - (23 - i) * Series.HOUR)
  }

  lemma SeriesIsExact(m: Series.Buckets, stamps: seq<int>, last: int, now: int, series: seq<nat>)
    requires Series.Exact(m, stamps, last, Series.MAX_HOUR_BUCKETS) && last <= now
    requires |series| == 24
    requires forall i :: 0 <= i < 24 ==> series[i] == Series.Get(m, Series.HourOf(now) - (23 - i) * Series.HOUR)
    ensures IsExactSeries(series, stamps, now)
  {
    forall i | 0 <= i < 24
      ensures series[i] == Series.EventsIn(stamps, Series.HourOf(now) - (23 - i) * Series.HOUR)
    {
      Series.ChartIsExact(m, stamps, last, now, 23 - i);
    }
  }

  /** The loop of `Snapshot` over the last 24 hours, oldest first. */
  method ReadSeries(m: Series.Buckets, now: int) returns (series: seq<nat>)
    ensures |series| == 24
    ensures forall i :: 0 <= i < 24 ==> series[i] == Series.Get(m, Series.HourOf(now) - (23 - i) * Series.HOUR)
  {
    series := [];
    for i := 24 downto 0
      invariant |series| == 24 - i
      invariant forall k :: 0 <= k < |series| ==>
                  series[k] == Series.Get(m, Series.HourOf(now) - (23 - k) * Series.HOUR)
    {
      series := series + [Series.Get(m, Series.HourOf(now) - i * Series.HOUR)];
    }
  }

  /** One event counted under one of its request-driven fields, and the map capped. */
  method CountField(m: Counts, ghost log: seq<Event>, e: Event, f: Field, ghost ev: nat)
    returns (m': Counts, ghost ev': nat)
    requires Lossy(m, Keys(log, f), ev, MAX_COUNT_KEYS, KEEP_COUNT_KEYS)
    ensures Lossy(m', Keys(log + [e], f), ev', MAX_COUNT_KEYS, KEEP_COUNT_KEYS)
    ensures Capped(BumpField(m, FieldOf(e, f)), m', MAX_COUNT_KEYS, KEEP_COUNT_KEYS)
    ensures ev' == if |BumpField(m, FieldOf(e, f))| > MAX_COUNT_KEYS then ev + 1 else ev
  {
    hide Lossy, Keys, Capped;
    var v := FieldOf(e, f);
    m' := if v != "" then Bump(m, v) else m;
    m' := CapCounts(m', MAX_COUNT_KEYS, KEEP_COUNT_KEYS);
    ev' := FieldStep(m, m', log, e, f, ev);
  }

  /** One event counted in its hour, and the buckets capped. */
  method CountHour(m: Series.Buckets, ghost stamps: seq<int>, ghost before: int, ghost now: int, at: int)
    returns (m': Series.Buckets)
    ensures Series.CappedHours(Series.Bump(m, Series.HourOf(at)), m', Series.MAX_HOUR_BUCKETS)
    ensures Series.Exact(m, stamps, before, Series.MAX_HOUR_BUCKETS) && before <= now && at <= now ==>
              Series.Exact(m', stamps + [at], now, Series.MAX_HOUR_BUCKETS)
  {
    hide Series.Exact, Series.CappedHours;
    m' := CapOldestHours(Series.Bump(m, Series.HourOf(at)), Series.MAX_HOUR_BUCKETS);
    if Series.Exact(m, stamps, before, Series.MAX_HOUR_BUCKETS) && before <= now && at <= now {
      Series.AddKeepsExact(m, m', stamps, before, now, at, Series.MAX_HOUR_BUCKETS);
    }
  }

  /** `capOldestHours`: nothing while there are few buckets, else keep the newest. */
  method CapOldestHours(m: Series.Buckets, keep: nat) returns (m': Series.Buckets)
    ensures Series.CappedHours(m, m', keep)
  {
    if |m| <= keep {
      assert |m.Keys| == |m|;
      return m;
    }
    var kept := Newest.SelectNewest(m.Keys, keep);
    m' := map h | h in kept && h in m :: m[h];
    assert m'.Keys == kept;
  }

  // ---------------------------------------------------------------- what a reader of the top list gets

  /**
   A count shown for a key after all events `ks` is never too high, and too low by at most the
   number of evictions times the share of one of `KEEP_COUNT_KEYS + 1` keys in the events; there
   was at most one eviction for every 10001 events.
   */
  lemma ShownCountBound(m: Counts, ks: seq<string>, ev: nat, top: seq<NamedCount>, i: nat)
    requires Lossy(m, ks, ev, MAX_COUNT_KEYS, KEEP_COUNT_KEYS) && IsTop(top, m, TOP) && i < |top|
    ensures top[i].count <= Count(ks, top[i].name) <= top[i].count + ev * (|ks| / 40001)
    ensures ev * 10001 <= |ks|
  {
    TopNamesAreKeys(top, m, TOP);
    assert Within(Get(m, top[i].name), Count(ks, top[i].name), ev, Loss(|ks|, KEEP_COUNT_KEYS));
  }

  lemma SameLengthOfTop(m: Counts, m': Counts, r: seq<NamedCount>, r': seq<NamedCount>)
    requires Capped(m, m', MAX_COUNT_KEYS, KEEP_COUNT_KEYS) && Enumerates(r, m) && Enumerates(r', m')
    ensures |r| == |r'| || (|r| > TOP && |r'| > TOP)
  {
    EnumerationSize(r, m);
    EnumerationSize(r', m');
  }

  /** Keeping the 40000 highest counts never changes a count of the ten shown. */
  lemma CapKeepsShownCounts(m: Counts, m': Counts, top: seq<NamedCount>, top': seq<NamedCount>, i: nat)
    requires Capped(m, m', MAX_COUNT_KEYS, KEEP_COUNT_KEYS)
    requires IsTop(top, m, TOP) && IsTop(top', m', TOP)
    ensures |top| == |top'| && (i < |top| ==> top[i].count == top'[i].count)
  {
    var r :| IsRanking(r, m) && top == r[..if |r| < TOP then |r| else TOP];
    var r' :| IsRanking(r', m') && top' == r'[..if |r'| < TOP then |r'| else TOP];
    RankingIsHighestFirst(r, m);
    RankingIsHighestFirst(r', m');
    hide Capped, Enumerates, HighestFirst, Before;
    SameLengthOfTop(m, m', r, r');
    if i < |top| { EvictionKeepsTopCounts(m, m', MAX_COUNT_KEYS, KEEP_COUNT_KEYS, r, r', i); }
  }
}

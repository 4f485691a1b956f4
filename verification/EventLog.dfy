/** The log of WAF events, and what it says. */
module EventLog {
  import opened LossyCount
  import opened TopLists
  import Series = HourlySeries

  datatype Event = Event(at: int, clientIP: string, host: string, method_: string, uri: string,
                         ruleID: string, message: string, category: string, severity: int, blocked: bool)

  datatype Field = Rule | Category | ClientIP | Host

  function FieldOf(e: Event, f: Field): string {
    match f
    case Rule => e.ruleID
    case Category => e.category
    case ClientIP => e.clientIP
    case Host => e.host
  }

  /** The values of a field that the events of the log were counted under. */
  function Keys(log: seq<Event>, f: Field): seq<string> {
    if log == [] then []
    else Keys(log[..|log| - 1], f)
         + if FieldOf(log[|log| - 1], f) != "" then [FieldOf(log[|log| - 1], f)] else []
  }

  function Stamps(log: seq<Event>): seq<int> {
    if log == [] then [] else Stamps(log[..|log| - 1]) + [log[|log| - 1].at]
  }

  function Blocked(log: seq<Event>): nat {
    if log == [] then 0 else Blocked(log[..|log| - 1]) + if log[|log| - 1].blocked then 1 else 0
  }

  /** The first message that came with the rule and was not empty. */
  function FirstMessage(log: seq<Event>, rule: string): string {
    if log == [] then ""
    else
      var earlier := FirstMessage(log[..|log| - 1], rule);
      if earlier == "" && log[|log| - 1].ruleID == rule then log[|log| - 1].message else earlier
  }

  function Latest(log: seq<Event>, n: nat): seq<Event> {
    if |log| > n then log[|log| - n..] else log
  }

  lemma LogGrows(log: seq<Event>, e: Event)
    ensures Stamps(log + [e]) == Stamps(log) + [e.at]
    ensures Blocked(log + [e]) == Blocked(log) + if e.blocked then 1 else 0
  {
    assert (log + [e])[..|log|] == log;
  }

  lemma KeysGrow(log: seq<Event>, e: Event, f: Field)
    ensures Keys(log + [e], f) == if FieldOf(e, f) != "" then Keys(log, f) + [FieldOf(e, f)] else Keys(log, f)
  {
    assert (log + [e])[..|log|] == log;
    assert Keys(log, f) + [] == Keys(log, f);
  }

  lemma MessageGrows(log: seq<Event>, e: Event, r: string)
    ensures FirstMessage(log + [e], r)
         == if FirstMessage(log, r) == "" && e.ruleID == r then e.message else FirstMessage(log, r)
  {
    assert (log + [e])[..|log|] == log;
  }

  lemma CountGrows(ks: seq<string>, x: string, k: string)
    ensures Count(ks + [x], k) == Count(ks, k) + if x == k then 1 else 0
  {
    assert (ks + [x])[..|ks|] == ks;
  }

  // ---------------------------------------------------------------- counts by the fields of the events

  ghost function FromIP(log: seq<Event>, ip: string): set<nat> { set i | 0 <= i < |log| && log[i].clientIP == ip }
  ghost function ToHost(log: seq<Event>, host: string): set<nat> { set i | 0 <= i < |log| && log[i].host == host }
  ghost function OfRule(log: seq<Event>, rule: string): set<nat> { set i | 0 <= i < |log| && log[i].ruleID == rule }
  ghost function OfCategory(log: seq<Event>, c: string): set<nat> { set i | 0 <= i < |log| && log[i].category == c }
  ghost function WithIP(log: seq<Event>): set<nat> { set i | 0 <= i < |log| && log[i].clientIP != "" }
  ghost function WithHost(log: seq<Event>): set<nat> { set i | 0 <= i < |log| && log[i].host != "" }
  ghost function BlockedOnes(log: seq<Event>): set<nat> { set i | 0 <= i < |log| && log[i].blocked }

  /** How often each address occurs, by the events' own field; events without one are not counted. */
  ghost function ByIP(log: seq<Event>): Counts {
    map e | e in log && e.clientIP != "" :: e.clientIP := |FromIP(log, e.clientIP)|
  }

  ghost function ByHost(log: seq<Event>): Counts {
    map e | e in log && e.host != "" :: e.host := |ToHost(log, e.host)|
  }

  ghost function ByRule(log: seq<Event>): Counts {
    map e | e in log && e.ruleID != "" :: e.ruleID := |OfRule(log, e.ruleID)|
  }

  ghost function ByCategory(log: seq<Event>): Counts {
    map e | e in log && e.category != "" :: e.category := |OfCategory(log, e.category)|
  }

  // The places of an event in a log that holds one more: those before, and perhaps the last.
  lemma OneMorePlace(log: seq<Event>, e: Event, k: string)
    ensures FromIP(log + [e], k) == FromIP(log, k) + if e.clientIP == k then {|log|} else {}
    ensures ToHost(log + [e], k) == ToHost(log, k) + if e.host == k then {|log|} else {}
    ensures OfRule(log + [e], k) == OfRule(log, k) + if e.ruleID == k then {|log|} else {}
    ensures OfCategory(log + [e], k) == OfCategory(log, k) + if e.category == k then {|log|} else {}
  {
    assert forall i :: 0 <= i < |log| ==> (log + [e])[i] == log[i];
  }

  lemma OneMoreEvent(log: seq<Event>, e: Event)
    ensures WithIP(log + [e]) == WithIP(log) + if e.clientIP != "" then {|log|} else {}
    ensures WithHost(log + [e]) == WithHost(log) + if e.host != "" then {|log|} else {}
    ensures BlockedOnes(log + [e]) == BlockedOnes(log) + if e.blocked then {|log|} else {}
  {
    assert forall i :: 0 <= i < |log| ==> (log + [e])[i] == log[i];
  }

  /** The events with that value in the field. */
  ghost function Places(log: seq<Event>, f: Field, k: string): set<nat> {
    match f
    case Rule => OfRule(log, k)
    case Category => OfCategory(log, k)
    case ClientIP => FromIP(log, k)
    case Host => ToHost(log, k)
  }

  lemma {:induction false} KeysCountPlaces(log: seq<Event>, f: Field, k: string)
    requires k != ""
    ensures Count(Keys(log, f), k) == |Places(log, f, k)|
  {
    if log != [] {
      var before, e := log[..|log| - 1], log[|log| - 1];
      assert log == before + [e];
      KeysCountPlaces(before, f, k);
      KeysGrow(before, e, f);
      CountGrows(Keys(before, f), FieldOf(e, f), k);
      OneMorePlace(before, e, k);
      hide Keys, Count, FromIP, ToHost, OfRule, OfCategory;
      assert |before| !in Places(before, f, k) by { PlacesBefore(before, f, k); }
    }
  }

  lemma PlacesBefore(log: seq<Event>, f: Field, k: string)
    ensures forall i :: i in Places(log, f, k) ==> i < |log|
  {}

  lemma {:induction false} EmptyIsNoKey(log: seq<Event>, f: Field)
    ensures Count(Keys(log, f), "") == 0
  {
    if log != [] {
      var before, e := log[..|log| - 1], log[|log| - 1];
      assert log == before + [e];
      EmptyIsNoKey(before, f);
      KeysGrow(before, e, f);
      CountGrows(Keys(before, f), FieldOf(e, f), "");
      hide Keys, Count;
    }
  }

  lemma ByIPHas(log: seq<Event>, k: string)
    ensures k in ByIP(log) <==> k != "" && FromIP(log, k) != {}
    ensures Get(ByIP(log), k) == if k == "" then 0 else |FromIP(log, k)|
  {
    if i :| i in FromIP(log, k) { assert log[i] in log && log[i].clientIP == k; }
    if k in ByIP(log) {
      var e :| e in log && e.clientIP == k;
      var i :| 0 <= i < |log| && log[i] == e;
      assert i in FromIP(log, k);
    }
  }

  lemma ByHostHas(log: seq<Event>, k: string)
    ensures k in ByHost(log) <==> k != "" && ToHost(log, k) != {}
    ensures Get(ByHost(log), k) == if k == "" then 0 else |ToHost(log, k)|
  {
    if i :| i in ToHost(log, k) { assert log[i] in log && log[i].host == k; }
    if k in ByHost(log) {
      var e :| e in log && e.host == k;
      var i :| 0 <= i < |log| && log[i] == e;
      assert i in ToHost(log, k);
    }
  }

  lemma ByRuleHas(log: seq<Event>, k: string)
    ensures k in ByRule(log) <==> k != "" && OfRule(log, k) != {}
    ensures Get(ByRule(log), k) == if k == "" then 0 else |OfRule(log, k)|
  {
    if i :| i in OfRule(log, k) { assert log[i] in log && log[i].ruleID == k; }
    if k in ByRule(log) {
      var e :| e in log && e.ruleID == k;
      var i :| 0 <= i < |log| && log[i] == e;
      assert i in OfRule(log, k);
    }
  }

  lemma ByCategoryHas(log: seq<Event>, k: string)
    ensures k in ByCategory(log) <==> k != "" && OfCategory(log, k) != {}
    ensures Get(ByCategory(log), k) == if k == "" then 0 else |OfCategory(log, k)|
  {
    if i :| i in OfCategory(log, k) { assert log[i] in log && log[i].category == k; }
    if k in ByCategory(log) {
      var e :| e in log && e.category == k;
      var i :| 0 <= i < |log| && log[i] == e;
      assert i in OfCategory(log, k);
    }
  }

  /** The keys that the collector counts are the values of the events' own fields. */
  lemma KeysAreFields(log: seq<Event>)
    ensures Tally(Keys(log, ClientIP)) == ByIP(log) && Tally(Keys(log, Host)) == ByHost(log)
    ensures Tally(Keys(log, Rule)) == ByRule(log) && Tally(Keys(log, Category)) == ByCategory(log)
  {
    forall f, k ensures Count(Keys(log, f), k) == if k == "" then 0 else |Places(log, f, k)| {
      if k == "" { EmptyIsNoKey(log, f); } else { KeysCountPlaces(log, f, k); }
    }
    hide Keys, Count, Tally, ByIP, ByHost, ByRule, ByCategory, FromIP, ToHost, OfRule, OfCategory;
    forall k ensures Agrees(ByIP(log), Keys(log, ClientIP), k) { ByIPHas(log, k); }
    forall k ensures Agrees(ByHost(log), Keys(log, Host), k) { ByHostHas(log, k); }
    forall k ensures Agrees(ByRule(log), Keys(log, Rule), k) { ByRuleHas(log, k); }
    forall k ensures Agrees(ByCategory(log), Keys(log, Category), k) { ByCategoryHas(log, k); }
    AgreeingIsTally(ByIP(log), Keys(log, ClientIP));
    AgreeingIsTally(ByHost(log), Keys(log, Host));
    AgreeingIsTally(ByRule(log), Keys(log, Rule));
    AgreeingIsTally(ByCategory(log), Keys(log, Category));
  }

  predicate Agrees(m: Counts, ks: seq<string>, k: string) {
    Get(m, k) == Count(ks, k) && (k in m <==> Count(ks, k) > 0)
  }

  lemma AgreeingIsTally(m: Counts, ks: seq<string>)
    requires forall k :: Agrees(m, ks, k)
    ensures Tally(ks) == m
  {
    hide Count, Tally;
    forall k ensures Get(m, k) == Count(ks, k) && (k in m <==> Count(ks, k) > 0) { assert Agrees(m, ks, k); }
    TallyIsOnly(m, ks);
  }

  lemma {:induction false} BlockedMeans(log: seq<Event>)
    ensures Blocked(log) == |BlockedOnes(log)|
  {
    if log != [] {
      var before, e := log[..|log| - 1], log[|log| - 1];
      assert log == before + [e];
      BlockedMeans(before);
      OneMoreEvent(before, e);
      assert |before| !in BlockedOnes(before);
    }
  }

  /** The keys counted are as many as the events that have a value in the field. */
  lemma {:induction false} KeysAreAsMany(log: seq<Event>)
    ensures |Keys(log, ClientIP)| == |WithIP(log)| && |Keys(log, Host)| == |WithHost(log)|
  {
    if log != [] {
      var before, e := log[..|log| - 1], log[|log| - 1];
      assert log == before + [e];
      KeysAreAsMany(before);
      KeysGrow(before, e, ClientIP);
      KeysGrow(before, e, Host);
      OneMoreEvent(before, e);
      assert |before| !in WithIP(before) && |before| !in WithHost(before);
      hide Keys, WithIP, WithHost;
    }
  }

  /** The first message of the rule's events that is not empty; empty if they have none. */
  ghost predicate IsFirstMessage(log: seq<Event>, rule: string, msg: string) {
    || (msg == "" && forall i :: 0 <= i < |log| && log[i].ruleID == rule ==> log[i].message == "")
    || (msg != "" && exists i :: FirstAt(log, rule, msg, i))
  }

  ghost predicate FirstAt(log: seq<Event>, rule: string, msg: string, i: int) {
    && 0 <= i < |log| && log[i].ruleID == rule && log[i].message == msg
    && forall j :: 0 <= j < i && log[j].ruleID == rule ==> log[j].message == ""
  }

  lemma {:induction false} FirstMessageMeans(log: seq<Event>, rule: string)
    ensures IsFirstMessage(log, rule, FirstMessage(log, rule))
  {
    if log != [] {
      var before, e := log[..|log| - 1], log[|log| - 1];
      assert log == before + [e];
      FirstMessageMeans(before, rule);
      MessageGrows(before, e, rule);
      hide FirstMessage;
      var earlier := FirstMessage(before, rule);
      if earlier != "" {
        var i :| FirstAt(before, rule, earlier, i);
        assert FirstAt(log, rule, earlier, i);
      } else if e.ruleID == rule && e.message != "" {
        assert FirstAt(log, rule, e.message, |before|);
      }
    }
  }

  /** The events stamped in the hour that begins at the instant `begin`. */
  ghost function InHour(log: seq<Event>, begin: int): set<nat> {
    set i | 0 <= i < |log| && begin <= log[i].at < begin + 3_600_000_000_000
  }

  lemma {:induction false} HoursAreStamps(log: seq<Event>, h: int)
    requires h % 3600 == 0
    ensures Series.EventsIn(Stamps(log), h) == |InHour(log, h * 1_000_000_000)|
  {
    if log != [] {
      var before, e := log[..|log| - 1], log[|log| - 1];
      assert log == before + [e];
      HoursAreStamps(before, h);
      LogGrows(before, e);
      Series.OneMoreStamp(Stamps(before), e.at, h);
      Series.HourMeans(e.at, h);
      hide Stamps, Series.EventsIn, Series.HourOf, InHour;
      OneMoreInHour(before, e, h * 1_000_000_000);
    }
  }

  lemma OneMoreInHour(log: seq<Event>, e: Event, begin: int)
    ensures |InHour(log + [e], begin)|
         == |InHour(log, begin)| + if begin <= e.at < begin + 3_600_000_000_000 then 1 else 0
  {
    assert forall i :: 0 <= i < |log| ==> (log + [e])[i] == log[i];
    assert |log| !in InHour(log, begin);
    assert InHour(log + [e], begin)
        == InHour(log, begin) + if begin <= e.at < begin + 3_600_000_000_000 then {|log|} else {};
  }
}

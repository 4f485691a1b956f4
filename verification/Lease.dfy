/** The leader-election lease of internal/store/schedules.go. */
module Lease {
  // `AcquireLease` reads its clock, then runs an UPDATE, then, when that hit no row, an INSERT.
  // The class has the two statements and their sequential composition. The protocol below runs
  // any number of instances with the three moves of each call interleaved in any order, and with
  // replies that may get lost after the database has carried a statement out.
  //
  // Clock readings are nanoseconds; the table stores whole seconds. Every instance reads its own
  // clock: `skew` says by how much each is ahead of the time of the system.

  const SECOND := 1_000_000_000

  /** `time.Now().Unix()`. */
  function Unix(t: int): int { t / SECOND }

  /** `int64(ttl.Seconds())`, truncated toward zero. */
  function WholeSeconds(ttl: int): int {
    if ttl >= 0 then ttl / SECOND else -((-ttl) / SECOND)
  }

  function Expiry(now: int, ttl: int): int { Unix(now) + WholeSeconds(ttl) }

  datatype Row = Row(holder: string, expiresAt: int)
  type Table = map<string, Row>

  predicate UpdateMatches(t: Table, name: string, holder: string, now: int) {
    name in t && (t[name].holder == holder || t[name].expiresAt < Unix(now))
  }

  class LeaseTable {
    var rows: Table

    constructor ()
      ensures rows == map[]
    {
      rows := map[];
    }

    /** UPDATE leases SET holder, expires_at WHERE name AND (holder OR expires_at < now). */
    method Update(name: string, holder: string, exp: int, now: int) returns (affected: nat)
      modifies this
      ensures affected == if UpdateMatches(old(rows), name, holder, now) then 1 else 0
      ensures rows == if affected > 0 then old(rows)[name := Row(holder, exp)] else old(rows)
    {
      if name in rows && (rows[name].holder == holder || rows[name].expiresAt < Unix(now)) {
        rows := rows[name := Row(holder, exp)];
        affected := 1;
      } else {
        affected := 0;
      }
    }

    /** INSERT; the primary key on the name makes it fail when the row exists. */
    method Insert(name: string, holder: string, exp: int) returns (ok: bool)
      modifies this
      ensures ok == (name !in old(rows))
      ensures rows == if ok then old(rows)[name := Row(holder, exp)] else old(rows)
    {
      ok := name !in rows;
      if ok {
        rows := rows[name := Row(holder, exp)];
      }
    }

    /** One whole call with nobody in between: held if the lease was free, expired or ours. */
    method AcquireLease(name: string, holder: string, ttl: int, now: int) returns (held: bool)
      modifies this
      ensures held <==> name !in old(rows) || old(rows)[name].holder == holder
                        || old(rows)[name].expiresAt < Unix(now)
      ensures rows == if held then old(rows)[name := Row(holder, Expiry(now, ttl))] else old(rows)
    {
      var exp := Expiry(now, ttl);
      var n := Update(name, holder, exp, now);
      if n > 0 {
        return true;
      }
      held := Insert(name, holder, exp);
    }
  }

  // ---------------------------------------------------------------- the protocol

  /** Where an instance is in its call: `now` is the clock reading the call started with. */
  datatype Phase = Idle | Updating(name: string, now: int) | Inserting(name: string, now: int)

  /** A statement that took the row: who wrote it, the call's clock reading, when it ran. */
  datatype Grant = Grant(name: string, holder: string, sampled: int, at: int, expiresAt: int)

  datatype System = System(clock: int, table: Table, phases: map<string, Phase>, grants: seq<Grant>) {
    function PhaseOf(p: string): Phase {
      if p in phases then phases[p] else Idle
    }

    /** The row is written for `p`, whose call is over. */
    function Write(p: string, name: string, now: int, ttl: int): System {
      this.(table := table[name := Row(p, Expiry(now, ttl))],
            phases := phases[p := Idle],
            grants := grants + [Grant(name, p, now, clock, Expiry(now, ttl))])
    }
  }

  /**
   `Abandon` is a call that ends with an error before its statement takes effect. A statement
   that takes effect is a grant even when its reply is lost, so the results cover both.
   */
  datatype Move =
    | Tick(elapsed: nat)
    | Sample(p: string, name: string)
    | RunUpdate(p: string)
    | RunInsert(p: string)
    | Abandon(p: string)

  const Start := System(0, map[], map[], [])

  /** One move; a move that its instance is not ready for changes nothing. */
  function Next(s: System, ttl: string -> nat, skew: string -> int, m: Move): System {
    match m
    case Tick(d) => s.(clock := s.clock + d)
    case Sample(p, name) =>
      if s.PhaseOf(p).Idle? then s.(phases := s.phases[p := Updating(name, s.clock + skew(p))]) else s
    case RunUpdate(p) =>
      (match s.PhaseOf(p)
       case Updating(name, now) =>
         if UpdateMatches(s.table, name, p, now) then s.Write(p, name, now, ttl(p))
         else s.(phases := s.phases[p := Inserting(name, now)])
       case _ => s)
    case RunInsert(p) =>
      (match s.PhaseOf(p)
       case Inserting(name, now) =>
         if name !in s.table then s.Write(p, name, now, ttl(p)) else s.(phases := s.phases[p := Idle])
       case _ => s)
    case Abandon(p) => s.(phases := s.phases[p := Idle])
  }

  function Run(moves: seq<Move>, ttl: string -> nat, skew: string -> int): System {
    if moves == [] then Start else Next(Run(moves[..|moves| - 1], ttl, skew), ttl, skew, moves[|moves| - 1])
  }

  // ---------------------------------------------------------------- the invariant

  /** The latest grant of a name, by its position; -1 when there is none. */
  function Latest(grants: seq<Grant>, name: string): (i: int)
    ensures -1 <= i < |grants|
    ensures i >= 0 ==> grants[i].name == name
    ensures forall j :: i < j < |grants| ==> grants[j].name != name
  {
    if grants == [] then -1
    else if grants[|grants| - 1].name == name then |grants| - 1
    else Latest(grants[..|grants| - 1], name)
  }

  /** Of two grants of one name, the later one's call began when the earlier lease was over. */
  ghost predicate Ordered(g: Grant, h: Grant) {
    g.name == h.name ==>
      if g.holder == h.holder then g.sampled <= h.sampled else g.expiresAt < Unix(h.sampled)
  }

  ghost predicate GrantsInOrder(grants: seq<Grant>) {
    forall i, j :: 0 <= i < j < |grants| ==> Ordered(grants[i], grants[j])
  }

  ghost predicate WellTimed(s: System, ttl: string -> nat, skew: string -> int) {
    && (forall g :: g in s.grants ==>
          g.sampled <= g.at + skew(g.holder) && g.at <= s.clock && g.expiresAt == Expiry(g.sampled, ttl(g.holder)))
    && (forall p :: p in s.phases && !s.phases[p].Idle? ==>
          && s.phases[p].now <= s.clock + skew(p)
          && forall g :: g in s.grants && g.holder == p ==> g.sampled <= s.phases[p].now)
  }

  /** The row of a name is the one its latest grant wrote. */
  ghost predicate TableMatches(s: System) {
    forall name :: var i := Latest(s.grants, name);
      if i < 0 then name !in s.table
      else name in s.table && s.table[name] == Row(s.grants[i].holder, s.grants[i].expiresAt)
  }

  ghost predicate Inv(s: System, ttl: string -> nat, skew: string -> int) {
    WellTimed(s, ttl, skew) && TableMatches(s) && GrantsInOrder(s.grants)
  }

  lemma ExpiryMonotone(a: int, b: int, ttl: nat)
    requires a <= b
    ensures Expiry(a, ttl) <= Expiry(b, ttl) && Unix(b) <= Expiry(b, ttl)
  {}

  // No grant of the name outlives its row.
  lemma RowIsLast(s: System, ttl: string -> nat, skew: string -> int, name: string)
    requires Inv(s, ttl, skew) && name in s.table
    ensures forall g :: g in s.grants && g.name == name ==> g.expiresAt <= s.table[name].expiresAt
  {
    var j := Latest(s.grants, name);
    forall i | 0 <= i < |s.grants| && s.grants[i].name == name
      ensures s.grants[i].expiresAt <= s.table[name].expiresAt
    {
      if i < j {
        var g, h := s.grants[i], s.grants[j];
        assert Ordered(g, h) && g in s.grants && h in s.grants;
        ExpiryMonotone(h.sampled, h.sampled, ttl(h.holder));
        if g.holder == h.holder { ExpiryMonotone(g.sampled, h.sampled, ttl(g.holder)); }
      }
    }
  }

  /** The protocol's crux: a statement that may write the row comes after every other's lease. */
  lemma MayWrite(s: System, ttl: string -> nat, skew: string -> int, p: string, g: Grant)
    requires Inv(s, ttl, skew) && p in s.phases && !s.phases[p].Idle? && g in s.grants
    requires var ph := s.phases[p];
             ph.name !in s.table || UpdateMatches(s.table, ph.name, p, ph.now)
    ensures var ph := s.phases[p];
            Ordered(g, Grant(ph.name, p, ph.now, s.clock, Expiry(ph.now, ttl(p))))
  {
    var name, now := s.phases[p].name, s.phases[p].now;
    var j := Latest(s.grants, name);
    if g.name == name && g.holder != p {
      var i :| 0 <= i < |s.grants| && s.grants[i] == g;
      assert i <= j;
      var last := s.grants[j];
      if last.holder == p {
        assert Ordered(g, last) && last in s.grants;
      } else {
        RowIsLast(s, ttl, skew, name);
      }
    }
  }

  lemma WriteMatchesTable(s: System, p: string, name: string, now: int, ttl: nat)
    requires TableMatches(s)
    ensures TableMatches(s.Write(p, name, now, ttl))
  {
    var s' := s.Write(p, name, now, ttl);
    assert s'.grants[..|s.grants|] == s.grants;
    hide Expiry;
  }

  lemma WriteKeepsOrder(s: System, ttl: string -> nat, skew: string -> int, p: string)
    requires Inv(s, ttl, skew) && p in s.phases && !s.phases[p].Idle?
    requires var ph := s.phases[p];
             ph.name !in s.table || UpdateMatches(s.table, ph.name, p, ph.now)
    ensures GrantsInOrder(s.Write(p, s.phases[p].name, s.phases[p].now, ttl(p)).grants)
  {
    var gs := s.Write(p, s.phases[p].name, s.phases[p].now, ttl(p)).grants;
    forall i, j | 0 <= i < j < |gs| ensures Ordered(gs[i], gs[j]) {
      if j == |s.grants| {
        MayWrite(s, ttl, skew, p, s.grants[i]);
      } else {
        assert gs[i] == s.grants[i] && gs[j] == s.grants[j];
      }
    }
  }

  lemma WriteKeepsTiming(s: System, ttl: string -> nat, skew: string -> int, p: string)
    requires WellTimed(s, ttl, skew) && p in s.phases && !s.phases[p].Idle?
    ensures WellTimed(s.Write(p, s.phases[p].name, s.phases[p].now, ttl(p)), ttl, skew)
  {
    hide Expiry;
    var s' := s.Write(p, s.phases[p].name, s.phases[p].now, ttl(p));
    forall q | q in s'.phases && !s'.phases[q].Idle?
      ensures forall g :: g in s'.grants && g.holder == q ==> g.sampled <= s'.phases[q].now
    {
      assert q != p && s'.phases[q] == s.phases[q] && s'.grants[|s.grants|].holder == p;
    }
  }

  lemma WriteKeepsInv(s: System, ttl: string -> nat, skew: string -> int, p: string)
    requires Inv(s, ttl, skew) && p in s.phases && !s.phases[p].Idle?
    requires var ph := s.phases[p];
             ph.name !in s.table || UpdateMatches(s.table, ph.name, p, ph.now)
    ensures Inv(s.Write(p, s.phases[p].name, s.phases[p].now, ttl(p)), ttl, skew)
  {
    hide TableMatches, GrantsInOrder, WellTimed, UpdateMatches;
    WriteMatchesTable(s, p, s.phases[p].name, s.phases[p].now, ttl(p));
    WriteKeepsOrder(s, ttl, skew, p);
    WriteKeepsTiming(s, ttl, skew, p);
  }

  lemma NextKeepsInv(s: System, ttl: string -> nat, skew: string -> int, m: Move)
    requires Inv(s, ttl, skew)
    ensures Inv(Next(s, ttl, skew, m), ttl, skew)
  {
    hide Inv;
    if Next(s, ttl, skew, m).grants == s.grants {
      QuietKeepsInv(s, Next(s, ttl, skew, m), ttl, skew);
    } else {
      WriteKeepsInv(s, ttl, skew, m.p);
    }
  }

  // Moves that do not write only let time pass and move instances along.
  lemma QuietKeepsInv(s: System, s': System, ttl: string -> nat, skew: string -> int)
    requires Inv(s, ttl, skew) && s'.table == s.table && s'.grants == s.grants && s.clock <= s'.clock
    requires forall p :: p in s'.phases && !s'.phases[p].Idle? ==>
               s'.phases[p].now == s.clock + skew(p)
                 || (p in s.phases && !s.phases[p].Idle? && s'.phases[p].now == s.phases[p].now)
    ensures Inv(s', ttl, skew)
  {}

  lemma {:induction false} EveryRun(moves: seq<Move>, ttl: string -> nat, skew: string -> int)
    ensures Inv(Run(moves, ttl, skew), ttl, skew)
  {
    if moves != [] {
      EveryRun(moves[..|moves| - 1], ttl, skew);
      NextKeepsInv(Run(moves[..|moves| - 1], ttl, skew), ttl, skew, moves[|moves| - 1]);
    }
  }

  // ---------------------------------------------------------------- what it guarantees

  /** At time `t` the instance that got this grant may believe, by its own clock, that it leads. */
  predicate Leads(g: Grant, skew: string -> int, t: int) {
    g.at <= t && Unix(t + skew(g.holder)) <= g.expiresAt
  }

  /**
   In every run, whatever the interleaving: when a later grant of the lease goes to another
   instance, both lead at once for less time than the later one's clock is ahead.
   */
  lemma OverlapIsSkew(moves: seq<Move>, ttl: string -> nat, skew: string -> int, i: nat, j: nat, t: int)
    requires i < j < |Run(moves, ttl, skew).grants|
    requires var (g, h) := (Run(moves, ttl, skew).grants[i], Run(moves, ttl, skew).grants[j]);
             g.name == h.name && g.holder != h.holder && Leads(g, skew, t) && Leads(h, skew, t)
    ensures var (g, h) := (Run(moves, ttl, skew).grants[i], Run(moves, ttl, skew).grants[j]);
            t - h.at < skew(h.holder) - skew(g.holder)
  {
    EveryRun(moves, ttl, skew);
    var s := Run(moves, ttl, skew);
    hide Run;
    var g, h := s.grants[i], s.grants[j];
    assert Ordered(g, h) && g in s.grants && h in s.grants;
  }

  /** Two instances lead by one lease at one time, in some run. */
  ghost predicate TwoLeaders(ttl: string -> nat, skew: string -> int, p: string, q: string) {
    exists moves, g, h, t :: LeadTogether(moves, ttl, skew, p, q, g, h, t)
  }

  ghost predicate LeadTogether(moves: seq<Move>, ttl: string -> nat, skew: string -> int, p: string, q: string,
                               g: Grant, h: Grant, t: int) {
    && g in Run(moves, ttl, skew).grants && h in Run(moves, ttl, skew).grants && g.name == h.name
    && g.holder == p && h.holder == q && Leads(g, skew, t) && Leads(h, skew, t)
  }

  /**
   Over every interleaving of any number of instances, two of them never lead at once if and only
   if their clocks agree.
   */
  lemma MutualExclusion(ttl: string -> nat, skew: string -> int, p: string, q: string)
    requires p != q
    ensures !TwoLeaders(ttl, skew, p, q) <==> skew(p) == skew(q)
  {
    hide Leads;
    if skew(p) == skew(q) {
      forall moves, g, h, t ensures !LeadTogether(moves, ttl, skew, p, q, g, h, t) {
        if LeadTogether(moves, ttl, skew, p, q, g, h, t) {
          NeverTogether(moves, ttl, skew, p, q, g, h, t);
        }
      }
    } else if skew(p) < skew(q) {
      EarlyTakeover("renewals", p, q, ttl, skew);
    } else {
      EarlyTakeover("renewals", q, p, ttl, skew);
      var moves, g, h, t :| LeadTogether(moves, ttl, skew, q, p, g, h, t);
      assert LeadTogether(moves, ttl, skew, p, q, h, g, t);
    }
  }

  lemma NeverTogether(moves: seq<Move>, ttl: string -> nat, skew: string -> int, p: string, q: string,
                      g: Grant, h: Grant, t: int)
    requires p != q && skew(p) == skew(q)
    ensures !LeadTogether(moves, ttl, skew, p, q, g, h, t)
  {
    var s := Run(moves, ttl, skew);
    if LeadTogether(moves, ttl, skew, p, q, g, h, t) {
      var i :| 0 <= i < |s.grants| && s.grants[i] == g;
      var j :| 0 <= j < |s.grants| && s.grants[j] == h;
      assert g.at <= t && h.at <= t;
      if i < j { OverlapIsSkew(moves, ttl, skew, i, j, t); } else { OverlapIsSkew(moves, ttl, skew, j, i, t); }
    }
  }

  /**
   The lease of a call that read its clock at `g.sampled` lasts its TTL: nobody else is granted
   it before, by the clock of whoever is. Both clock reading and TTL are cut to whole seconds, so
   this needs the two cut-off parts to make up at most one second; for a TTL of whole seconds
   they always do.
   */
  lemma LeaseLastsItsTtl(moves: seq<Move>, ttl: string -> nat, skew: string -> int, i: nat, j: nat)
    requires i < j < |Run(moves, ttl, skew).grants|
    requires var (g, h) := (Run(moves, ttl, skew).grants[i], Run(moves, ttl, skew).grants[j]);
             && g.name == h.name && g.holder != h.holder
             && g.sampled % SECOND + ttl(g.holder) % SECOND <= SECOND
    ensures var (g, h) := (Run(moves, ttl, skew).grants[i], Run(moves, ttl, skew).grants[j]);
            g.sampled + ttl(g.holder) <= h.sampled <= h.at + skew(h.holder)
  {
    EveryRun(moves, ttl, skew);
    var s := Run(moves, ttl, skew);
    hide Run;
    var g, h := s.grants[i], s.grants[j];
    assert Ordered(g, h) && g in s.grants && h in s.grants;
  }

  /** How long after `at` the clock of `q` is past the lease that `p` got then; not less than 0. */
  function Wait(p: string, q: string, at: nat, ttl: string -> nat, skew: string -> int): nat {
    var w := (Expiry(at + skew(p), ttl(p)) + 1) * SECOND - skew(q) - at;
    if w >= 0 then w else 0
  }

  /** The moves of a first call of `p` at time `at`, then one of `q` as soon as its clock allows. */
  function Takeover(name: string, p: string, q: string, at: nat, ttl: string -> nat, skew: string -> int): seq<Move> {
    [Tick(at), Sample(p, name), RunUpdate(p), RunInsert(p), Tick(Wait(p, q, at, ttl, skew)), Sample(q, name),
      RunUpdate(q)]
  }

  lemma RunOne(moves: seq<Move>, ttl: string -> nat, skew: string -> int, m: Move)
    ensures Run([], ttl, skew) == Start
    ensures Run(moves + [m], ttl, skew) == Next(Run(moves, ttl, skew), ttl, skew, m)
  {
    assert (moves + [m])[..|moves|] == moves;
  }

  lemma TakeoverGrants(name: string, p: string, q: string, at: nat, ttl: string -> nat, skew: string -> int)
    requires p != q
    ensures var (a, b) := (at + skew(p), at + Wait(p, q, at, ttl, skew) + skew(q));
            Run(Takeover(name, p, q, at, ttl, skew), ttl, skew).grants
            == [Grant(name, p, a, at, Expiry(a, ttl(p))), Grant(name, q, b, b - skew(q), Expiry(b, ttl(q)))]
  {
    hide Run, Wait;
    var m := Takeover(name, p, q, at, ttl, skew);
    FirstGrant(name, p, at, ttl, skew);
    assert m[..4] == [Tick(at), Sample(p, name), RunUpdate(p), RunInsert(p)];
    var s4 := Run(m[..4], ttl, skew);
    SecondGrant(s4, name, p, q, at, ttl, skew);
    RunOne(m[..4], ttl, skew, m[4]);
    RunOne(m[..5], ttl, skew, m[5]);
    RunOne(m[..6], ttl, skew, m[6]);
    assert m[..4] + [m[4]] == m[..5] && m[..5] + [m[5]] == m[..6] && m[..6] + [m[6]] == m;
  }

  lemma FirstGrant(name: string, p: string, at: nat, ttl: string -> nat, skew: string -> int)
    ensures var a := at + skew(p);
            Run([Tick(at), Sample(p, name), RunUpdate(p), RunInsert(p)], ttl, skew)
            == System(at, map[name := Row(p, Expiry(a, ttl(p)))], map[p := Idle],
              [Grant(name, p, a, at, Expiry(a, ttl(p)))])
  {
    hide Run, Expiry;
    var m := [Tick(at), Sample(p, name), RunUpdate(p), RunInsert(p)];
    RunOne([], ttl, skew, m[0]);
    RunOne(m[..1], ttl, skew, m[1]);
    RunOne(m[..2], ttl, skew, m[2]);
    RunOne(m[..3], ttl, skew, m[3]);
    assert [] + [m[0]] == m[..1] && m[..1] + [m[1]] == m[..2] && m[..2] + [m[2]] == m[..3] && m[..3] + [m[3]] == m;
  }

  lemma SecondGrant(s: System, name: string, p: string, q: string, at: nat, ttl: string -> nat, skew: string -> int)
    requires p != q && s.clock == at && s.PhaseOf(q).Idle?
    requires s.table == map[name := Row(p, Expiry(at + skew(p), ttl(p)))]
    ensures var s5 := Next(s, ttl, skew, Tick(Wait(p, q, at, ttl, skew)));
            var s7 := Next(Next(s5, ttl, skew, Sample(q, name)), ttl, skew, RunUpdate(q));
            var b := s5.clock + skew(q);
            s7.grants == s.grants + [Grant(name, q, b, s5.clock, Expiry(b, ttl(q)))]
  {
    assert Unix(at + Wait(p, q, at, ttl, skew) + skew(q)) > Expiry(at + skew(p), ttl(p));
  }

  // With the clock of `q` ahead, `q` takes over while `p` still leads by its own clock.
  lemma EarlyTakeover(name: string, p: string, q: string, ttl: string -> nat, skew: string -> int)
    requires p != q && skew(p) < skew(q)
    ensures TwoLeaders(ttl, skew, p, q)
  {
    TakeoverGrants(name, p, q, 0, ttl, skew);
    var moves := Takeover(name, p, q, 0, ttl, skew);
    hide Run, Takeover;
    var grants := Run(moves, ttl, skew).grants;
    var g, h := grants[0], grants[1];
    StillLeads(p, q, ttl, skew);
    ExpiryMonotone(h.sampled, h.sampled, ttl(q));
    assert LeadTogether(moves, ttl, skew, p, q, g, h, h.at);
  }

  lemma StillLeads(p: string, q: string, ttl: string -> nat, skew: string -> int)
    requires skew(p) < skew(q)
    ensures Unix(Wait(p, q, 0, ttl, skew) + skew(p)) <= Expiry(skew(p), ttl(p))
  {
    ExpiryMonotone(skew(p), skew(p), ttl(p));
    hide Expiry;
    var w := Wait(p, q, 0, ttl, skew);
    if w > 0 { assert w + skew(p) < (Expiry(skew(p), ttl(p)) + 1) * SECOND; }
  }

  /**
   The condition of `LeaseLastsItsTtl` is exact, even with equal clocks. Whenever the two cut-off
   parts make up more than a second, in some run another instance is granted the lease too early.
   */
  lemma TruncationCutsShort(name: string, p: string, q: string, at: nat, ttl: string -> nat, skew: string -> int)
    requires p != q && skew(p) == skew(q) && (at + skew(p)) % SECOND + ttl(p) % SECOND > SECOND
    ensures var grants := Run(Takeover(name, p, q, at, ttl, skew), ttl, skew).grants;
            && |grants| == 2 && grants[0].name == grants[1].name == name
            && grants[0].holder == p && grants[0].sampled == at + skew(p)
            && grants[1].holder == q && grants[1].sampled < grants[0].sampled + ttl(p)
  {
    TakeoverGrants(name, p, q, at, ttl, skew);
    hide Run, Takeover;
    var a := at + skew(p);
    assert (Expiry(a, ttl(p)) + 1) * SECOND > a;
  }
}

/** The served configuration and its snapshots. */
module Snapshots {
  import opened Options
  import opened Newest

  // `Reload` and `Rollback` of internal/engine/engine.go over the snapshot table of
  // internal/store/misc.go, for one instance that runs them one after the other and a database
  // that does not fail.

  const KEEP := 50

  datatype Snap = Snap(json: string, hash: string, valid: bool)
  type Rows = map<int, Snap>

  /** A rendered configuration, as far as serving it goes. */
  datatype Rendered = Rendered(json: string, hash: string)

  // ---------------------------------------------------------------- the table

  /** `SELECT MAX(version)`, 0 on an empty table. */
  ghost predicate IsLatest(rows: Rows, v: int) {
    if rows == map[] then v == 0 else v in rows && forall w :: w in rows ==> w <= v
  }

  ghost function Pruned(rows: Rows, keep: nat): Rows {
    map v | v in rows && v in NewestOf(rows.Keys, keep) :: rows[v]
  }

  class Table {
    var rows: Rows

    constructor ()
      ensures rows == map[]
    {
      rows := map[];
    }

    /** INSERT; the version is the primary key. */
    method AddSnapshot(version: int, snap: Snap) returns (ok: bool)
      modifies this
      ensures ok == (version !in old(rows))
      ensures rows == if ok then old(rows)[version := snap] else old(rows)
    {
      ok := version !in rows;
      if ok {
        rows := rows[version := snap];
      }
    }

    method LatestSnapshotVersion() returns (v: int)
      ensures IsLatest(rows, v)
    {
      if rows == map[] {
        return 0;
      }
      v := TakeMax(rows.Keys);
    }

    method GetSnapshot(version: int) returns (r: Option<Snap>)
      ensures r == if version in rows then Some(rows[version]) else None
    {
      r := if version in rows then Some(rows[version]) else None;
    }

    /** DELETE of every version outside the newest `keep`. */
    method PruneSnapshots(keep: nat)
      modifies this
      ensures rows == Pruned(old(rows), keep)
    {
      var newest := SelectNewest(rows.Keys, keep);
      NewestUnique(newest, NewestOf(rows.Keys, keep), rows.Keys, keep);
      var todo := rows.Keys;
      while todo != {}
        invariant todo <= old(rows).Keys
        invariant rows == map v | v in old(rows) && (v in todo || v in newest) :: old(rows)[v]
        decreases todo
      {
        var v := TakeMax(todo);
        todo := todo - {v};
        if v !in newest {
          rows := rows - {v};
        }
      }
    }
  }

  // ---------------------------------------------------------------- the state machine

  /** `issued` lists the version numbers handed out since the table was created. */
  datatype Served = Served(rows: Rows, rendered: Option<Rendered>, version: int, issued: seq<int>)

  datatype Event =
    | Reload(result: Option<Rendered>)  // None: rendering or validation failed
    | Rollback(version: int)
    | ProcessRestart

  const Start := Served(map[], None, 0, [])

  ghost function LatestOf(rows: Rows): (v: int)
    ensures IsLatest(rows, v)
  {
    if rows == map[] then 0 else
    LatestIsThere(rows);
    var v :| v in rows && forall w :: w in rows ==> w <= v;
    v
  }

  lemma LatestIsThere(rows: Rows)
    requires rows != map[]
    ensures exists v :: v in rows && forall w :: w in rows ==> w <= v
  {
    var v := MaxExists(rows.Keys);
  }

  predicate Unchanged(s: Served, res: Rendered) {
    s.rendered.Some? && s.rendered.value.hash == res.hash
  }

  ghost function AfterReload(s: Served, res: Rendered): Served {
    if Unchanged(s, res) then s.(rendered := Some(res))
    else
      var next := LatestOf(s.rows) + 1;
      Served(Pruned(s.rows[next := Snap(res.json, res.hash, true)], KEEP), Some(res), next, s.issued + [next])
  }

  ghost function AfterRollback(s: Served, version: int): Served {
    if version !in s.rows then s
    else
      var snap := s.rows[version];
      var next := LatestOf(s.rows) + 1;
      Served(s.rows[next := Snap(snap.json, snap.hash, true)], Some(Rendered(snap.json, snap.hash)), next,
        s.issued + [next])
  }

  ghost function Step(s: Served, e: Event): Served {
    match e
    case Reload(None) => s
    case Reload(Some(res)) => AfterReload(s, res)
    case Rollback(version) => AfterRollback(s, version)
    case ProcessRestart => s.(rendered := None, version := 0)
  }

  ghost function Run(es: seq<Event>): Served {
    if es == [] then Start else Step(Run(es[..|es| - 1]), es[|es| - 1])
  }

  // ---------------------------------------------------------------- the invariant

  /** What is served is the newest row, and that row carries the served hash. */
  ghost predicate ServesLatest(s: Served) {
    s.rendered.Some? ==>
      && s.version in s.rows && s.rows[s.version].hash == s.rendered.value.hash
      && forall v :: v in s.rows ==> v <= s.version
  }

  /** Versions are handed out as 1, 2, 3, ...; the last one handed out is still in the table. */
  ghost predicate Numbered(s: Served) {
    && (forall i :: 0 <= i < |s.issued| ==> s.issued[i] == i + 1)
    && (forall v :: v in s.rows ==> 1 <= v <= |s.issued|)
    && (s.issued != [] ==> |s.issued| in s.rows)
  }

  ghost predicate Inv(s: Served) { ServesLatest(s) && Numbered(s) }

  lemma NextVersion(s: Served)
    requires Numbered(s)
    ensures LatestOf(s.rows) == |s.issued|
  {
    if s.issued != [] { assert s.rows != map[]; }
  }

  lemma PruneKeepsLatest(rows: Rows, v: int, keep: nat)
    requires keep >= 1 && v in rows && forall w :: w in rows ==> w <= v
    ensures v in Pruned(rows, keep) && Pruned(rows, keep)[v] == rows[v]
  {
    MaxKept(NewestOf(rows.Keys, keep), rows.Keys, keep, v);
  }

  lemma StepKeepsInv(s: Served, e: Event)
    requires Inv(s)
    ensures Inv(Step(s, e))
  {
    NextVersion(s);
    match e
    case Reload(Some(res)) =>
      if !Unchanged(s, res) {
        var next := |s.issued| + 1;
        PruneKeepsLatest(s.rows[next := Snap(res.json, res.hash, true)], next, KEEP);
      }
    case _ =>
  }

  lemma {:induction false} EveryRun(es: seq<Event>)
    ensures Inv(Run(es))
  {
    if es != [] {
      EveryRun(es[..|es| - 1]);
      StepKeepsInv(Run(es[..|es| - 1]), es[|es| - 1]);
    }
  }

  // ---------------------------------------------------------------- what it guarantees

  /** In every reachable state that serves something, `Version()` names the newest row, its row. */
  lemma ServedVersionIsLatest(es: seq<Event>)
    requires Run(es).rendered.Some?
    ensures var s := Run(es);
            && IsLatest(s.rows, s.version) && s.version in s.rows
            && s.rows[s.version].hash == s.rendered.value.hash
  {
    EveryRun(es);
  }

  /** Version numbers only go up, over process restarts too, and no row is ever rewritten. */
  lemma HistoryIsMonotone(es: seq<Event>, e: Event)
    ensures var (s, s') := (Run(es), Run(es + [e]));
            && s.issued <= s'.issued
            && (forall i, j :: 0 <= i < j < |s'.issued| ==> s'.issued[i] < s'.issued[j])
            && (forall v :: v in s'.rows && v !in s.rows ==> s'.issued == s.issued + [v])
            && (forall v :: v in s.rows && v in s'.rows ==> s'.rows[v] == s.rows[v])
  {
    assert (es + [e])[..|es|] == es;
    EveryRun(es);
    EveryRun(es + [e]);
    NextVersion(Run(es));
  }

  /** The configuration has the hash of the one that is served. */
  predicate HasServedHash(s: Served, res: Rendered) { s.rendered.Some? && res.hash == s.rendered.value.hash }

  /** Only a reload with a new hash or a rollback to an existing version touches the table. */
  lemma WhenTheTableChanges(es: seq<Event>, e: Event)
    ensures var (s, s') := (Run(es), Run(es + [e]));
            s'.rows != s.rows <==>
              (e.Reload? && e.result.Some? && !HasServedHash(s, e.result.value)) || (e.Rollback? && e.version in s.rows)
  {
    assert (es + [e])[..|es|] == es;
    EveryRun(es);
    EveryRun(es + [e]);
    NextVersion(Run(es));
    var s, s' := Run(es), Run(es + [e]);
    if s'.issued != s.issued { assert |s'.issued| in s'.rows && |s'.issued| !in s.rows; }
  }

  /** A reload that fails changes nothing, and one that renders the served hash again no version and no row. */
  lemma QuietReload(es: seq<Event>, result: Option<Rendered>)
    requires result.None? || HasServedHash(Run(es), result.value)
    ensures var (s, s') := (Run(es), Run(es + [Reload(result)]));
            && s'.rows == s.rows && s'.version == s.version && s'.issued == s.issued
            && s'.rendered == if result.None? then s.rendered else result
  {
    assert (es + [Reload(result)])[..|es|] == es;
  }

  /** A reload that renders something new leaves the newest 50 rows, the one just written first. */
  lemma ReloadKeepsNewestFifty(es: seq<Event>, res: Rendered)
    requires !HasServedHash(Run(es), res)
    ensures var (s, s') := (Run(es), Run(es + [Reload(Some(res))]));
            && IsNewest(s'.rows.Keys, s.rows.Keys + {s'.version}, 50)
            && s'.rows[s'.version] == Snap(res.json, res.hash, true) && s'.rendered == Some(res)
  {
    var all := es + [Reload(Some(res))];
    assert all[..|es|] == es;
    EveryRun(es);
    EveryRun(all);
    var next := LatestOf(Run(es).rows) + 1;
    var rows := Run(es).rows[next := Snap(res.json, res.hash, true)];
    assert rows.Keys == Run(es).rows.Keys + {next};
    assert Run(all).rows.Keys == NewestOf(rows.Keys, KEEP);
  }

  /** After a rollback the old snapshot is served under a new, higher version. */
  lemma RollbackServesOldSnapshot(es: seq<Event>, version: int)
    requires version in Run(es).rows
    ensures var (s, s') := (Run(es), Run(es + [Rollback(version)]));
            && s'.rendered == Some(Rendered(s.rows[version].json, s.rows[version].hash))
            && s'.version > version && s'.version !in s.rows
            && s'.rows == s.rows[s'.version := Snap(s.rows[version].json, s.rows[version].hash, true)]
  {
    assert (es + [Rollback(version)])[..|es|] == es;
    EveryRun(es);
  }

  // ---------------------------------------------------------------- the class

  class Engine {
    const st: Table
    var rendered: Option<Rendered>
    var version: int
    ghost var issued: seq<int>

    ghost function View(): Served
      reads this, st
    {
      Served(st.rows, rendered, version, issued)
    }

    constructor (st: Table)
      ensures this.st == st && View() == Served(st.rows, None, 0, [])
    {
      this.st, rendered, version, issued := st, None, 0, [];
    }

    /** `Reload`, given what rendering came to. */
    method ReloadConfig(result: Option<Rendered>) returns (ok: bool)
      requires Inv(View())
      modifies this, st
      ensures Inv(View()) && View() == Step(old(View()), Reload(result)) && ok == result.Some?
    {
      StepKeepsInv(View(), Reload(result));
      if result.None? {
        return false;
      }
      var res := result.value;
      var same := rendered.Some? && rendered.value.hash == res.hash;
      if same {
        rendered := Some(res);
        return true;
      }
      NextVersion(View());
      var next := st.LatestSnapshotVersion();
      next := next + 1;
      var added := st.AddSnapshot(next, Snap(res.json, res.hash, true));
      if !added {
        return false;
      }
      st.PruneSnapshots(KEEP);
      rendered := Some(res);
      version := next;
      issued := issued + [next];
      return true;
    }

    /** `Rollback`. */
    method RollbackTo(v: int) returns (ok: bool)
      requires Inv(View())
      modifies this, st
      ensures Inv(View()) && View() == Step(old(View()), Rollback(v)) && ok == (v in old(st.rows))
    {
      StepKeepsInv(View(), Rollback(v));
      var snap := st.GetSnapshot(v);
      if snap.None? {
        return false;
      }
      NextVersion(View());
      rendered := Some(Rendered(snap.value.json, snap.value.hash));
      var next := st.LatestSnapshotVersion();
      next := next + 1;
      var added := st.AddSnapshot(next, Snap(snap.value.json, snap.value.hash, true));
      version := next;
      issued := issued + [next];
      return true;
    }
  }
}

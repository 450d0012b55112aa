/** The ledger and the schema agree, over every sequence of calls that work on both. */
module Agreement {
  import opened Text
  import opened Directives
  import opened Ids
  import opened Ledger
  import opened Planner
  import opened Calls
  import opened Guards
  import opened Shapes
  import opened Reconciliation
  import opened Runs
  import Lexer

  /**
   A clean row means fully applied and no row means absent; what is anything else, such as half-run, therefore
   has a row with a failure on record.
   */
  ghost predicate Agrees(w: World) {
    && UniqueIds(w.rows)
    && (forall r :: r in w.rows && !r.failed ==> StatusOf(w, r.id) == Applied)
    && (forall id :: !HasRow(w.rows, id) ==> StatusOf(w, id) == Absent)
  }

  /** The shape of a database that the migrator has not touched. */
  lemma EmptyAgrees()
    ensures Agrees(World([], map[]))
  {
  }

  lemma HasRowAppend(rows: seq<Row>, row: Row, id: string)
    ensures HasRow(rows + [row], id) <==> HasRow(rows, id) || row.id == id
  {
    var all := rows + [row];
    assert forall i :: 0 <= i < |rows| ==> all[i] == rows[i];
    assert all[|rows|] == row;
  }

  lemma StatusSet(w: World, id: string, s: Status)
    ensures StatusOf(SetStatus(w, id, s), id) == s
    ensures forall row :: StatusOf(WithRow(SetStatus(w, id, s), row), id) == s
  {
  }

  lemma AgreesAfterApply(w: World, m: Migration, f: Fate)
    requires Agrees(w) && !HasRow(w.rows, m.id) && ApplyOne(w, m, f).error != Some(Unrecorded)
    ensures Agrees(ApplyOne(w, m, f).world)
  {
    hide ApplyOne, HasRow, UniqueIds, StatusOf;
    ApplyCases(w, m, f);
    var v := ApplyOne(w, m, f).world;
    if v != w {
      var row := NewRow(m, v != AppliedWorld(w, m));
      StatusSet(w, m.id, Applied);
      assert v.rows == w.rows + [row];
      UniqueAppend(w.rows, row);
      forall id
        ensures HasRow(v.rows, id) <==> HasRow(w.rows, id) || id == m.id
      {
        HasRowAppend(w.rows, row, id);
      }
      forall r | r in v.rows && !r.failed
        ensures StatusOf(v, r.id) == Applied
      {
        if r in w.rows {
          HasRowMember(w.rows, r.id);
          assert r.id != m.id;
        }
      }
    }
  }

  lemma StillClean(rows: seq<Row>, id: string, r: Row)
    requires r in WithFailed(rows, id) && !r.failed
    ensures r in rows && r.id != id
  {
    var i :| 0 <= i < |rows| && WithFailed(rows, id)[i] == r;
    assert rows[i] == r;
  }

  lemma AgreesAfterRollback(w: World, id: string, f: Fate)
    requires Agrees(w) && RollbackOne(w, id, f).error != Some(Unrecorded)
    ensures Agrees(RollbackOne(w, id, f).world)
  {
    hide RollbackOne, HasRow, UniqueIds, WithoutRow, WithFailed;
    RollbackCases(w, id, f);
    var v := RollbackOne(w, id, f).world;
    if v == RolledBack(w, id) {
      WithoutRowUnique(w.rows, id);
      WithoutRowMembers(w.rows, id);
      forall r | r in v.rows && !r.failed
        ensures StatusOf(v, r.id) == Applied
      {
        assert r in w.rows && r.id != id;
      }
    } else if v != w {
      WithFailedIds(w.rows, id);
      forall r | r in v.rows && !r.failed
        ensures StatusOf(v, r.id) == Applied
      {
        StillClean(w.rows, id, r);
      }
    }
  }

  lemma {:induction false} AgreesAfterRollbacks(w: World, ids: seq<string>, fates: seq<Fate>)
    requires Agrees(w) && RollbackAll(w, ids, fates).error != Some(Unrecorded)
    ensures Agrees(RollbackAll(w, ids, fates).world)
    decreases |ids|
  {
    hide Agrees, RollbackOne;
    if ids != [] {
      AgreesAfterRollback(w, ids[0], HeadFate(fates));
      var o := RollbackOne(w, ids[0], HeadFate(fates));
      if o.error.None? {
        AgreesAfterRollbacks(o.world, ids[1..], TailFates(fates));
      }
    }
  }

  lemma {:induction false} AgreesAfterApplies(w: World, ms: seq<Migration>, files: seq<Migration>, fates: seq<Fate>)
    requires Agrees(w) && Fresh(w.rows, ms) && AllIn(ms, files)
    requires ApplyAll(w, ms, files, fates).error != Some(Unrecorded)
    ensures Agrees(ApplyAll(w, ms, files, fates).world)
    decreases |ms|
  {
    hide Agrees, ApplyOne, Lookup;
    if ms != [] {
      var o := ApplyOne(w, ms[0], HeadFate(fates));
      AgreesAfterApply(w, ms[0], HeadFate(fates));
      ApplyCases(w, ms[0], HeadFate(fates));
      if o.error.None? {
        FreshTail(w.rows, ms);
        assert forall i :: 0 <= i < |ms| - 1 ==> ms[1..][i] == ms[i + 1];
        AgreesAfterApplies(o.world, ms[1..], files, TailFates(fates));
      }
    }
  }

  lemma AgreesAfterWork(w: World, c: Call)
    requires IsWork(c) && CallOk(c) && Agrees(w) && Run(w, c).error != Some(Unrecorded)
    ensures Agrees(Run(w, c).world)
  {
    hide Agrees, PlanFor, RollbackAll, ApplyAll, EnsureReversible, FailedIds, BlockedBy, Fresh, AllIn, Without;
    var plan := WorkPlan(w, c);
    PlanIsFresh(w, c);
    if c.DownCall? {
      if RollbackAll(w, plan.toRollback, c.fate.steps).error != Some(Unrecorded) {
        AgreesAfterRollbacks(w, plan.toRollback, c.fate.steps);
      }
    } else {
      var b := RollbackAll(w, plan.toRollback, c.fate.steps);
      if b.error != Some(Unrecorded) {
        AgreesAfterRollbacks(w, plan.toRollback, c.fate.steps);
        if b.error.None? {
          RollbacksLeave(w, plan.toRollback, c.fate.steps);
          var rest := DropFates(c.fate.steps, |plan.toRollback|);
          if ApplyAll(b.world, plan.toApply, WorkFiles(c), rest).error != Some(Unrecorded) {
            AgreesAfterApplies(b.world, plan.toApply, WorkFiles(c), rest);
          }
        }
      }
    }
  }

  /** Every call is Up, Reconcile or Down, and none of them reported ErrUnrecorded. */
  ghost predicate Trusted(w: World, calls: seq<Call>)
    decreases |calls|
  {
    calls == []
    || (IsWork(calls[0]) && CallOk(calls[0]) && Run(w, calls[0]).error != Some(Unrecorded)
        && Trusted(Run(w, calls[0]).world, calls[1..]))
  }

  /**
   Starting from agreement, any sequence of Up, Reconcile and Down, failing in any way, keeps ledger and
   schema in agreement as long as no call returns ErrUnrecorded.
   */
  lemma {:induction false} AlwaysAgrees(w: World, calls: seq<Call>)
    requires Agrees(w) && Trusted(w, calls)
    ensures Agrees(RunAll(w, calls))
    decreases |calls|
  {
    hide Agrees, Run;
    if calls != [] {
      AgreesAfterWork(w, calls[0]);
      AlwaysAgrees(Run(w, calls[0]).world, calls[1..]);
    }
  }

  /** In particular, starting from a database that the migrator has not touched. */
  lemma AgreesFromNothing(calls: seq<Call>)
    requires Trusted(World([], map[]), calls)
    ensures Agrees(RunAll(World([], map[]), calls))
  {
    EmptyAgrees();
    AlwaysAgrees(World([], map[]), calls);
  }

  // ---------------------------------------------------------------------------------------------
  // The limits of the guarantee

  /** ErrUnrecorded is not spurious: a lost bookkeeping write after a script has run breaks the agreement. */
  lemma UnrecordedIsReal(w: World, m: Migration) returns (f: Fate)
    requires Agrees(w) && !HasRow(w.rows, m.id) && IsNoTransaction(m.up)
    requires Lexer.Statements(ParseHeader(m.up).value.body).Success?
    ensures ApplyOne(w, m, f).error == Some(Unrecorded) && !Agrees(ApplyOne(w, m, f).world)
  {
    hide ParseHeader, UniqueIds, HasRow;
    f := LUCKY.(write := WriteError(false));
    assert StatusOf(ApplyOne(w, m, f).world, m.id) == Applied;
  }

  /**
   After an apply that returned ErrUnrecorded, the agreement holds exactly when the row was written after all,
   or the script failed without leaving anything behind.
   */
  lemma UnrecordedAgreesExactly(w: World, m: Migration, f: Fate)
    requires Agrees(w) && !HasRow(w.rows, m.id) && ApplyOne(w, m, f).error == Some(Unrecorded)
    ensures Agrees(ApplyOne(w, m, f).world) <==> f.write == WriteError(true) || f.script == Broke(Absent)
  {
    hide ParseHeader, UniqueIds, HasRow, Lexer.Statements;
    var v := ApplyOne(w, m, f).world;
    if v.rows != w.rows {
      var row := NewRow(m, f.script.Broke?);
      UniqueAppend(w.rows, row);
      forall id
        ensures HasRow(v.rows, id) <==> HasRow(w.rows, id) || id == m.id
      {
        HasRowAppend(w.rows, row, id);
      }
    }
    forall r | r in w.rows
      ensures r.id != m.id
    {
      HasRowMember(w.rows, m.id);
    }
  }

  /** What such a rollback has done. */
  lemma UnrecordedRollback(w: World, id: string, f: Fate)
    requires RollbackOne(w, id, f).error == Some(Unrecorded)
    ensures RowOf(w.rows, id).Some? && f.write.WriteError?
    ensures RollbackOne(w, id, f).world
            == World(if f.write == WriteError(false) then w.rows
                     else if f.script.Broke? then WithFailed(w.rows, id)
                     else WithoutRow(w.rows, id),
                     w.schema[id := if f.script.Broke? then f.script.left else Absent])
  {
    hide ParseHeader, HasRow, Lexer.Statements, WithoutRow, WithFailed, RowOf;
  }

  /**
   After a rollback that did, exactly when the row was removed or marked after all, or was marked before, or
   the script failed without taking anything away.
   */
  lemma UnrecordedRollbackAgreesExactly(w: World, id: string, f: Fate)
    requires Agrees(w) && RollbackOne(w, id, f).error == Some(Unrecorded)
    ensures Agrees(RollbackOne(w, id, f).world)
            <==> f.write == WriteError(true) || RowOf(w.rows, id).value.failed || f.script == Broke(Applied)
  {
    hide UniqueIds, HasRow, WithoutRow, WithFailed, RowOf, RollbackOne;
    UnrecordedRollback(w, id, f);
    var row := RowOf(w.rows, id).value;
    OnlyRow(w.rows, row);
    forall r | r in w.rows && r.id == id
      ensures r == row
    {
      OnlyRow(w.rows, r);
    }
    WithoutRowUnique(w.rows, id);
    WithoutRowMembers(w.rows, id);
    WithFailedIds(w.rows, id);
    forall r | r in WithFailed(w.rows, id) && !r.failed
      ensures r in w.rows && r.id != id
    {
      StillClean(w.rows, id, r);
    }
  }

  /** Forget keeps the agreement exactly when the operator has taken the migration out of the schema. */
  lemma ForgetAgreesExactly(w: World, id: string, f: CallFate)
    requires Agrees(w) && Forget(w, id, f).error.None?
    ensures Agrees(Forget(w, id, f).world) <==> StatusOf(w, id) == Absent
  {
    hide HasRow, UniqueIds, WithoutRow;
    WithoutRowUnique(w.rows, id);
    WithoutRowMembers(w.rows, id);
  }

  lemma ThroughNonEmpty(files: seq<Migration>, through: string)
    requires MigrationsThrough(files, through).Some?
    ensures MigrationsThrough(files, through).value != []
  {
  }

  /** Baseline keeps it exactly when the schema holds what is recorded. */
  lemma BaselineAgreesExactly(w: World, files: seq<Migration>, through: string, f: CallFate)
    requires Baseline(w, files, through, f).error.None?
    requires forall id :: id in RowIds(Baseline(w, files, through, f).world.rows) || StatusOf(w, id) == Absent
    ensures var r := Baseline(w, files, through, f);
            Agrees(r.world) <==> forall m :: m in r.applied ==> StatusOf(w, m.id) == Applied
  {
    var r := Baseline(w, files, through, f);
    BaselineRows(w, files, through, f);
    var ms := MigrationsThrough(files, through).value;
    ThroughNonEmpty(files, through);
    assert r.applied == ms && r.world.rows == NewRows(ms);
    forall m | m in ms
      ensures NewRow(m, false) in r.world.rows
    {
      var i :| 0 <= i < |ms| && ms[i] == m;
      assert r.world.rows[i] == NewRow(m, false);
    }
    forall row | row in r.world.rows
      ensures exists m :: m in ms && row == NewRow(m, false)
    {
      var i :| 0 <= i < |ms| && r.world.rows[i] == row;
      assert ms[i] in ms;
    }
    forall id | !HasRow(r.world.rows, id)
      ensures StatusOf(r.world, id) == Absent
    {
      assert id !in RowIds(r.world.rows);
    }
  }
}

/** When calls succeed: past their guards, if nothing fails; and for Baseline and Forget, exactly when. */
module Success {
  import opened Text
  import opened Directives
  import opened Ids
  import opened Ledger
  import opened Planner
  import opened Calls
  import opened Guards
  import opened Shapes
  import opened Reconciliation
  import opened Runs
  import opened Order
  import Refusals
  import Loader
  import Lexer

  // ---------------------------------------------------------------------------------------------
  // Up, Reconcile and Down

  lemma OneRollbackSucceeds(w: World, id: string)
    requires HasRow(w.rows, id) && StoredSoundly(w.rows)
    ensures RollbackOne(w, id, LUCKY) == Outcome(RolledBack(w, id), None)
  {
    hide ParseHeader, Lexer.Statements, HasRow, WithoutRow;
    var r := RowOf(w.rows, id);
  }

  lemma {:induction false} RollbacksSucceed(w: World, ids: seq<string>)
    requires StoredSoundly(w.rows) && (forall i :: 0 <= i < |ids| ==> HasRow(w.rows, ids[i]))
    requires forall i, j :: 0 <= i < j < |ids| ==> ids[i] != ids[j]
    ensures RollbackAll(w, ids, []).error.None?
    decreases |ids|
  {
    hide RollbackOne, HasRow, StoredSoundly, WithoutRow;
    if ids != [] {
      OneRollbackSucceeds(w, ids[0]);
      WithoutRowMembers(w.rows, ids[0]);
      StoredWithout(w.rows, ids[0]);
      RollbacksSucceed(RolledBack(w, ids[0]), ids[1..]);
    }
  }

  lemma OneApplySucceeds(w: World, m: Migration)
    requires !HasRow(w.rows, m.id) && Loader.IsSound(m)
    ensures ApplyOne(w, m, LUCKY) == Outcome(AppliedWorld(w, m), None)
  {
    hide ParseHeader, Lexer.Statements, HasRow;
  }

  lemma {:induction false} AppliesSucceed(w: World, ms: seq<Migration>, files: seq<Migration>)
    requires Fresh(w.rows, ms) && AllIn(ms, files) && AllSound(files)
    ensures ApplyAll(w, ms, files, []).error.None?
    decreases |ms|
  {
    hide ApplyOne, Lookup, Loader.IsSound;
    if ms != [] {
      LookupIn(files, ms[0].id);
      OneApplySucceeds(w, ms[0]);
      FreshTail(w.rows, ms);
      assert forall i :: 0 <= i < |ms| - 1 ==> ms[1..][i] == ms[i + 1];
      AppliesSucceed(AppliedWorld(w, ms[0]), ms[1..], files);
    }
  }

  /** The entries of a list that stand against the order of distinct ones are distinct, too. */
  lemma DistinctAgainst(xs: seq<string>, ys: seq<string>)
    requires AgainstOrderOf(xs, ys) && forall a, b :: 0 <= a < b < |xs| ==> xs[a] != xs[b]
    ensures forall i, j :: 0 <= i < j < |ys| ==> ys[i] != ys[j]
  {
    forall i, j | 0 <= i < j < |ys|
      ensures ys[i] != ys[j]
    {
      assert Before(xs, ys[j], ys[i]);
    }
  }

  lemma LastAreRows(rows: seq<Row>, count: int)
    ensures forall x :: x in LastIds(rows, count) ==> x in RowIds(rows)
  {
  }

  lemma CandidatesAreRows(w: World, c: Call)
    requires IsWork(c) && UniqueIds(w.rows)
    ensures var rb := WorkPlan(w, c).toRollback;
            && (forall i :: 0 <= i < |rb| ==> HasRow(w.rows, rb[i]))
            && (forall i, j :: 0 <= i < j < |rb| ==> rb[i] != rb[j])
  {
    hide PlanFor, HasRow, AgainstOrderOf, LastIds;
    var ids, rb := RowIds(w.rows), WorkPlan(w, c).toRollback;
    match c {
      case UpCall(_, _) =>
      case ReconcileCall(files, _, _) =>
        PlanOrder(files, ids, true);
        DistinctAgainst(ids, rb);
        assert forall x :: x in rb ==> x in ids;
      case DownCall(count, _) =>
        Refusals.LastOrder(w.rows, count);
        DistinctAgainst(ids, rb);
        ReverseMembers(LastIds(w.rows, count));
        LastAreRows(w.rows, count);
        assert forall x :: x in rb ==> x in ids;
    }
    forall i | 0 <= i < |rb|
      ensures HasRow(w.rows, rb[i])
    {
      Refusals.RowIdsMember(w.rows, rb[i]);
    }
  }

  lemma NoSteps(n: nat)
    ensures DropFates([], n) == []
  {
  }

  /** With sound files and rows, a call that no guard stops succeeds, if nothing fails. */
  lemma WorkSucceeds(w: World, c: Call)
    requires IsWork(c) && CallOk(c) && CallSound(c) && UniqueIds(w.rows) && StoredSoundly(w.rows)
    requires Starts(w, c) && c.fate.steps == []
    ensures Run(w, c).error.None?
  {
    hide PlanFor, RollbackAll, ApplyAll, Starts, CallOk, UniqueIds, StoredSoundly, Fresh, AllIn, Run, WorkPlan, Without;
    var plan, files := WorkPlan(w, c), WorkFiles(c);
    StartedRuns(w, c);
    CandidatesAreRows(w, c);
    RollbacksSucceed(w, plan.toRollback);
    RollbacksLeave(w, plan.toRollback, []);
    PlanIsFresh(w, c);
    NoSteps(|plan.toRollback|);
    AppliesSucceed(RollbackAll(w, plan.toRollback, []).world, plan.toApply, files);
  }

  lemma {:induction false} CheckAnswered(rows: seq<Row>, ids: seq<string>)
    requires StoredSoundly(rows)
    ensures IrreversibleIds(rows, ids, []).Success?
    decreases |ids|
  {
    hide ParseHeader, Lexer.Statements;
    if ids != [] {
      CheckAnswered(rows, ids[1..]);
      var r := RowOf(rows, ids[0]);
    }
  }

  lemma ChecksOut(rows: seq<Row>, ids: seq<string>)
    requires UniqueIds(rows) && StoredSoundly(rows) && Reversible(rows, ids)
    ensures EnsureReversible(rows, ids, []).None?
  {
    hide UniqueIds, StoredSoundly, IrreversibleIds, Reversible;
    ReversibleIsNotRefused(rows, ids, []);
    CheckAnswered(rows, ids);
  }

  /** In particular Up, on a ledger without failures. */
  lemma UpSucceeds(w: World, files: seq<Migration>)
    requires FilesOk(files) && AllSound(files) && UniqueIds(w.rows) && StoredSoundly(w.rows)
    requires forall r :: r in w.rows ==> !r.failed
    ensures Up(w, files, CallFate(true, true, [], [])).error.None?
  {
    hide FilesOk, AllSound, UniqueIds, StoredSoundly, Up, FailedIds;
    Refusals.NoFailures(w.rows);
    WorkSucceeds(w, UpCall(files, CallFate(true, true, [], [])));
  }

  /** And Down, if moreover its candidates are reversible. */
  lemma DownSucceeds(w: World, count: int)
    requires UniqueIds(w.rows) && StoredSoundly(w.rows) && forall r :: r in w.rows ==> !r.failed
    requires Reversible(w.rows, LastIds(w.rows, count))
    ensures Down(w, count, CallFate(true, true, [], [])).error.None?
  {
    hide UniqueIds, StoredSoundly, Down, FailedIds, EnsureReversible, LastIds, Reversible;
    Refusals.NoFailures(w.rows);
    ChecksOut(w.rows, LastIds(w.rows, count));
    WorkSucceeds(w, DownCall(count, CallFate(true, true, [], [])));
  }

  /** And Reconcile, if moreover its options allow what it has to do. */
  lemma ReconcileSucceeds(w: World, files: seq<Migration>, opts: Options)
    requires FilesOk(files) && AllSound(files) && UniqueIds(w.rows) && StoredSoundly(w.rows)
    requires forall r :: r in w.rows ==> !r.failed
    requires files == [] && w.rows != [] ==> opts.allowEmptySource
    requires Refusals.HasGone(w.rows, files) ==> opts.allowRollback
    requires Refusals.HasLate(w.rows, files) ==> opts.allowInterleaved
    requires forall r :: r in w.rows && !Refusals.InFiles(files, r.id) ==> !IsIrreversible(r.down)
    ensures Reconcile(w, files, opts, CallFate(true, true, [], [])).error.None?
  {
    hide FilesOk, AllSound, UniqueIds, StoredSoundly, Reconcile, FailedIds, EnsureReversible, PlanFor, HasRow,
      Refusals.HasGone, Refusals.HasLate, Refusals.InFiles, IsIrreversible;
    var plan := ReconcilePlan(w, files);
    Refusals.NoFailures(w.rows);
    Refusals.RollbackWanted(w.rows, files);
    Refusals.InterleavedWanted(w.rows, files);
    Refusals.EmptyGone(w.rows, files);
    Refusals.GoneIds(w.rows, files);
    assert Reversible(w.rows, plan.toRollback);
    ChecksOut(w.rows, plan.toRollback);
    WorkSucceeds(w, ReconcileCall(files, opts, CallFate(true, true, [], [])));
  }

  // ---------------------------------------------------------------------------------------------
  // Baseline and Forget

  /** The files through one of them: there is such a list exactly when it is among them, and then it ends with it. */
  lemma {:induction false} ThroughExactly(files: seq<Migration>, through: string)
    ensures MigrationsThrough(files, through).Some? <==> exists m :: m in files && m.id == through
    ensures MigrationsThrough(files, through).Some? ==>
              var ms := MigrationsThrough(files, through).value;
              && 0 < |ms| <= |files| && ms == files[..|ms|] && ms[|ms| - 1].id == through
              && forall i :: 0 <= i < |ms| - 1 ==> ms[i].id != through
  {
    if files != [] && files[0].id != through {
      var t := files[1..];
      ThroughExactly(t, through);
      assert files == [files[0]] + t;
      if MigrationsThrough(t, through).Some? {
        var ms := MigrationsThrough(t, through).value;
        assert [files[0]] + ms == files[..|ms| + 1];
      }
    } else if files != [] {
      assert files[0] in files;
    }
  }

  lemma DistinctRows(files: seq<Migration>, k: nat)
    requires FilesOk(files) && k <= |files|
    ensures UniqueIds(NewRows(files[..k]))
  {
    hide Less;
    var ids := MigrationIds(files);
    forall i, j | 0 <= i < j < k
      ensures files[i].id != files[j].id
    {
      LessAsymmetric(ids[i], ids[j]);
    }
  }

  /** Baseline succeeds exactly on an empty ledger, through a file that there is, with all its statements. */
  lemma BaselineExactly(w: World, files: seq<Migration>, through: string, f: CallFate)
    requires FilesOk(files)
    ensures var r := Baseline(w, files, through, f);
            var step := HeadFate(f.steps);
            && (r.error.None? <==>
                  && f.entry && w.rows == [] && f.load && (exists m :: m in files && m.id == through)
                  && step.open && step.write.Written? && step.commit.Written?)
            && (r.error.None? ==>
                  exists k :: 0 < k <= |files| && files[k - 1].id == through && r.applied == files[..k]
                              && r.world == World(NewRows(files[..k]), w.schema))
            && r.rolledBack == []
  {
    hide FilesOk;
    ThroughExactly(files, through);
    if MigrationsThrough(files, through).Some? {
      var ms := MigrationsThrough(files, through).value;
      DistinctRows(files, |ms|);
      assert [] + NewRows(ms) == NewRows(ms);
    }
  }

  /** Forget removes the row, leaves everything else as it is, and succeeds exactly when there was one. */
  lemma ForgetExactly(w: World, id: string, f: CallFate)
    ensures var r := Forget(w, id, f);
            var write := HeadFate(f.steps).write;
            && (r.error.None? <==> f.entry && write.Written? && HasRow(w.rows, id))
            && (f.entry && write.Written? && !HasRow(w.rows, id) ==> r.error == Some(NotRecorded))
            && r.world.schema == w.schema
            && (!f.entry || write == WriteError(false) ==> r.world == w)
            && (f.entry && write != WriteError(false) ==>
                  && (forall row :: row in r.world.rows <==> row in w.rows && row.id != id)
                  && (!HasRow(w.rows, id) ==> r.world == w))
  {
    hide WithoutRow, HasRow;
    WithoutRowContents(w.rows, id);
    if !HasRow(w.rows, id) {
      WithoutAbsent(w.rows, id);
    }
  }
}

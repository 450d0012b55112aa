/** Invariants over every sequence of calls, whatever the fates. */
module Runs {
  import opened Text
  import opened Directives
  import opened Ids
  import opened Ledger
  import opened Planner
  import opened Calls
  import opened Guards
  import opened Shapes
  import opened Reconciliation

  // ---------------------------------------------------------------------------------------------
  // Up, Reconcile and Down all execute a plan

  predicate IsWork(c: Call) {
    c.UpCall? || c.ReconcileCall? || c.DownCall?
  }

  /** The plan behind a call that starts on w. */
  function WorkPlan(w: World, c: Call): Plan
    requires IsWork(c)
  {
    match c
    case UpCall(files, _) => Plan([], PlanFor(files, RowIds(w.rows), false).toApply, [])
    case ReconcileCall(files, _, _) => ReconcilePlan(w, files)
    case DownCall(count, _) => Plan(Reverse(LastIds(w.rows, count)), [], [])
  }

  function WorkFiles(c: Call): seq<Migration> {
    if c.UpCall? || c.ReconcileCall? then c.files else []
  }

  lemma PlanAppliesMissing(w: World, c: Call)
    requires IsWork(c)
    ensures WorkPlan(w, c).toApply
            == if c.DownCall? then [] else Missing(WorkFiles(c), IdSet(RowIds(w.rows)))
  {
  }

  lemma PlanIsFresh(w: World, c: Call)
    requires IsWork(c) && CallOk(c)
    ensures var plan := WorkPlan(w, c);
            Fresh(Without(w.rows, IdSet(plan.toRollback)), plan.toApply) && AllIn(plan.toApply, WorkFiles(c))
  {
    hide FilesOk, Missing, Without, PlanFor;
    PlanAppliesMissing(w, c);
    if !c.DownCall? {
      MissingFresh(w.rows, WorkFiles(c), IdSet(WorkPlan(w, c).toRollback));
    }
  }

  /** The call gets past its guards and starts on its plan. */
  predicate Starts(w: World, c: Call)
    requires IsWork(c)
  {
    && c.fate.entry && FailedIds(w.rows) == [] && c.fate.load
    && match c
       case UpCall(_, _) => true
       case ReconcileCall(files, opts, _) =>
         && BlockedBy(ReconcilePlan(w, files), files, opts).None?
         && EnsureReversible(w.rows, ReconcilePlan(w, files).toRollback, c.fate.selects).None?
       case DownCall(count, _) => EnsureReversible(w.rows, LastIds(w.rows, count), c.fate.selects).None?
       case _ => false
  }

  /** A call that a guard stops has done nothing. */
  lemma NotStarted(w: World, c: Call)
    requires IsWork(c) && !Starts(w, c)
    ensures var r := Run(w, c); r.world == w && r.rolledBack == [] && r.applied == [] && r.error.Some?
  {
    hide PlanFor, RollbackAll, ApplyAll, EnsureReversible, FailedIds, BlockedBy;
    NoReversals(w.rows, c.fate.selects);
  }

  /** Running a plan, with none of the guards in front of it. */
  function Attempt(w: World, plan: Plan, files: seq<Migration>, steps: seq<Fate>): Report {
    var b := RollbackAll(w, plan.toRollback, steps);
    var x :=
      if b.error.Some? then Execution(b.world, b.done, 0, b.error)
      else
        var a := ApplyAll(b.world, plan.toApply, files, DropFates(steps, |plan.toRollback|));
        Execution(a.world, b.done, a.done, a.error);
    Executed(plan, x)
  }

  /** A call that starts does what its plan says. */
  lemma StartedRuns(w: World, c: Call)
    requires IsWork(c) && Starts(w, c)
    ensures Run(w, c) == Attempt(w, WorkPlan(w, c), WorkFiles(c), c.fate.steps)
  {
    hide PlanFor, EnsureReversible, FailedIds, BlockedBy, LastIds;
    NoReversals(w.rows, c.fate.selects);
  }

  lemma StartedReversible(w: World, c: Call)
    requires IsWork(c) && UniqueIds(w.rows) && Starts(w, c)
    ensures Reversible(w.rows, WorkPlan(w, c).toRollback)
  {
    hide PlanFor, EnsureReversible, Reversible, FailedIds, BlockedBy, UniqueIds;
    match c {
      case UpCall(_, _) =>
        NothingIrreversible(w.rows);
      case ReconcileCall(files, _, _) =>
        PassedIsReversible(w.rows, ReconcilePlan(w, files).toRollback, c.fate.selects);
      case DownCall(count, _) =>
        var ids := LastIds(w.rows, count);
        PassedIsReversible(w.rows, ids, c.fate.selects);
        ReverseMembers(ids);
        ReversibleSame(w.rows, ids, Reverse(ids));
    }
  }

  lemma DownEnds(rows: seq<Row>, plan: Plan, after: seq<Row>, k: nat, marked: bool)
    requires plan.toApply == [] && k <= |plan.toRollback|
    requires RolledBackTo(rows, plan.toRollback, after, k, marked)
    ensures EndsAt(rows, plan, after, End(k, 0, marked))
  {
    if k == |plan.toRollback| {
      assert plan.toRollback[..k] == plan.toRollback;
      NoneApplied(after, plan.toApply);
    }
  }

  /** Where a call that executes a plan leaves the ledger, and what it reports. */
  lemma WorkShape(w: World, c: Call) returns (e: End)
    requires IsWork(c) && CallOk(c) && UniqueIds(w.rows)
    ensures EndsAt(w.rows, WorkPlan(w, c), Run(w, c).world.rows, e)
    ensures Starts(w, c) ==> FailedIds(w.rows) == [] && Reversible(w.rows, WorkPlan(w, c).toRollback)
    ensures !Starts(w, c) ==> Run(w, c).world == w && e == End(0, 0, false)
    ensures c.ReconcileCall? && Starts(w, c) ==> BlockedBy(WorkPlan(w, c), c.files, c.opts) == None
    ensures var r, plan := Run(w, c), WorkPlan(w, c);
            && |r.rolledBack| <= |plan.toRollback| && r.rolledBack == plan.toRollback[..|r.rolledBack|]
            && |r.applied| <= |plan.toApply| && r.applied == plan.toApply[..|r.applied|]
            && (r.applied != [] ==> r.rolledBack == plan.toRollback)
            && (AllHonest(c.fate.steps) && r.error != Some(Unrecorded) ==>
                  e == End(|r.rolledBack|, |r.applied|, e.marked) && (e.marked ==> r.error == Some(ScriptFailed)))
  {
    hide PlanFor, EndsAt, Fresh, AllIn, Without, RollbackAll, ApplyAll, EnsureReversible, Reversible, FailedIds,
      BlockedBy, UniqueIds, AllHonest;
    var plan := WorkPlan(w, c);
    if !Starts(w, c) {
      NotStarted(w, c);
      NothingDone(w.rows, plan);
      return End(0, 0, false);
    }
    PlanIsFresh(w, c);
    StartedReversible(w, c);
    if c.DownCall? {
      var k, marked := RollbackAllShape(w, plan.toRollback, c.fate.steps);
      DownEnds(w.rows, plan, Run(w, c).world.rows, k, marked);
      return End(k, 0, marked);
    }
    e := ExecutePlanShape(w, plan, WorkFiles(c), c.fate.selects, c.fate.steps);
    EndBounds(w.rows, plan, Run(w, c).world.rows, e);
  }

  /**
   Whatever fails, and short of a commit that took effect in spite of its error and of ErrUnrecorded, the
   ledger is the old one minus exactly what is reported as rolled back, plus exactly what is reported as
   applied, plus at most one failed row, which only a broken script leaves. What is reported is a prefix of
   the plan, with nothing applied before everything has been rolled back.
   */
  lemma ReportIsExact(w: World, c: Call) returns (marked: bool)
    requires IsWork(c) && CallOk(c) && UniqueIds(w.rows)
    requires AllHonest(c.fate.steps) && Run(w, c).error != Some(Unrecorded)
    ensures var plan, r := WorkPlan(w, c), Run(w, c);
            && EndsAt(w.rows, plan, r.world.rows, End(|r.rolledBack|, |r.applied|, marked))
            && r.rolledBack == plan.toRollback[..|r.rolledBack|] && r.applied == plan.toApply[..|r.applied|]
            && (marked ==> r.error == Some(ScriptFailed))
  {
    hide WorkPlan, EndsAt, Run, CallOk, AllHonest;
    var e := WorkShape(w, c);
    return e.marked;
  }

  // ---------------------------------------------------------------------------------------------
  // One row per migration, and at most one failure on record

  ghost predicate Orderly(w: World) {
    UniqueIds(w.rows) && |FailedIds(w.rows)| <= 1
  }

  lemma ForgetRows(w: World, id: string, f: CallFate)
    ensures Forget(w, id, f).world in {w, w.(rows := WithoutRow(w.rows, id))}
  {
  }

  lemma {:induction false} FailedWithout(rows: seq<Row>, id: string)
    ensures |FailedIds(WithoutRow(rows, id))| <= |FailedIds(rows)|
    ensures forall x :: x in FailedIds(WithoutRow(rows, id)) <==> x in FailedIds(rows) && x != id
  {
    if rows != [] {
      FailedWithout(rows[1..], id);
      var t := WithoutRow(rows[1..], id);
      assert ([rows[0]] + t)[1..] == t;
    }
  }

  lemma BaselineRows(w: World, files: seq<Migration>, through: string, f: CallFate)
    ensures var v := Baseline(w, files, through, f).world;
            && v.schema == w.schema
            && (v == w || (w.rows == [] && MigrationsThrough(files, through).Some?
                           && v.rows == NewRows(MigrationsThrough(files, through).value) && UniqueIds(v.rows)))
  {
    hide UniqueIds;
    if MigrationsThrough(files, through).Some? {
      var ms := MigrationsThrough(files, through).value;
      assert w.rows == [] ==> w.rows + NewRows(ms) == NewRows(ms);
    }
  }

  lemma StaysOrderly(w: World, c: Call)
    requires CallOk(c) && Orderly(w)
    ensures Orderly(Run(w, c).world)
  {
    hide FailedIds, UniqueIds, EndsAt, Fresh, WorkPlan, Up, Reconcile, Down, Forget, Baseline;
    match c {
      case ForgetCall(id, f) =>
        ForgetRows(w, id, f);
        FailedWithout(w.rows, id);
        WithoutRowUnique(w.rows, id);
      case BaselineCall(files, through, f) =>
        BaselineRows(w, files, through, f);
        if MigrationsThrough(files, through).Some? {
          NewRowsClean(MigrationsThrough(files, through).value);
        }
      case _ =>
        var e := WorkShape(w, c);
        if Run(w, c).world != w {
          PlanIsFresh(w, c);
          var after := Run(w, c).world.rows;
          EndUnique(w.rows, WorkPlan(w, c), after, e);
          var _ := EndCleared(w.rows, WorkPlan(w, c), after, e);
        }
    }
  }

  ghost predicate AllOk(calls: seq<Call>) {
    forall i :: 0 <= i < |calls| ==> CallOk(calls[i])
  }

  /** Every reachable ledger has one row per migration and at most one failure on record. */
  lemma {:induction false} AlwaysOrderly(w: World, calls: seq<Call>)
    requires AllOk(calls) && Orderly(w)
    ensures Orderly(RunAll(w, calls))
    decreases |calls|
  {
    hide Orderly, Run, CallOk;
    if calls != [] {
      StaysOrderly(w, calls[0]);
      AlwaysOrderly(Run(w, calls[0]).world, calls[1..]);
    }
  }

  /**
   While a failure is on record, every call but Forget leaves ledger and schema alone and reports an
   error; Forget of another migration leaves the failure on record, and a successful Forget of the failed
   one clears it.
   */
  lemma FrozenWhileFailed(w: World, c: Call)
    requires UniqueIds(w.rows) && FailedIds(w.rows) != []
    ensures !c.ForgetCall? ==> Run(w, c).world == w && Run(w, c).error.Some?
    ensures c.ForgetCall? ==> Run(w, c).world.schema == w.schema
    ensures c.ForgetCall? ==>
              forall x :: x in FailedIds(w.rows) && x != c.id ==> x in FailedIds(Run(w, c).world.rows)
    ensures c.ForgetCall? && FailedIds(w.rows) == [c.id] && Run(w, c).error.None? ==>
              FailedIds(Run(w, c).world.rows) == []
  {
    hide UniqueIds;
    if c.ForgetCall? {
      ForgetRows(w, c.id, c.fate);
      FailedWithout(w.rows, c.id);
      var left := FailedIds(WithoutRow(w.rows, c.id));
      assert left != [] ==> left[0] in left;
    } else if c.BaselineCall? {
      assert w.rows != [];
    }
  }

  ghost predicate NoneForgets(calls: seq<Call>) {
    forall i :: 0 <= i < |calls| ==> !calls[i].ForgetCall?
  }

  /** Once a failure is on record, nothing but a Forget moves the database again. */
  lemma {:induction false} FrozenUntilForgotten(w: World, calls: seq<Call>)
    requires UniqueIds(w.rows) && FailedIds(w.rows) != [] && NoneForgets(calls)
    ensures RunAll(w, calls) == w
    decreases |calls|
  {
    hide UniqueIds, FailedIds, Run;
    if calls != [] {
      FrozenWhileFailed(w, calls[0]);
      FrozenUntilForgotten(w, calls[1..]);
    }
  }

  // ---------------------------------------------------------------------------------------------
  // Irreversible migrations

  lemma UnmarkedRow(rows: seq<Row>, id: string, r: Row)
    requires r in rows && r.id != id
    ensures r in WithFailed(rows, id)
  {
    var i :| 0 <= i < |rows| && rows[i] == r;
    assert WithFailed(rows, id)[i] == r;
  }

  lemma SurvivesPlan(rows: seq<Row>, plan: Plan, after: seq<Row>, e: End, r: Row)
    requires EndsAt(rows, plan, after, e) && r in rows && r.id !in plan.toRollback
    ensures r in after
  {
    hide Without, WithFailed;
    WithoutMembers(rows, IdSet(plan.toRollback[..e.rolled]));
    WithoutMembers(rows, IdSet(plan.toRollback));
    if e.rolled < |plan.toRollback| && e.marked {
      UnmarkedRow(Without(rows, IdSet(plan.toRollback[..e.rolled])), plan.toRollback[e.rolled], r);
    }
  }

  /** A row whose stored rollback is marked irreversible outlives every call but Forget of it. */
  lemma IrreversibleRowsStay(w: World, c: Call, r: Row)
    requires CallOk(c) && UniqueIds(w.rows) && r in w.rows && IsIrreversible(r.down)
    requires c.ForgetCall? ==> c.id != r.id
    ensures r in Run(w, c).world.rows
  {
    hide FailedIds, IsIrreversible, UniqueIds, WorkPlan, Up, Reconcile, Down, Forget, Baseline, Without, WithFailed, Fresh;
    match c {
      case ForgetCall(id, f) =>
        ForgetRows(w, id, f);
        WithoutRowContents(w.rows, id);
      case BaselineCall(files, through, f) =>
        BaselineRows(w, files, through, f);
      case _ =>
        var e := WorkShape(w, c);
        var plan, after := WorkPlan(w, c), Run(w, c).world.rows;
        if Run(w, c).world != w {
          assert r.id !in plan.toRollback;
          SurvivesPlan(w.rows, plan, after, e, r);
        }
    }
  }

  ghost predicate NoneForgetsId(calls: seq<Call>, id: string) {
    forall i :: 0 <= i < |calls| && calls[i].ForgetCall? ==> calls[i].id != id
  }

  /** Over every run, it is removed only by Forget. */
  lemma {:induction false} IrreversibleRowsOutliveRuns(w: World, calls: seq<Call>, r: Row)
    requires AllOk(calls) && Orderly(w) && r in w.rows && IsIrreversible(r.down) && NoneForgetsId(calls, r.id)
    ensures r in RunAll(w, calls).rows
    decreases |calls|
  {
    hide CallOk, Run, IsIrreversible, UniqueIds, FailedIds;
    if calls != [] {
      IrreversibleRowsStay(w, calls[0], r);
      StaysOrderly(w, calls[0]);
      IrreversibleRowsOutliveRuns(Run(w, calls[0]).world, calls[1..], r);
    }
  }

  /** One irreversible candidate stops the whole operation, before anything runs. */
  lemma IrreversibleRefuses(w: World, c: Call, r: Row)
    requires IsWork(c) && CallOk(c) && UniqueIds(w.rows)
    requires r in w.rows && IsIrreversible(r.down) && r.id in WorkPlan(w, c).toRollback
    ensures Run(w, c).world == w && Run(w, c).error.Some? && Run(w, c).rolledBack == [] && Run(w, c).applied == []
  {
    hide IsIrreversible, UniqueIds, PlanFor, RollbackAll, ApplyAll, EnsureReversible, FailedIds, BlockedBy;
    var plan := WorkPlan(w, c);
    assert plan.toRollback != [];
    if c.DownCall? {
      var ids := LastIds(w.rows, c.count);
      ReverseMembers(ids);
      if EnsureReversible(w.rows, ids, c.fate.selects).None? {
        PassedIsReversible(w.rows, ids, c.fate.selects);
      }
    } else if EnsureReversible(w.rows, plan.toRollback, c.fate.selects).None? {
      PassedIsReversible(w.rows, plan.toRollback, c.fate.selects);
    }
  }
}

/**
 A service call one step at a time: each look at the ledger and each executor call acts on the database as it
 finds it, and keeps nothing of it but what the code keeps in variables. Run alone, the steps add up to the
 call.
 */
module Steps {
  import opened Text
  import opened Ids
  import opened Ledger
  import opened Planner
  import opened Calls
  import opened Guards
  import opened Shapes
  import opened Reconciliation
  import opened Runs
  import Directives

  /** What a call returns. */
  datatype Answer = Answer(rolledBack: seq<string>, applied: seq<Migration>, error: Option<Error>)

  function AnswerOf(r: Report): Answer {
    Answer(r.rolledBack, r.applied, r.error)
  }

  /** Where a call is, with the variables it has set. */
  datatype Stage =
    | Begun
    | Checked                                         // past the look for failed rows, or for any row
    | Planned(plan: Plan, candidates: seq<string>)    // the pre-flight check is next
    | Running(plan: Plan, done: nat)                  // that many executor calls have succeeded
    | Recording(ms: seq<Migration>)
    | Ended(answer: Answer)

  datatype Moment = Moment(world: World, stage: Stage)

  function Declined(e: Error): Stage {
    Ended(Answer([], [], Some(e)))
  }

  /** The first look at the ledger. */
  function Check(v: World, c: Call): Stage {
    if !c.fate.entry then Declined(DatabaseError)
    else if IsWork(c) && FailedIds(v.rows) != [] then Declined(FailedMigrations(FailedIds(v.rows)))
    else if c.BaselineCall? && v.rows != [] then Declined(AlreadyRecorded)
    else Checked
  }

  /** The second look, at the files and the ledger. */
  function Prepare(v: World, c: Call): Stage
    requires !c.ForgetCall?
  {
    if !c.fate.load then Declined(DatabaseError)
    else
      match c
      case UpCall(files, _) => Planned(WorkPlan(v, c), [])
      case ReconcileCall(files, opts, _) =>
        var plan := ReconcilePlan(v, files);
        (match BlockedBy(plan, files, opts)
         case Some(e) => Declined(e)
         case None => Planned(plan, plan.toRollback))
      case DownCall(count, _) => Planned(WorkPlan(v, c), LastIds(v.rows, count))
      case BaselineCall(files, through, _) =>
        match MigrationsThrough(files, through)
        case None => Declined(BaselineNotFound)
        case Some(ms) => Recording(ms)
  }

  /** One executor call of a plan. */
  function WorkStep(v: World, c: Call, plan: Plan, done: nat): Moment
    requires IsWork(c)
  {
    var n := |plan.toRollback|;
    if done < n then
      var o := RollbackOne(v, plan.toRollback[done], FateAt(c.fate.steps, done));
      Moment(o.world,
             if o.error.None? then Running(plan, done + 1) else Ended(Answer(plan.toRollback[..done], [], o.error)))
    else if done - n < |plan.toApply| then
      match Lookup(WorkFiles(c), plan.toApply[done - n].id)
      case None => Moment(v, Ended(Answer(plan.toRollback, plan.toApply[..done - n], Some(NotInFiles))))
      case Some(m) =>
        var o := ApplyOne(v, m, FateAt(c.fate.steps, done));
        Moment(o.world,
               if o.error.None? then Running(plan, done + 1)
               else Ended(Answer(plan.toRollback, plan.toApply[..done - n], o.error)))
    else Moment(v, Ended(Answer(plan.toRollback, plan.toApply, None)))
  }

  /** The next step of a call that finds the database to be v. */
  function Next(v: World, c: Call, s: Stage): Moment {
    match s
    case Begun => Moment(v, Check(v, c))
    case Checked =>
      if c.ForgetCall? then
        var r := Forget(v, c.id, c.fate);
        Moment(r.world, Ended(AnswerOf(r)))
      else Moment(v, Prepare(v, c))
    case Planned(plan, candidates) =>
      (match EnsureReversible(v.rows, candidates, c.fate.selects)
       case Some(e) => Moment(v, Declined(e))
       case None => Moment(v, Running(plan, 0)))
    case Running(plan, done) => if IsWork(c) then WorkStep(v, c, plan, done) else Moment(v, s)
    case Recording(ms) =>
      var o := RecordApplied(v, ms, HeadFate(c.fate.steps));
      Moment(o.world, Ended(Answer([], if o.error.None? then ms else [], o.error)))
    case Ended(_) => Moment(v, s)
  }

  /** The call by itself, k steps after it began on w. */
  function Alone(w: World, c: Call, k: nat): Moment {
    if k == 0 then Moment(w, Begun)
    else
      var m := Alone(w, c, k - 1);
      Next(m.world, c, m.stage)
  }

  // ---------------------------------------------------------------------------------------------
  // Batches, cut in two

  lemma {:induction false} RollbackAppend(w: World, a: seq<string>, b: seq<string>, fates: seq<Fate>)
    ensures var x := RollbackAll(w, a, fates);
            RollbackAll(w, a + b, fates)
            == if x.error.Some? then x
               else
                 var y := RollbackAll(x.world, b, DropFates(fates, |a|));
                 y.(done := y.done + |a|)
    ensures RollbackAll(w, a, fates).error.None? ==> RollbackAll(w, a, fates).done == |a|
    decreases |a|
  {
    hide RollbackOne;
    if a == [] {
      assert a + b == b && DropFates(fates, 0) == fates;
    } else {
      var o := RollbackOne(w, a[0], HeadFate(fates));
      assert (a + b)[1..] == a[1..] + b;
      if o.error.None? {
        RollbackAppend(o.world, a[1..], b, TailFates(fates));
        assert DropFates(TailFates(fates), |a| - 1) == DropFates(fates, |a|);
      }
    }
  }

  lemma {:induction false} ApplyAppend(w: World, a: seq<Migration>, b: seq<Migration>, files: seq<Migration>,
                                       fates: seq<Fate>)
    ensures var x := ApplyAll(w, a, files, fates);
            ApplyAll(w, a + b, files, fates)
            == if x.error.Some? then x
               else
                 var y := ApplyAll(x.world, b, files, DropFates(fates, |a|));
                 y.(done := y.done + |a|)
    ensures ApplyAll(w, a, files, fates).error.None? ==> ApplyAll(w, a, files, fates).done == |a|
    decreases |a|
  {
    hide ApplyOne, Lookup;
    if a == [] {
      assert a + b == b && DropFates(fates, 0) == fates;
    } else {
      assert (a + b)[1..] == a[1..] + b;
      var m := Lookup(files, a[0].id);
      if m.Some? {
        var o := ApplyOne(w, m.value, HeadFate(fates));
        if o.error.None? {
          ApplyAppend(o.world, a[1..], b, files, TailFates(fates));
          assert DropFates(TailFates(fates), |a| - 1) == DropFates(fates, |a|);
        }
      }
    }
  }

  /** One rollback more: on the world that the first k left. */
  lemma RollbackStep(w: World, ids: seq<string>, fates: seq<Fate>, k: nat, v: World)
    requires k < |ids| && RollbackAll(w, ids[..k], fates) == Batch(v, k, None)
    ensures var o := RollbackOne(v, ids[k], FateAt(fates, k));
            && (o.error.None? ==> RollbackAll(w, ids[..k + 1], fates) == Batch(o.world, k + 1, None))
            && (o.error.Some? ==> RollbackAll(w, ids, fates) == Batch(o.world, k, o.error))
  {
    hide RollbackOne;
    FatesStep(fates, k);
    RollbackAppend(w, ids[..k], [ids[k]], fates);
    RollbackAppend(w, ids[..k], ids[k..], fates);
    assert ids == ids[..k] + ids[k..] && ids[..k + 1] == ids[..k] + [ids[k]];
    assert [ids[k]][1..] == [];
  }

  lemma ApplyStep(w: World, ms: seq<Migration>, files: seq<Migration>, fates: seq<Fate>, k: nat, v: World)
    requires k < |ms| && ApplyAll(w, ms[..k], files, fates) == Batch(v, k, None)
    ensures var m := Lookup(files, ms[k].id);
            if m.None? then ApplyAll(w, ms, files, fates) == Batch(v, k, Some(NotInFiles))
            else
              var o := ApplyOne(v, m.value, FateAt(fates, k));
              && (o.error.None? ==> ApplyAll(w, ms[..k + 1], files, fates) == Batch(o.world, k + 1, None))
              && (o.error.Some? ==> ApplyAll(w, ms, files, fates) == Batch(o.world, k, o.error))
  {
    hide ApplyOne, Lookup;
    FatesStep(fates, k);
    ApplyAppend(w, ms[..k], [ms[k]], files, fates);
    ApplyAppend(w, ms[..k], ms[k..], files, fates);
    assert ms == ms[..k] + ms[k..] && ms[..k + 1] == ms[..k] + [ms[k]];
    assert [ms[k]][1..] == [];
  }

  // ---------------------------------------------------------------------------------------------
  // What the steps of a call on its own have in common with the call

  /** The first `done` executor calls of a plan succeeded and led from w to v. */
  ghost predicate SoFar(w: World, plan: Plan, files: seq<Migration>, fates: seq<Fate>, done: nat, v: World) {
    var n := |plan.toRollback|;
    && done <= n + |plan.toApply|
    && if done <= n then RollbackAll(w, plan.toRollback[..done], fates) == Batch(v, done, None)
       else
         var b := RollbackAll(w, plan.toRollback, fates);
         && b == Batch(b.world, n, None)
         && ApplyAll(b.world, plan.toApply[..done - n], files, DropFates(fates, n)) == Batch(v, done - n, None)
  }

  /** The stage is one that the call gets to from w, and the world is what it has made of w by then. */
  ghost predicate Fits(w: World, c: Call, m: Moment) {
    match m.stage
    case Begun => m.world == w
    case Checked =>
      && m.world == w && c.fate.entry && (IsWork(c) ==> FailedIds(w.rows) == []) && (c.BaselineCall? ==> w.rows == [])
    case Planned(plan, candidates) =>
      && m.world == w && IsWork(c) && plan == WorkPlan(w, c)
      && (Starts(w, c) <==> EnsureReversible(w.rows, candidates, c.fate.selects).None?)
      && (!Starts(w, c) ==>
            Run(w, c) == Refused(w, EnsureReversible(w.rows, candidates, c.fate.selects).value))
    case Running(plan, done) =>
      IsWork(c) && Starts(w, c) && plan == WorkPlan(w, c) && SoFar(w, plan, WorkFiles(c), c.fate.steps, done, m.world)
    case Recording(ms) =>
      && m.world == w && c.BaselineCall? && c.fate.entry && c.fate.load && w.rows == []
      && MigrationsThrough(c.files, c.through) == Some(ms)
    case Ended(answer) => m.world == Run(w, c).world && answer == AnswerOf(Run(w, c))
  }

  lemma CheckFits(w: World, c: Call)
    ensures Fits(w, c, Moment(w, Check(w, c)))
  {
    hide PlanFor, RollbackAll, ApplyAll, EnsureReversible, FailedIds, BlockedBy, MigrationsThrough;
  }

  lemma PrepareFits(w: World, c: Call)
    requires !c.ForgetCall? && Fits(w, c, Moment(w, Checked))
    ensures Fits(w, c, Moment(w, Prepare(w, c)))
  {
    hide PlanFor, RollbackAll, ApplyAll, EnsureReversible, FailedIds, BlockedBy, MigrationsThrough;
    NoReversals(w.rows, c.fate.selects);
  }

  lemma NothingRun(w: World, fates: seq<Fate>, files: seq<Migration>)
    ensures RollbackAll(w, [], fates) == Batch(w, 0, None) && ApplyAll(w, [], files, fates) == Batch(w, 0, None)
  {
  }

  lemma RunningBegins(w: World, c: Call)
    requires IsWork(c) && Starts(w, c)
    ensures Fits(w, c, Moment(w, Running(WorkPlan(w, c), 0)))
  {
    hide RollbackAll, ApplyAll, Starts, WorkPlan;
    NothingRun(w, c.fate.steps, []);
    assert WorkPlan(w, c).toRollback[..0] == [];
  }

  lemma LaterFate(fates: seq<Fate>, n: nat, k: nat)
    ensures FateAt(DropFates(fates, n), k) == FateAt(fates, n + k)
  {
  }

  lemma WorkStepFits(w: World, c: Call, v: World, done: nat)
    requires IsWork(c) && Fits(w, c, Moment(v, Running(WorkPlan(w, c), done)))
    ensures Fits(w, c, WorkStep(v, c, WorkPlan(w, c), done))
  {
    hide RollbackAll, ApplyAll, Starts, WorkPlan, RollbackOne, ApplyOne, Lookup, Run;
    var plan, files, fates := WorkPlan(w, c), WorkFiles(c), c.fate.steps;
    var n := |plan.toRollback|;
    StartedRuns(w, c);
    assert plan.toRollback[..n] == plan.toRollback;
    if done < n {
      RollbackStep(w, plan.toRollback, fates, done, v);
      return;
    }
    var b := RollbackAll(w, plan.toRollback, fates);
    var k := done - n;
    if k == 0 {
      NothingRun(v, DropFates(fates, n), files);
      assert plan.toApply[..0] == [];
    }
    assert ApplyAll(b.world, plan.toApply[..k], files, DropFates(fates, n)) == Batch(v, k, None);
    if k < |plan.toApply| {
      LaterFate(fates, n, k);
      ApplyStep(b.world, plan.toApply, files, DropFates(fates, n), k, v);
    } else {
      assert plan.toApply[..k] == plan.toApply;
    }
  }

  lemma NextFits(w: World, c: Call, m: Moment)
    requires Fits(w, c, m)
    ensures Fits(w, c, Next(m.world, c, m.stage))
  {
    hide Check, Prepare, WorkStep, Starts, EnsureReversible, FailedIds, MigrationsThrough, RollbackAll, ApplyAll, SoFar;
    match m.stage {
      case Begun =>
        CheckFits(w, c);
      case Checked =>
        if !c.ForgetCall? {
          PrepareFits(w, c);
        }
      case Planned(_, candidates) =>
        if Starts(w, c) {
          RunningBegins(w, c);
        }
      case Running(_, done) =>
        WorkStepFits(w, c, m.world, done);
      case _ =>
    }
  }

  lemma BegunFits(w: World, c: Call)
    ensures Fits(w, c, Moment(w, Begun))
  {
  }

  lemma {:induction false} AloneFits(w: World, c: Call, k: nat)
    ensures Fits(w, c, Alone(w, c, k))
  {
    hide Next, Fits;
    if k > 0 {
      AloneFits(w, c, k - 1);
      NextFits(w, c, Alone(w, c, k - 1));
    } else {
      BegunFits(w, c);
    }
  }

  // ---------------------------------------------------------------------------------------------
  // The steps end, as the call does

  function StagesLeft(s: Stage): nat {
    match s
    case Begun => 4
    case Checked => 3
    case Planned(_, _) => 2
    case Running(_, _) => 1
    case Recording(_) => 1
    case Ended(_) => 0
  }

  function CallsLeft(s: Stage): nat {
    if s.Running? && s.done <= |s.plan.toRollback| + |s.plan.toApply| then
      |s.plan.toRollback| + |s.plan.toApply| - s.done + 1
    else 0
  }

  lemma NextIsCloser(w: World, c: Call, m: Moment)
    requires Fits(w, c, m) && !m.stage.Ended?
    ensures var s := Next(m.world, c, m.stage).stage;
            StagesLeft(s) < StagesLeft(m.stage)
            || (StagesLeft(s) == StagesLeft(m.stage) && CallsLeft(s) < CallsLeft(m.stage))
  {
    hide RollbackOne, ApplyOne, Lookup, EnsureReversible, FailedIds, MigrationsThrough, RollbackAll, ApplyAll, Run,
      Starts, WorkPlan, BlockedBy, Forget, RecordApplied;
  }

  /** On its own, a call gets to its end, where the world and the answer are those of the whole call. */
  lemma AloneEnds(w: World, c: Call) returns (k: nat)
    ensures Alone(w, c, k) == Moment(Run(w, c).world, Ended(AnswerOf(Run(w, c))))
  {
    hide Next, Run;
    k := 0;
    AloneFits(w, c, 0);
    while !Alone(w, c, k).stage.Ended?
      invariant Fits(w, c, Alone(w, c, k))
      decreases StagesLeft(Alone(w, c, k).stage), CallsLeft(Alone(w, c, k).stage)
    {
      hide Fits;
      NextIsCloser(w, c, Alone(w, c, k));
      k := k + 1;
      AloneFits(w, c, k);
    }
  }

  // ---------------------------------------------------------------------------------------------
  // In the middle of a call

  lemma StartedClean(w: World, c: Call)
    requires IsWork(c) && Starts(w, c)
    ensures FailedIds(w.rows) == []
  {
    hide FailedIds, BlockedBy, EnsureReversible;
  }

  lemma NoneFresh(rows: seq<Row>)
    ensures Fresh(rows, [])
  {
  }

  lemma RolledOrderly(w: World, plan: Plan, v: World, done: nat, marked: bool)
    requires UniqueIds(w.rows) && FailedIds(w.rows) == [] && plan.toApply == [] && done <= |plan.toRollback|
    requires RolledBackTo(w.rows, plan.toRollback, v.rows, done, marked)
    ensures Orderly(v)
  {
    hide RolledBackTo, Fresh, EndsAt, Without, UniqueIds, FailedIds;
    DownEnds(w.rows, plan, v.rows, done, marked);
    NoneFresh(Without(w.rows, IdSet(plan.toRollback)));
    var _ := EndCleared(w.rows, plan, v.rows, End(done, 0, marked));
    EndUnique(w.rows, plan, v.rows, End(done, 0, marked));
  }

  lemma AppliedOrderly(w: World, b: World, part: Plan, ms: seq<Migration>, files: seq<Migration>, fates: seq<Fate>)
    requires UniqueIds(w.rows) && FailedIds(w.rows) == []
    requires b.rows == Without(w.rows, IdSet(part.toRollback))
    requires part.toApply <= ms && Fresh(b.rows, ms) && AllIn(ms, files)
    ensures Orderly(ApplyAll(b, part.toApply, files, fates).world)
  {
    hide ApplyAll, Without, UniqueIds, FailedIds, Lookup;
    assert forall i :: 0 <= i < |part.toApply| ==> part.toApply[i] == ms[i];
    var k, marked := ApplyAllShape(b, part.toApply, files, fates);
    var e := End(|part.toRollback|, k, marked);
    var rows := ApplyAll(b, part.toApply, files, fates).world.rows;
    assert EndsAt(w.rows, part, rows, e);
    var _ := EndCleared(w.rows, part, rows, e);
    EndUnique(w.rows, part, rows, e);
  }

  lemma SoFarIsOrderly(w: World, c: Call, v: World, done: nat)
    requires IsWork(c) && CallOk(c) && Orderly(w) && Starts(w, c)
    requires SoFar(w, WorkPlan(w, c), WorkFiles(c), c.fate.steps, done, v)
    ensures Orderly(v)
  {
    hide RollbackAll, ApplyAll, WorkPlan, UniqueIds, Fresh, AllIn, EndsAt, RolledBackTo, AppliedTo, Without, Starts,
      CallOk, FailedIds;
    var plan, files, fates := WorkPlan(w, c), WorkFiles(c), c.fate.steps;
    var n := |plan.toRollback|;
    PlanIsFresh(w, c);
    StartedClean(w, c);
    if done <= n {
      var part := Plan(plan.toRollback[..done], [], []);
      var rolled, marked := RollbackAllShape(w, part.toRollback, fates);
      RolledOrderly(w, part, v, rolled, marked);
    } else {
      var b := RollbackAll(w, plan.toRollback, fates);
      RollbacksLeave(w, plan.toRollback, fates);
      var part := Plan(plan.toRollback, plan.toApply[..done - n], []);
      AppliedOrderly(w, b.world, part, plan.toApply, files, DropFates(fates, n));
    }
  }

  /** In the middle of a call, too, there is one row per migration and at most one failure on record. */
  lemma AloneIsOrderly(w: World, c: Call, k: nat)
    requires CallOk(c) && Orderly(w)
    ensures Orderly(Alone(w, c, k).world)
  {
    hide Alone, Orderly, CallOk, Run, Starts, WorkPlan, SoFar;
    AloneFits(w, c, k);
    match Alone(w, c, k).stage {
      case Running(plan, done) =>
        SoFarIsOrderly(w, c, Alone(w, c, k).world, done);
      case Ended(_) =>
        StaysOrderly(w, c);
      case _ =>
    }
  }

  /** One irreversible candidate, and no executor call is made at all. */
  lemma IrreversibleRunsNothing(w: World, c: Call, r: Row, k: nat)
    requires IsWork(c) && CallOk(c) && UniqueIds(w.rows)
    requires r in w.rows && Directives.IsIrreversible(r.down) && r.id in WorkPlan(w, c).toRollback
    ensures !Alone(w, c, k).stage.Running?
  {
    hide Alone, Starts, WorkPlan, Directives.IsIrreversible, UniqueIds, SoFar, Run;
    AloneFits(w, c, k);
    if Starts(w, c) {
      StartedReversible(w, c);
    }
  }
}

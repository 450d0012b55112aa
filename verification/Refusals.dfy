/**
 What the guards of the calls mean, without naming the functions that implement them: when each of them stops a
 call, and what no call does unless it was asked to.
 */
module Refusals {
  import opened Text
  import opened Ids
  import opened Ledger
  import opened Planner
  import opened Calls
  import opened Guards
  import opened Shapes
  import opened Reconciliation
  import opened Runs
  import Directives
  import Lexer

  ghost predicate InFiles(files: seq<Migration>, id: string) {
    exists m :: m in files && m.id == id
  }

  /** A row that the files know nothing of. */
  ghost predicate HasGone(rows: seq<Row>, files: seq<Migration>) {
    exists r :: r in rows && !InFiles(files, r.id)
  }

  /** A file that is not recorded and sorts before a recorded one. */
  ghost predicate HasLate(rows: seq<Row>, files: seq<Migration>) {
    exists m, r :: m in files && r in rows && !HasRow(rows, m.id) && InFiles(files, r.id) && Less(m.id, r.id)
  }

  lemma RowIdsMember(rows: seq<Row>, x: string)
    ensures x in RowIds(rows) <==> exists r :: r in rows && r.id == x
    ensures x in RowIds(rows) <==> HasRow(rows, x)
  {
    HasRowMember(rows, x);
    if x in RowIds(rows) {
      var i :| 0 <= i < |rows| && RowIds(rows)[i] == x;
      assert rows[i] in rows;
    }
    if r :| r in rows && r.id == x {
      var i :| 0 <= i < |rows| && rows[i] == r;
      assert RowIds(rows)[i] == x;
    }
  }

  lemma {:induction false} FailedIdsExact(rows: seq<Row>)
    ensures forall x :: x in FailedIds(rows) <==> exists r :: r in rows && r.failed && r.id == x
  {
    if rows != [] {
      FailedIdsExact(rows[1..]);
      assert rows == [rows[0]] + rows[1..];
    }
  }

  /** The rollbacks of a Reconcile are wanted exactly when a row has gone from the files. */
  lemma RollbackWanted(rows: seq<Row>, files: seq<Migration>)
    ensures PlanFor(files, RowIds(rows), true).toRollback != [] <==> HasGone(rows, files)
  {
    hide PlanFor;
    var rb := PlanFor(files, RowIds(rows), true).toRollback;
    PlanOrder(files, RowIds(rows), true);
    if rb != [] {
      assert rb[0] in rb;
      RowIdsMember(rows, rb[0]);
    }
    if r :| r in rows && !InFiles(files, r.id) {
      RowIdsMember(rows, r.id);
      assert r.id in rb;
    }
  }

  lemma StayingExact(files: seq<Migration>, ids: seq<string>, x: string)
    ensures x in Staying(files, ids, true) <==> x in ids && InFiles(files, x)
  {
    KeepMembers(ids, IdSet(MigrationIds(files)));
    IdsOfFiles(files, x);
  }

  /** An interleaved migration of a plan is one that the definition above describes. */
  lemma LateOf(rows: seq<Row>, files: seq<Migration>, m: Migration)
    requires m in PlanFor(files, RowIds(rows), true).interleaved
    ensures m in files && !HasRow(rows, m.id)
    ensures exists r :: r in rows && InFiles(files, r.id) && Less(m.id, r.id)
  {
    hide PlanFor, Less, InFiles, HasRow, Staying;
    var ids := RowIds(rows);
    PlanOrder(files, ids, true);
    InterleavedExactly(files, ids, true, m);
    RowIdsMember(rows, m.id);
    var x :| x in Staying(files, ids, true) && Less(m.id, x);
    StayingExact(files, ids, x);
    RowIdsMember(rows, x);
  }

  lemma InterleavedWanted(rows: seq<Row>, files: seq<Migration>)
    ensures PlanFor(files, RowIds(rows), true).interleaved != [] <==> HasLate(rows, files)
  {
    hide PlanFor, Less, InFiles, HasRow;
    var ids := RowIds(rows);
    var plan := PlanFor(files, ids, true);
    PlanOrder(files, ids, true);
    if plan.interleaved != [] {
      var m := plan.interleaved[0];
      LateOf(rows, files, m);
    }
    if m, r :| m in files && r in rows && !HasRow(rows, m.id) && InFiles(files, r.id) && Less(m.id, r.id) {
      RowIdsMember(rows, m.id);
      RowIdsMember(rows, r.id);
      StayingExact(files, ids, r.id);
      InterleavedExactly(files, ids, true, m);
    }
  }

  /** None of the errors that say what the options forbid comes from executing a plan. */
  lemma ExecutionHasNoSuchError(w: World, plan: Plan, files: seq<Migration>, selects: seq<bool>, fates: seq<Fate>)
    ensures var e := ExecutePlan(w, plan, files, selects, fates).error;
            e.Some? ==> !e.value.EmptySource? && !e.value.Divergence? && !e.value.Interleaved? && !e.value.FailedMigrations?
  {
    hide RollbackAll, ApplyAll, IrreversibleIds;
    CheckErrors(w.rows, plan.toRollback, selects);
    RollbacksNeverRefuse(w, plan.toRollback, fates);
    AppliesNeverRefuse(RollbackAll(w, plan.toRollback, fates).world, plan.toApply, files,
                       DropFates(fates, |plan.toRollback|));
  }

  lemma {:induction false} DropNothing(ids: seq<string>)
    ensures Drop(ids, {}) == ids
  {
    if ids != [] {
      DropNothing(ids[1..]);
    }
  }

  /** Without files, all of the ledger is to be rolled back. */
  lemma AllGone(ids: seq<string>)
    ensures |PlanFor([], ids, true).toRollback| == |ids|
  {
    DropNothing(ids);
    assert IdSet(MigrationIds([])) == {};
  }

  lemma NoFailures(rows: seq<Row>)
    requires forall r :: r in rows ==> !r.failed
    ensures FailedIds(rows) == []
  {
    FailedIdsExact(rows);
    if FailedIds(rows) != [] {
      var _ := SomeOf(FailedIds(rows));
    }
  }

  lemma EmptyGone(rows: seq<Row>, files: seq<Migration>)
    ensures files == [] ==> |PlanFor(files, RowIds(rows), true).toRollback| == |rows|
  {
    hide PlanFor;
    if files == [] {
      AllGone(RowIds(rows));
    }
  }

  lemma GoneIds(rows: seq<Row>, files: seq<Migration>)
    ensures forall x :: x in PlanFor(files, RowIds(rows), true).toRollback <==> HasRow(rows, x) && !InFiles(files, x)
  {
    hide PlanFor, HasRow;
    PlanOrder(files, RowIds(rows), true);
    forall x
      ensures x in RowIds(rows) <==> HasRow(rows, x)
    {
      RowIdsMember(rows, x);
    }
  }

  /**
   When Reconcile, past its own statements and with no failure on record, refuses because of its options: an
   empty source first, then rows that have gone from the files, then files that come late. Then it changes
   nothing, and the error of rows that have gone names exactly those.
   */
  lemma ReconcileGuardsExactly(w: World, files: seq<Migration>, opts: Options, f: CallFate)
    requires f.entry && f.load && forall r :: r in w.rows ==> !r.failed
    ensures var r := Reconcile(w, files, opts, f);
            var empty := files == [] && w.rows != [] && !opts.allowEmptySource;
            var gone := HasGone(w.rows, files) && !opts.allowRollback;
            var late := HasLate(w.rows, files) && !opts.allowInterleaved;
            && (r.error == Some(EmptySource(|w.rows|)) <==> empty)
            && (r.error.Some? && r.error.value.EmptySource? ==> empty)
            && (r.error.Some? && r.error.value.Divergence? <==> !empty && gone)
            && (r.error.Some? && r.error.value.Divergence? ==>
                  forall x :: x in r.error.value.ids <==> HasRow(w.rows, x) && !InFiles(files, x))
            && (r.error.Some? && r.error.value.Interleaved? <==> !empty && !gone && late)
            && (empty || gone || late ==> r.world == w && r.rolledBack == [] && r.applied == [])
  {
    hide PlanFor, ExecutePlan, FailedIds, HasGone, HasLate, InFiles, HasRow;
    var plan := ReconcilePlan(w, files);
    NoFailures(w.rows);
    RollbackWanted(w.rows, files);
    InterleavedWanted(w.rows, files);
    ExecutionHasNoSuchError(w, plan, files, f.selects, f.steps);
    EmptyGone(w.rows, files);
    GoneIds(w.rows, files);
  }

  lemma OneOnlyAppends(w: World, m: Migration, f: Fate)
    ensures w.rows <= ApplyOne(w, m, f).world.rows
  {
    hide Directives.ParseHeader, Lexer.Statements;
  }

  lemma {:induction false} AppliesOnlyAppend(w: World, ms: seq<Migration>, files: seq<Migration>, fates: seq<Fate>)
    ensures w.rows <= ApplyAll(w, ms, files, fates).world.rows
    decreases |ms|
  {
    hide ApplyOne, Lookup;
    if ms != [] && Lookup(files, ms[0].id).Some? {
      var m := Lookup(files, ms[0].id).value;
      OneOnlyAppends(w, m, HeadFate(fates));
      AppliesOnlyAppend(ApplyOne(w, m, HeadFate(fates)).world, ms[1..], files, TailFates(fates));
    }
  }

  lemma NothingToRollBack(w: World, fates: seq<Fate>)
    ensures RollbackAll(w, [], fates) == Batch(w, 0, None)
  {
  }

  lemma NothingMissing(ids: seq<string>)
    ensures PlanFor([], ids, true).toApply == []
  {
  }

  /**
   Whatever fails: Reconcile rolls nothing back unless it is allowed to, and then the old ledger is a prefix of
   the one it leaves; without files it does nothing at all unless an empty source is allowed.
   */
  lemma NothingUnasked(w: World, files: seq<Migration>, opts: Options, f: CallFate)
    ensures var r := Reconcile(w, files, opts, f);
            && (!opts.allowRollback ==> r.rolledBack == [] && w.rows <= r.world.rows)
            && (files == [] && !opts.allowEmptySource ==> r.world == w && r.rolledBack == [] && r.applied == [])
  {
    hide PlanFor, RollbackAll, ApplyAll, EnsureReversible, FailedIds;
    var plan := ReconcilePlan(w, files);
    NothingToRollBack(w, f.steps);
    AppliesOnlyAppend(w, plan.toApply, files, DropFates(f.steps, |plan.toRollback|));
    NothingMissing(RowIds(w.rows));
  }

  lemma NotLate(rows: seq<Row>, files: seq<Migration>, m: Migration, r: Row)
    requires !HasLate(rows, files) && m in files && r in rows && !HasRow(rows, m.id) && InFiles(files, r.id)
    ensures !Less(m.id, r.id)
  {
  }

  lemma TakeMembers<T>(s: seq<T>, n: nat)
    ensures forall x :: x in Take(s, n) ==> x in s
  {
  }

  /** And it applies nothing that sorts before a recorded migration that stays, unless it is allowed to. */
  lemma NothingLateUnasked(w: World, files: seq<Migration>, opts: Options, f: CallFate)
    requires !opts.allowInterleaved
    ensures forall m, r :: m in Reconcile(w, files, opts, f).applied && r in w.rows && InFiles(files, r.id) ==>
                             !Less(m.id, r.id)
  {
    hide PlanFor, ExecutePlan, FailedIds, HasLate, InFiles, HasRow, Less;
    InterleavedWanted(w.rows, files);
    var plan := ReconcilePlan(w, files);
    PlanOrder(files, RowIds(w.rows), true);
    var report := Reconcile(w, files, opts, f);
    forall m, r | m in report.applied && r in w.rows && InFiles(files, r.id)
      ensures !Less(m.id, r.id)
    {
      TakeMembers(plan.toApply, |report.applied|);
      assert m in plan.toApply;
      RowIdsMember(w.rows, m.id);
      assert !HasLate(w.rows, files);
      NotLate(w.rows, files, m, r);
    }
  }

  lemma NoFailureNamed(plan: Plan, files: seq<Migration>, opts: Options)
    ensures BlockedBy(plan, files, opts).Some? ==> !BlockedBy(plan, files, opts).value.FailedMigrations?
  {
  }

  /** Up, Reconcile and Down name exactly the failures on record, and return that error only if there are any. */
  lemma FailedGuardExactly(w: World, c: Call)
    requires IsWork(c) && c.fate.entry
    ensures var e := Run(w, c).error;
            && ((e.Some? && e.value.FailedMigrations?) <==> exists r :: r in w.rows && r.failed)
            && (e.Some? && e.value.FailedMigrations? ==>
                  forall x :: x in e.value.ids <==> exists r :: r in w.rows && r.failed && r.id == x)
  {
    hide PlanFor, ExecutePlan, FailedIds, RollbackAll, IrreversibleIds, BlockedBy;
    FailedIdsExact(w.rows);
    if FailedIds(w.rows) == [] {
      assert forall r :: r in w.rows && r.failed ==> r.id in FailedIds(w.rows);
      match c {
        case UpCall(files, f) =>
          var plan := Plan([], PlanFor(files, RowIds(w.rows), false).toApply, []);
          ExecutionHasNoSuchError(w, plan, files, f.selects, f.steps);
        case ReconcileCall(files, opts, f) =>
          ExecutionHasNoSuchError(w, ReconcilePlan(w, files), files, f.selects, f.steps);
          NoFailureNamed(ReconcilePlan(w, files), files, opts);
        case DownCall(count, f) =>
          var ids := LastIds(w.rows, count);
          CheckErrors(w.rows, ids, f.selects);
          RollbacksNeverRefuse(w, Reverse(ids), f.steps);
      }
    } else {
      var x := SomeOf(FailedIds(w.rows));
    }
  }

  lemma AreBefore(ids: seq<string>, a: nat, b: nat)
    requires a < b < |ids|
    ensures Before(ids, ids[a], ids[b])
  {
  }

  lemma LastOrder(rows: seq<Row>, count: int)
    ensures var rb := Reverse(LastIds(rows, count));
            AgainstOrderOf(RowIds(rows), rb)
  {
    hide Reverse, Before;
    var ids := RowIds(rows);
    var last := LastIds(rows, count);
    var d := |ids| - |last|;
    assert last == ids[d..];
    forall i, j | 0 <= i < j < |last|
      ensures Before(ids, last[i], last[j])
    {
      AreBefore(ids, d + i, d + j);
    }
    ReverseOrder(ids, last);
  }

  lemma PrefixAgainst(xs: seq<string>, ys: seq<string>, n: nat)
    requires AgainstOrderOf(xs, ys) && n <= |ys|
    ensures AgainstOrderOf(xs, ys[..n])
  {
    hide Before;
    forall i, j | 0 <= i < j < n
      ensures Before(xs, ys[..n][j], ys[..n][i])
    {
      assert Before(xs, ys[j], ys[i]);
    }
  }

  lemma AppliedAscends(w: World, c: Call)
    requires IsWork(c) && CallOk(c)
    ensures var ms := WorkPlan(w, c).toApply; forall i, j :: 0 <= i < j < |ms| ==> Less(ms[i].id, ms[j].id)
  {
    hide Less, Missing, PlanFor;
    PlanAppliesMissing(w, c);
    if !c.DownCall? {
      MissingAscending(WorkFiles(c), IdSet(RowIds(w.rows)));
      var ms := WorkPlan(w, c).toApply;
      assert forall i :: 0 <= i < |ms| ==> MigrationIds(ms)[i] == ms[i].id;
    }
  }

  /**
   Whatever fails, what Reconcile and Down have rolled back, they have rolled back the later row first, and what
   Up and Reconcile have applied, they have applied in the order of the identifiers.
   */
  lemma ReportIsInOrder(w: World, c: Call)
    requires IsWork(c) && CallOk(c) && UniqueIds(w.rows)
    ensures var r := Run(w, c);
            && AgainstOrderOf(RowIds(w.rows), r.rolledBack)
            && (forall i, j :: 0 <= i < j < |r.applied| ==> Less(r.applied[i].id, r.applied[j].id))
            && (!c.DownCall? ==> forall x :: x in r.rolledBack ==> !InFiles(c.files, x))
            && (c.UpCall? ==> r.rolledBack == [])
  {
    hide PlanFor, Run, EndsAt, CallOk, Less, Reversible, UniqueIds, Before;
    var e := WorkShape(w, c);
    var plan, r := WorkPlan(w, c), Run(w, c);
    match c {
      case DownCall(count, _) =>
        LastOrder(w.rows, count);
      case UpCall(files, _) =>
        PlanOrder(files, RowIds(w.rows), false);
      case ReconcileCall(files, _, _) =>
        PlanOrder(files, RowIds(w.rows), true);
    }
    AppliedAscends(w, c);
    PrefixAgainst(RowIds(w.rows), plan.toRollback, |r.rolledBack|);
    assert forall x :: x in r.rolledBack ==> x in plan.toRollback;
  }
}

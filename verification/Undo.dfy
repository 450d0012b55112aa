/** Calls against each other: what one undoes, what two add up to, and what planning predicts. */
module Undo {
  import opened Text
  import opened Ids
  import opened Ledger
  import opened Planner
  import opened Calls
  import opened Guards
  import opened Shapes
  import opened Reconciliation
  import opened Runs
  import opened Agreement
  import opened Order
  import Refusals
  import Directives
  import Lexer
  import Loader

  // ---------------------------------------------------------------------------------------------
  // Down

  /** Rolling ids back one after the other, nothing failing. */
  function UndoAll(w: World, ids: seq<string>): World
    decreases |ids|
  {
    if ids == [] then w else UndoAll(RolledBack(w, ids[0]), ids[1..])
  }

  lemma {:induction false} UndoAppend(w: World, a: seq<string>, b: seq<string>)
    ensures UndoAll(w, a + b) == UndoAll(UndoAll(w, a), b)
    decreases |a|
  {
    hide RolledBack;
    if a == [] {
      assert a + b == b;
    } else {
      assert (a + b)[1..] == a[1..] + b;
      UndoAppend(RolledBack(w, a[0]), a[1..], b);
    }
  }

  lemma {:induction false} SuccessUndoes(w: World, ids: seq<string>, fates: seq<Fate>)
    requires RollbackAll(w, ids, fates).error.None?
    ensures RollbackAll(w, ids, fates).world == UndoAll(w, ids) && RollbackAll(w, ids, fates).done == |ids|
    decreases |ids|
  {
    hide RollbackOne;
    if ids != [] {
      RollbackCases(w, ids[0], HeadFate(fates));
      SuccessUndoes(RolledBack(w, ids[0]), ids[1..], TailFates(fates));
    }
  }

  /** How many migrations Down(count) takes back. */
  function Clamp(count: int, n: nat): nat {
    if count <= 0 || count > n then n else count
  }

  lemma {:induction false} WithoutAll(rows: seq<Row>, s: set<string>)
    requires forall i :: 0 <= i < |rows| ==> rows[i].id in s
    ensures Without(rows, s) == []
  {
    if rows != [] {
      assert forall i :: 0 <= i < |rows| - 1 ==> rows[1..][i] == rows[i + 1];
      WithoutAll(rows[1..], s);
    }
  }

  lemma {:induction false} WithoutConcat(a: seq<Row>, b: seq<Row>, s: set<string>)
    ensures Without(a + b, s) == Without(a, s) + Without(b, s)
  {
    if a == [] {
      assert a + b == b;
    } else {
      assert (a + b)[1..] == a[1..] + b;
      WithoutConcat(a[1..], b, s);
    }
  }

  lemma {:induction false} WithoutOthers(rows: seq<Row>, s: set<string>)
    requires forall i :: 0 <= i < |rows| ==> rows[i].id !in s
    ensures Without(rows, s) == rows
  {
    if rows != [] {
      assert forall i :: 0 <= i < |rows| - 1 ==> rows[1..][i] == rows[i + 1];
      WithoutOthers(rows[1..], s);
    }
  }

  /** The identifiers of the last rows tell them from the others. */
  lemma SuffixIds(rows: seq<Row>, k: nat)
    requires UniqueIds(rows) && k <= |rows|
    ensures forall i :: 0 <= i < |rows| ==> (rows[i].id in IdSet(RowIds(rows)[k..]) <==> i >= k)
  {
    var tail := RowIds(rows)[k..];
    forall i | 0 <= i < |rows|
      ensures rows[i].id in tail <==> i >= k
    {
      assert forall j :: 0 <= j < |tail| ==> tail[j] == rows[k + j].id;
      assert i >= k ==> tail[i - k] == rows[i].id;
    }
  }

  lemma WithoutSuffix(rows: seq<Row>, k: nat)
    requires UniqueIds(rows) && k <= |rows|
    ensures Without(rows, IdSet(RowIds(rows)[k..])) == rows[..k]
  {
    hide Without, UniqueIds, IdSet;
    var s := IdSet(RowIds(rows)[k..]);
    SuffixIds(rows, k);
    assert rows == rows[..k] + rows[k..];
    WithoutConcat(rows[..k], rows[k..], s);
    WithoutOthers(rows[..k], s);
    WithoutAll(rows[k..], s);
  }

  /** A successful Down takes exactly the last rows off the ledger and their migrations out of the schema. */
  lemma DownResult(w: World, count: int, f: CallFate)
    requires UniqueIds(w.rows) && Down(w, count, f).error.None?
    ensures var r, k := Down(w, count, f), |w.rows| - Clamp(count, |w.rows|);
            && r.world == UndoAll(w, Reverse(RowIds(w.rows)[k..]))
            && r.world.rows == w.rows[..k]
            && r.rolledBack == Reverse(RowIds(w.rows)[k..])
  {
    hide RollbackAll, Without, UndoAll, UniqueIds, FailedIds, EnsureReversible;
    var ids := LastIds(w.rows, count);
    var k := |w.rows| - Clamp(count, |w.rows|);
    assert ids == RowIds(w.rows)[k..];
    var rev := Reverse(ids);
    SuccessUndoes(w, rev, f.steps);
    var n, marked := RollbackAllShape(w, rev, f.steps);
    assert rev[..n] == rev;
    ReverseMembers(ids);
    assert IdSet(rev) == IdSet(ids);
    WithoutSuffix(w.rows, k);
  }

  lemma {:induction false} ReverseConcat(a: seq<string>, b: seq<string>)
    ensures Reverse(a + b) == Reverse(b) + Reverse(a)
  {
    if a == [] {
      assert a + b == b && Reverse(b) + [] == Reverse(b);
    } else {
      assert (a + b)[1..] == a[1..] + b;
      ReverseConcat(a[1..], b);
    }
  }

  lemma NothingToUndo(v: World)
    ensures UndoAll(v, Reverse([])) == v
  {
  }

  lemma UniquePrefix(rows: seq<Row>, k: nat)
    requires UniqueIds(rows) && k <= |rows|
    ensures UniqueIds(rows[..k])
  {
  }

  /** What to take back at once instead of a and then b; a count that is not positive stands for all. */
  function Both(a: int, b: int): int {
    if a <= 0 || b <= 0 then 0 else a + b
  }

  /** Taking back a migrations and then b leaves the same world as taking back Both(a, b). */
  lemma DownComposes(w: World, a: int, b: int, f: CallFate, g: CallFate, h: CallFate)
    requires UniqueIds(w.rows)
    requires Down(w, a, f).error.None? && Down(Down(w, a, f).world, b, g).error.None?
    requires Down(w, Both(a, b), h).error.None?
    ensures Down(Down(w, a, f).world, b, g).world == Down(w, Both(a, b), h).world
  {
    hide Down, UndoAll, UniqueIds, Reverse;
    var n := |w.rows|;
    var v := Down(w, a, f).world;
    DownResult(w, a, f);
    var i := n - Clamp(a, n);
    UniquePrefix(w.rows, i);
    DownResult(v, b, g);
    var j := i - Clamp(b, i);
    if i == 0 {
      NothingToUndo(v);
    }
    DownResult(w, Both(a, b), h);
    assert j == n - Clamp(Both(a, b), n);
    var ids := RowIds(w.rows);
    assert RowIds(v.rows)[j..] == ids[j..i];
    assert ids[j..] == ids[j..i] + ids[i..];
    ReverseConcat(ids[j..i], ids[i..]);
    UndoAppend(w, Reverse(ids[i..]), Reverse(ids[j..i]));
  }

  // ---------------------------------------------------------------------------------------------
  // Up and Baseline

  lemma UpResult(w: World, files: seq<Migration>, f: CallFate)
    requires FilesOk(files) && UniqueIds(w.rows) && Up(w, files, f).error.None?
    ensures var r := Up(w, files, f);
            && r.applied == Missing(files, IdSet(RowIds(w.rows)))
            && r.world.rows == w.rows + NewRows(r.applied)
  {
    hide RollbackAll, ApplyAll, Missing, EnsureReversible, Fresh, AllIn, FailedIds, UniqueIds, FilesOk;
    var ms := Missing(files, IdSet(RowIds(w.rows)));
    MissingFresh(w.rows, files, {});
    WithoutNone(w.rows);
    var plan := Plan([], ms, []);
    assert IdSet(plan.toRollback) == {};
    assert PlanFor(files, RowIds(w.rows), false).toApply == ms;
    var e := ExecutePlanShape(w, plan, files, f.selects, f.steps);
    assert ms[..|ms|] == ms;
  }

  lemma UniqueAfterUp(w: World, files: seq<Migration>, f: CallFate)
    requires FilesOk(files) && UniqueIds(w.rows) && Up(w, files, f).error.None?
    ensures UniqueIds(Up(w, files, f).world.rows)
  {
    hide Up, FailedIds, UniqueIds, FilesOk;
    if FailedIds(w.rows) == [] {
      StaysOrderly(w, UpCall(files, f));
    } else {
      FrozenWhileFailed(w, UpCall(files, f));
    }
  }

  /**
   Up, then Down of as many as it applied: the ledger is back where it was, if Up applied any; if it did not,
   the count stands for all, and only an empty ledger is.
   */
  lemma UpThenDownRestores(w: World, files: seq<Migration>, f: CallFate, g: CallFate)
    requires FilesOk(files) && UniqueIds(w.rows) && Up(w, files, f).error.None?
    requires Down(Up(w, files, f).world, |Up(w, files, f).applied|, g).error.None?
    ensures var v := Down(Up(w, files, f).world, |Up(w, files, f).applied|, g).world;
            v.rows == w.rows <==> Up(w, files, f).applied != [] || w.rows == []
  {
    hide Up, Down, UniqueIds, FilesOk;
    var r := Up(w, files, f);
    UpResult(w, files, f);
    UniqueAfterUp(w, files, f);
    DownResult(r.world, |r.applied|, g);
    assert (w.rows + NewRows(r.applied))[..|w.rows|] == w.rows;
  }

  lemma UpSucceeded(w: World, files: seq<Migration>, f: CallFate)
    requires Up(w, files, f).error.None?
    ensures FailedIds(w.rows) == []
  {
    hide FailedIds;
  }

  /** Without failures on record, the ledger says all about a schema that agrees with it. */
  lemma AgreedStatus(v: World, w: World, id: string)
    requires Agrees(v) && Agrees(w) && v.rows == w.rows && FailedIds(v.rows) == []
    ensures StatusOf(v, id) == StatusOf(w, id)
  {
    hide HasRow, UniqueIds;
    HasRowMember(v.rows, id);
    NoneFailed(v.rows);
  }

  /** Then, if ledger and schema agreed, the schema is back where it was, too. */
  lemma UpThenDownRestoresSchema(w: World, files: seq<Migration>, f: CallFate, g: CallFate, id: string)
    requires FilesOk(files) && Agrees(w) && Up(w, files, f).error.None?
    requires Up(w, files, f).applied != [] || w.rows == []
    requires Down(Up(w, files, f).world, |Up(w, files, f).applied|, g).error.None?
    ensures StatusOf(Down(Up(w, files, f).world, |Up(w, files, f).applied|, g).world, id) == StatusOf(w, id)
  {
    hide Up, Down, FilesOk, HasRow, UniqueIds, StatusOf;
    var v := Up(w, files, f).world;
    var count := |Up(w, files, f).applied|;
    UpThenDownRestores(w, files, f, g);
    AgreesAfterWork(w, UpCall(files, f));
    AgreesAfterWork(v, DownCall(count, g));
    UpSucceeded(w, files, f);
    AgreedStatus(w, Down(v, count, g).world, id);
  }

  lemma NoRows()
    ensures UniqueIds([])
  {
  }

  lemma {:induction false} MissingFromNothing(files: seq<Migration>)
    ensures Missing(files, {}) == files
  {
    if files != [] {
      MissingFromNothing(files[1..]);
    }
  }

  /** Up completes a ledger that records the first k files. */
  lemma UpFromPrefix(w: World, files: seq<Migration>, k: nat, f: CallFate)
    requires FilesOk(files) && k <= |files| && w.rows == NewRows(files[..k]) && UniqueIds(w.rows)
    requires Up(w, files, f).error.None?
    ensures Up(w, files, f).world.rows == NewRows(files)
  {
    hide Up, Missing, FilesOk, UniqueIds;
    assert RowIds(w.rows) == MigrationIds(files[..k]);
    UpResult(w, files, f);
    MissingFromNothing(files);
    MissingSuffix(files, {}, k);
    assert {} + IdSet(RowIds(w.rows)) == IdSet(RowIds(w.rows));
    assert NewRows(files[..k]) + NewRows(files[k..]) == NewRows(files);
  }

  lemma BaselineRecords(w: World, files: seq<Migration>, through: string, f: CallFate)
    requires w.rows == [] && Baseline(w, files, through, f).error.None?
    ensures MigrationsThrough(files, through).Some?
    ensures Baseline(w, files, through, f).world.rows == NewRows(MigrationsThrough(files, through).value)
    ensures UniqueIds(Baseline(w, files, through, f).world.rows)
  {
    ThroughPrefix(files, through);
    var ms := MigrationsThrough(files, through).value;
    assert w.rows + NewRows(ms) == NewRows(ms);
  }

  /** Adopting a database and going on from there records the same rows as starting from nothing. */
  lemma BaselineThenUp(w: World, files: seq<Migration>, through: string, f: CallFate, g: CallFate, h: CallFate)
    requires FilesOk(files) && w.rows == []
    requires Baseline(w, files, through, f).error.None?
    requires Up(Baseline(w, files, through, f).world, files, g).error.None? && Up(w, files, h).error.None?
    ensures Up(Baseline(w, files, through, f).world, files, g).world.rows == Up(w, files, h).world.rows
    ensures Up(w, files, h).world.rows == NewRows(files)
  {
    hide Up, FilesOk, Baseline, MigrationsThrough, UniqueIds;
    NoRows();
    UpFromPrefix(w, files, 0, h);
    var b := Baseline(w, files, through, f).world;
    BaselineRecords(w, files, through, f);
    ThroughPrefix(files, through);
    UpFromPrefix(b, files, |MigrationsThrough(files, through).value|, g);
  }

  // ---------------------------------------------------------------------------------------------
  // What planning says about Reconcile

  /** A Reconcile whose own statements all get through. */
  function Smooth(steps: seq<Fate>): CallFate {
    CallFate(true, true, [], steps)
  }

  /** What the documentation says of a plan's BlockedBy: the error Reconcile returns instead of running, or nil. */
  ghost predicate Predicts(w: World, files: seq<Migration>, opts: Options) {
    match BlockedBy(ReconcilePlan(w, files), files, opts)
    case Some(e) => forall steps :: Reconcile(w, files, opts, Smooth(steps)) == Refused(w, e)
    case None => forall steps :: Reconcile(w, files, opts, Smooth(steps)) == Attempt(w, ReconcilePlan(w, files), files, steps)
  }

  lemma {:induction false} CheckAnswers(rows: seq<Row>, ids: seq<string>)
    ensures IrreversibleIds(rows, ids, []).Failure? ==> IrreversibleIds(rows, ids, []).error == BadScript
    ensures ids == [] ==> IrreversibleIds(rows, ids, []) == Success([])
    decreases |ids|
  {
    hide Directives.ParseHeader, RowOf;
    if ids != [] {
      CheckAnswers(rows, ids[1..]);
    }
  }

  /** Where the check does not find every candidate reversible, Reconcile stops at that, whatever the rollbacks would do. */
  lemma Guarded(w: World, files: seq<Migration>, opts: Options, steps: seq<Fate>)
    requires FailedIds(w.rows) == [] && BlockedBy(ReconcilePlan(w, files), files, opts).None?
    requires IrreversibleIds(w.rows, ReconcilePlan(w, files).toRollback, []) != Success([])
    ensures ReconcilePlan(w, files).toRollback != []
    ensures var e := Reconcile(w, files, opts, Smooth(steps)).error; e.Some? && e.value != DatabaseError
  {
    hide RollbackAll, ApplyAll, PlanFor, IrreversibleIds, FailedIds;
    CheckAnswers(w.rows, ReconcilePlan(w, files).toRollback);
  }

  lemma AttemptNamesNoFailure(w: World, plan: Plan, files: seq<Migration>, steps: seq<Fate>)
    ensures !IsRefusal(Attempt(w, plan, files, steps).error)
  {
    hide RollbackAll, ApplyAll;
    RollbacksNeverRefuse(w, plan.toRollback, steps);
    AppliesNeverRefuse(RollbackAll(w, plan.toRollback, steps).world, plan.toApply, files,
                       DropFates(steps, |plan.toRollback|));
  }

  lemma FailedStops(w: World, files: seq<Migration>, opts: Options)
    requires FailedIds(w.rows) != []
    ensures !Predicts(w, files, opts)
  {
    hide RollbackAll, ApplyAll, PlanFor, FailedIds, BlockedBy, Attempt;
    var plan := ReconcilePlan(w, files);
    var steps: seq<Fate> := [];
    Refusals.NoFailureNamed(plan, files, opts);
    AttemptNamesNoFailure(w, plan, files, steps);
    assert Reconcile(w, files, opts, Smooth(steps)) == Refused(w, FailedMigrations(FailedIds(w.rows)));
  }

  /** The first rollback can always fail. */
  lemma AttemptFails(w: World, plan: Plan, files: seq<Migration>) returns (steps: seq<Fate>)
    requires plan.toRollback != []
    ensures Attempt(w, plan, files, steps).error == Some(DatabaseError)
  {
    steps := [LUCKY.(read := false)];
  }

  lemma Unguarded(w: World, files: seq<Migration>, opts: Options, steps: seq<Fate>)
    requires FailedIds(w.rows) == [] && BlockedBy(ReconcilePlan(w, files), files, opts).None?
    requires IrreversibleIds(w.rows, ReconcilePlan(w, files).toRollback, []) == Success([])
    ensures Reconcile(w, files, opts, Smooth(steps)) == Attempt(w, ReconcilePlan(w, files), files, steps)
  {
    hide PlanFor, FailedIds, IrreversibleIds;
  }

  /**
   BlockedBy foretells Reconcile exactly when no failure is on record and either it names a guard or every
   migration to be rolled back can be read and is reversible; it looks at neither.
   */
  lemma PlanPredictsExactly(w: World, files: seq<Migration>, opts: Options)
    ensures Predicts(w, files, opts)
            <==> && FailedIds(w.rows) == []
                 && (|| BlockedBy(ReconcilePlan(w, files), files, opts).Some?
                     || IrreversibleIds(w.rows, ReconcilePlan(w, files).toRollback, []) == Success([]))
  {
    hide RollbackAll, ApplyAll, PlanFor, IrreversibleIds, FailedIds, Attempt;
    var plan := ReconcilePlan(w, files);
    if FailedIds(w.rows) != [] {
      FailedStops(w, files, opts);
    } else if BlockedBy(plan, files, opts).None? {
      if IrreversibleIds(w.rows, plan.toRollback, []) == Success([]) {
        forall steps
          ensures Reconcile(w, files, opts, Smooth(steps)) == Attempt(w, plan, files, steps)
        {
          Unguarded(w, files, opts, steps);
        }
      } else {
        Guarded(w, files, opts, []);
        var steps := AttemptFails(w, plan, files);
        Guarded(w, files, opts, steps);
        assert Reconcile(w, files, opts, Smooth(steps)) != Attempt(w, plan, files, steps);
      }
    }
  }

  lemma PlainScript()
    ensures Directives.ParseHeader("x") == Success(Directives.Header({}, "x"))
    ensures Lexer.Statements("x").Success? && Trim("x") == "x"
  {
    hide Directives.IsBeginMarker;
    FieldsCons("", "x", "");
    assert "" + "x" + "" == "x" && "x"[1..] == "";
    assert FirstLine("x") == "x" && Lines("x") == ["x"];
    Directives.NotAMarker("x");
  }

  /** A migration that files can hold, and whose down script is irreversible. */
  lemma IrreversibleMigration() returns (m: Migration)
    ensures Loader.IsSound(m) && Directives.IsIrreversible(m.down) && m.id != ""
  {
    hide Directives.ParseHeader, Lexer.Statements, Trim;
    var names := [Directives.IRREVERSIBLE];
    m := Migration("1", "x", Directives.HeaderFor(names));
    Directives.KnownWords();
    Directives.NothingLate();
    Directives.HeaderReadsBack(names, "");
    Loader.NothingToSplit();
    Loader.BlankIsBlank();
    PlainScript();
  }

  lemma AppliesOne(m: Migration)
    requires Loader.IsSound(m)
    ensures Up(World([], map[]), [m], Smooth([])).world.rows == [NewRow(m, false)]
  {
    hide Directives.ParseHeader, Lexer.Statements, Trim;
    var empty := World([], map[]);
    NoRows();
    assert RowIds(empty.rows) == [] && [m][1..] == [];
    MissingFromNothing([m]);
    assert IdSet([]) == {};
    var plan := Plan([], [m], []);
    NoReversals([], []);
    assert PlanFor([m], [], false).toApply == [m];
    assert FailedIds([]) == [];
    assert ApplyOne(empty, m, LUCKY) == Outcome(AppliedWorld(empty, m), None);
    assert Lookup([m], m.id) == Some(m);
    assert ApplyAll(empty, [m], [m], []).world == AppliedWorld(empty, m);
    assert RollbackAll(empty, [], []) == Batch(empty, 0, None);
  }

  lemma RollsBackOne(id: string)
    ensures PlanFor([], [id], true) == Plan([id], [], [])
  {
    var ids := [id];
    assert ids[1..] == [] && IdSet(MigrationIds([])) == {};
    assert Drop(ids, {}) == ids && Reverse(ids) == ids;
  }

  lemma NamesOne(row: Row)
    requires Directives.IsIrreversible(row.down)
    ensures EnsureReversible([row], [row.id], []) == Some(Irreversible([row.id]))
  {
    hide Directives.ParseHeader;
    var ids := [row.id];
    assert ids[1..] == [] && RowOf([row], row.id) == Some(row);
    assert IrreversibleIds([row], [], []) == Success([]);
    assert [row.id] + [] == [row.id];
  }

  /**
   Up on an empty database applies one such migration; with its files gone, BlockedBy sees nothing in the way
   of a Reconcile that may roll back, and Reconcile refuses.
   */
  lemma BlockedByMisses(m: Migration)
    requires Loader.IsSound(m) && Directives.IsIrreversible(m.down) && m.id != ""
    ensures var opts := Options(true, true, true);
            var w := Up(World([], map[]), [m], Smooth([])).world;
            && BlockedBy(ReconcilePlan(w, []), [], opts) == None
            && Reconcile(w, [], opts, Smooth([])) == Refused(w, Irreversible([m.id]))
  {
    hide Directives.ParseHeader, Lexer.Statements, Trim, Directives.IsIrreversible;
    var empty := World([], map[]);
    var w := Up(empty, [m], Smooth([])).world;
    AppliesOne(m);
    var row := NewRow(m, false);
    assert RowIds(w.rows) == [m.id] && [row][1..] == [] && FailedIds(w.rows) == [];
    RollsBackOne(m.id);
    var ids := [m.id];
    assert ReconcilePlan(w, []).toRollback == ids;
    NamesOne(row);
  }
}

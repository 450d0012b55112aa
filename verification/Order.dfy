/** When the ledger's identifiers stay in ascending order, and what loading guarantees to later calls. */
module Order {
  import opened Text
  import opened Directives
  import opened Ids
  import opened Ledger
  import opened Planner
  import opened Calls
  import opened Shapes
  import opened Reconciliation
  import opened Runs
  import Loader
  import Lexer

  predicate InOrder(w: World) {
    Ascending(RowIds(w.rows))
  }

  lemma {:induction false} DropAscending(ids: seq<string>, s: set<string>)
    requires Ascending(ids)
    ensures Ascending(Drop(ids, s))
  {
    hide Less;
    if ids != [] {
      assert Ascending(ids[1..]);
      DropAscending(ids[1..], s);
      KeepMembers(ids[1..], s);
      var t := Drop(ids[1..], s);
      forall j | 0 <= j < |t|
        ensures Less(ids[0], t[j])
      {
        assert t[j] in ids[1..];
        var i :| 0 <= i < |ids| - 1 && ids[1..][i] == t[j];
        assert ids[i + 1] == t[j];
      }
      assert [] + t == t;
    }
  }

  /** Appending migrations that are not in the ledger and sort before nothing in it. */
  lemma AppendAscending(ids: seq<string>, ms: seq<Migration>, k: nat)
    requires Ascending(ids) && FilesOk(ms) && k <= |ms|
    requires forall m, x :: m in ms && x in ids ==> m.id != x && !Less(m.id, x)
    ensures Ascending(ids + MigrationIds(ms[..k]))
  {
    hide Less;
    var all := ids + MigrationIds(ms[..k]);
    forall i, j | 0 <= i < j < |all|
      ensures Less(all[i], all[j])
    {
      if i < |ids| <= j {
        assert ms[j - |ids|] in ms && ids[i] in ids;
        LessTotal(ids[i], ms[j - |ids|].id);
      } else if |ids| <= i {
        assert Less(MigrationIds(ms)[i - |ids|], MigrationIds(ms)[j - |ids|]);
      }
    }
  }

  /** The plan applies nothing that sorts before a migration it leaves applied. */
  ghost predicate AppliesInOrder(w: World, c: Call)
    requires IsWork(c)
  {
    c.DownCall? || PlanFor(WorkFiles(c), RowIds(w.rows), c.ReconcileCall?).interleaved == []
  }

  lemma NothingInterleaved(w: World, c: Call, m: Migration, x: string)
    requires IsWork(c) && CallOk(c) && AppliesInOrder(w, c)
    requires m in WorkPlan(w, c).toApply && x in Drop(RowIds(w.rows), IdSet(WorkPlan(w, c).toRollback))
    ensures m.id != x && !Less(m.id, x)
  {
    hide Less, Missing, Drop, Keep, Below, MaxId, Reverse;
    PlanAppliesMissing(w, c);
    var files, ids := WorkFiles(c), RowIds(w.rows);
    MissingMembers(files, IdSet(ids));
    KeepMembers(ids, IdSet(WorkPlan(w, c).toRollback));
    InterleavedExactly(files, ids, c.ReconcileCall?, m);
    if c.ReconcileCall? {
      RollbackIds(ids, files);
    }
  }

  lemma PlanFilesOk(w: World, c: Call)
    requires IsWork(c) && CallOk(c)
    ensures FilesOk(WorkPlan(w, c).toApply)
  {
    PlanAppliesMissing(w, c);
    if !c.DownCall? {
      MissingAscending(WorkFiles(c), IdSet(RowIds(w.rows)));
    }
  }

  lemma AppliedIds(rows: seq<Row>, ms: seq<Migration>, after: seq<Row>, k: nat, marked: bool)
    requires k <= |ms| && AppliedTo(rows, ms, after, k, marked)
    ensures RowIds(after) == RowIds(rows) + MigrationIds(ms[..if marked then k + 1 else k])
  {
  }

  lemma WorkKeepsOrder(w: World, c: Call)
    requires IsWork(c) && CallOk(c) && UniqueIds(w.rows) && InOrder(w)
    requires Run(w, c).world == w || AppliesInOrder(w, c)
    ensures InOrder(Run(w, c).world)
  {
    hide Less, Ascending, Without, WithFailed, WorkPlan, Up, Reconcile, Down, AppliesInOrder, Drop, FilesOk;
    var e := WorkShape(w, c);
    if Run(w, c).world == w {
      return;
    }
    var plan, after, ids := WorkPlan(w, c), Run(w, c).world.rows, RowIds(w.rows);
    if e.rolled < |plan.toRollback| {
      var s := IdSet(plan.toRollback[..e.rolled]);
      WithoutIds(w.rows, s);
      DropAscending(ids, s);
      WithFailedIds(Without(w.rows, s), plan.toRollback[e.rolled]);
    } else {
      var s := IdSet(plan.toRollback);
      WithoutIds(w.rows, s);
      DropAscending(ids, s);
      PlanFilesOk(w, c);
      forall m, x | m in plan.toApply && x in Drop(ids, s)
        ensures m.id != x && !Less(m.id, x)
      {
        NothingInterleaved(w, c, m, x);
      }
      var k := if e.marked then e.applied + 1 else e.applied;
      AppendAscending(Drop(ids, s), plan.toApply, k);
      AppliedIds(Without(w.rows, s), plan.toApply, after, e.applied, e.marked);
    }
  }

  lemma {:induction false} ThroughPrefix(files: seq<Migration>, through: string)
    requires MigrationsThrough(files, through).Some?
    ensures var ms := MigrationsThrough(files, through).value;
            0 < |ms| <= |files| && ms == files[..|ms|] && ms[|ms| - 1].id == through
  {
    if files[0].id != through {
      ThroughPrefix(files[1..], through);
    }
  }

  /** Up may be given interleaved migrations, and a Reconcile may be told to apply them. */
  ghost predicate KeepsOrder(w: World, c: Call) {
    match c
    case UpCall(_, _) => AppliesInOrder(w, c)
    case ReconcileCall(_, opts, _) => !opts.allowInterleaved
    case _ => true
  }

  lemma StaysInOrder(w: World, c: Call)
    requires CallOk(c) && Orderly(w) && InOrder(w) && KeepsOrder(w, c)
    ensures InOrder(Run(w, c).world)
  {
    hide Less, Up, Reconcile, Down, Forget, Baseline, PlanFor, UniqueIds, FailedIds;
    match c {
      case ForgetCall(id, f) =>
        ForgetRows(w, id, f);
        WithoutNone(w.rows);
        WithoutOneMore(w.rows, {}, id);
        WithoutIds(w.rows, {} + {id});
        DropAscending(RowIds(w.rows), {} + {id});
      case BaselineCall(files, through, f) =>
        BaselineRows(w, files, through, f);
        if MigrationsThrough(files, through).Some? {
          ThroughPrefix(files, through);
          var ms := MigrationsThrough(files, through).value;
          assert RowIds(NewRows(ms)) == MigrationIds(ms) == MigrationIds(files)[..|ms|];
        }
      case ReconcileCall(_, _, _) =>
        var e := WorkShape(w, c);
        WorkKeepsOrder(w, c);
      case _ =>
        WorkKeepsOrder(w, c);
    }
  }

  ghost predicate AllKeepOrder(w: World, calls: seq<Call>)
    decreases |calls|
  {
    calls == []
    || (CallOk(calls[0]) && KeepsOrder(w, calls[0]) && AllKeepOrder(Run(w, calls[0]).world, calls[1..]))
  }

  /**
   From an empty ledger, every run of Reconcile without AllowInterleaved, Down, Baseline, Forget, and Up
   with nothing interleaved, failing in any way, keeps the identifiers in strictly ascending order.
   */
  lemma {:induction false} AlwaysInOrder(w: World, calls: seq<Call>)
    requires Orderly(w) && InOrder(w) && AllKeepOrder(w, calls)
    ensures InOrder(RunAll(w, calls))
    decreases |calls|
  {
    hide Orderly, InOrder, Run, KeepsOrder, CallOk;
    if calls != [] {
      StaysInOrder(w, calls[0]);
      StaysOrderly(w, calls[0]);
      AlwaysInOrder(Run(w, calls[0]).world, calls[1..]);
    }
  }

  // ---------------------------------------------------------------------------------------------
  // Scripts are stored once

  function CallFiles(c: Call): seq<Migration> {
    if c.UpCall? || c.ReconcileCall? || c.BaselineCall? then c.files else []
  }

  predicate SameScripts(r: Row, q: Row) {
    r.id == q.id && r.up == q.up && r.down == q.down
  }

  lemma NewRowOrigin(ms: seq<Migration>, r: Row)
    requires r in NewRows(ms)
    ensures exists m :: m in ms && r == NewRow(m, false)
  {
    var i :| 0 <= i < |ms| && NewRows(ms)[i] == r;
    assert ms[i] in ms;
  }

  lemma MarkedOrigin(rows: seq<Row>, id: string, r: Row)
    requires r in WithFailed(rows, id)
    ensures exists q :: q in rows && SameScripts(r, q)
  {
    var i :| 0 <= i < |rows| && WithFailed(rows, id)[i] == r;
    assert rows[i] in rows && SameScripts(r, rows[i]);
  }

  lemma SameAsItself(r: Row)
    ensures SameScripts(r, r) && SameScripts(r, r.(failed := false))
  {
  }

  lemma NoRowOf(rows: seq<Row>, id: string)
    ensures id !in RowIds(rows) ==> !HasRow(rows, id)
  {
    if HasRow(rows, id) {
      var i :| 0 <= i < |rows| && rows[i].id == id;
      assert RowIds(rows)[i] == id;
    }
  }

  lemma WorkOrigin(w: World, c: Call, e: End, r: Row)
    requires IsWork(c) && EndsAt(w.rows, WorkPlan(w, c), Run(w, c).world.rows, e) && r in Run(w, c).world.rows
    ensures (exists q :: q in w.rows && SameScripts(r, q))
            || (!HasRow(w.rows, r.id) && exists m :: m in CallFiles(c) && SameScripts(r, NewRow(m, false)))
  {
    hide WorkPlan, Run, NewRows, WithFailed, SameScripts, Without, HasRow;
    SameAsItself(r);
    var plan := WorkPlan(w, c);
    WithoutMembers(w.rows, IdSet(plan.toRollback[..e.rolled]));
    WithoutMembers(w.rows, IdSet(plan.toRollback));
    if e.rolled < |plan.toRollback| {
      if e.marked {
        MarkedOrigin(Without(w.rows, IdSet(plan.toRollback[..e.rolled])), plan.toRollback[e.rolled], r);
      }
    } else if r !in w.rows {
      var m: Migration;
      if r in NewRows(plan.toApply[..e.applied]) {
        NewRowOrigin(plan.toApply[..e.applied], r);
        m :| m in plan.toApply[..e.applied] && r == NewRow(m, false);
      } else {
        m := plan.toApply[e.applied];
      }
      assert m in plan.toApply && r.(failed := false) == NewRow(m, false);
      PlanAppliesMissing(w, c);
      MissingMembers(WorkFiles(c), IdSet(RowIds(w.rows)));
      NoRowOf(w.rows, r.id);
    }
  }

  /**
   Whatever a call does, every row has the scripts it had before, or it is new and has those of the file with
   its identifier. A rollback, which reads them from the row, undoes a migration with the script that was
   stored when it was recorded.
   */
  lemma ScriptsAreKept(w: World, c: Call, r: Row)
    requires CallOk(c) && UniqueIds(w.rows) && r in Run(w, c).world.rows
    ensures (exists q :: q in w.rows && SameScripts(r, q))
            || (!HasRow(w.rows, r.id) && exists m :: m in CallFiles(c) && SameScripts(r, NewRow(m, false)))
  {
    hide UniqueIds, FailedIds, WorkPlan, Up, Reconcile, Down, Forget, Baseline, FilesOk, NewRows, WithFailed, SameScripts;
    SameAsItself(r);
    match c {
      case ForgetCall(id, f) =>
        ForgetRows(w, id, f);
        WithoutRowContents(w.rows, id);
      case BaselineCall(files, through, f) =>
        BaselineRows(w, files, through, f);
        if r !in w.rows {
          ThroughPrefix(files, through);
          NewRowOrigin(MigrationsThrough(files, through).value, r);
        }
      case _ =>
        var e := WorkShape(w, c);
        WorkOrigin(w, c, e, r);
    }
  }

  // ---------------------------------------------------------------------------------------------
  // Scripts that were accepted from files stay readable

  ghost predicate StoredSoundly(rows: seq<Row>) {
    forall r :: r in rows ==> Loader.IsReadable(r.down)
  }

  ghost predicate AllSound(ms: seq<Migration>) {
    forall m :: m in ms ==> Loader.IsSound(m)
  }

  ghost predicate CallSound(c: Call) {
    match c
    case UpCall(files, _) => AllSound(files)
    case ReconcileCall(files, _, _) => AllSound(files)
    case BaselineCall(files, _, _) => AllSound(files)
    case _ => true
  }

  /** Every list that the loader returns is one that calls may be given. */
  lemma LoadedIsFine(entries: seq<Loader.Entry>, nested: map<string, seq<Loader.Entry>>, files: map<string, string>,
                     ms: seq<Migration>)
    requires Loader.IsLoadable(entries, nested, files) && Loader.IsLoad(entries, files, ms)
    ensures FilesOk(ms) && AllSound(ms)
  {
    hide Loader.IsLoadable, Loader.IsSound, Loader.Collide, Less;
    Loader.LoadIsSound(entries, nested, files, ms);
  }

  lemma ApplyReads(w: World, m: Migration, f: Fate)
    requires Loader.IsSound(m)
    ensures ApplyOne(w, m, f).error != Some(BadScript)
  {
    hide ParseHeader, Lexer.Statements;
  }

  lemma RollbackReads(w: World, id: string, f: Fate)
    requires StoredSoundly(w.rows)
    ensures RollbackOne(w, id, f).error != Some(BadScript)
  {
    hide ParseHeader, Lexer.Statements;
    var r := RowOf(w.rows, id);
  }

  lemma StoredWithout(rows: seq<Row>, id: string)
    requires StoredSoundly(rows)
    ensures StoredSoundly(WithoutRow(rows, id))
  {
    WithoutRowContents(rows, id);
  }

  lemma {:induction false} RollbacksRead(w: World, ids: seq<string>, fates: seq<Fate>)
    requires StoredSoundly(w.rows)
    ensures RollbackAll(w, ids, fates).error != Some(BadScript)
    decreases |ids|
  {
    hide RollbackOne, StoredSoundly;
    if ids != [] {
      RollbackReads(w, ids[0], HeadFate(fates));
      var o := RollbackOne(w, ids[0], HeadFate(fates));
      RollbackCases(w, ids[0], HeadFate(fates));
      if o.error.None? {
        StoredWithout(w.rows, ids[0]);
        RollbacksRead(o.world, ids[1..], TailFates(fates));
      }
    }
  }

  lemma {:induction false} LookupIn(files: seq<Migration>, id: string)
    ensures Lookup(files, id).Some? ==> Lookup(files, id).value in files
  {
    if files != [] && files[|files| - 1].id != id {
      LookupIn(files[..|files| - 1], id);
    }
  }

  lemma {:induction false} AppliesRead(w: World, ms: seq<Migration>, files: seq<Migration>, fates: seq<Fate>)
    requires AllSound(files)
    ensures ApplyAll(w, ms, files, fates).error != Some(BadScript)
    decreases |ms|
  {
    hide ApplyOne, Loader.IsSound;
    if ms != [] {
      LookupIn(files, ms[0].id);
      if Lookup(files, ms[0].id).Some? {
        var m := Lookup(files, ms[0].id).value;
        ApplyReads(w, m, HeadFate(fates));
        AppliesRead(ApplyOne(w, m, HeadFate(fates)).world, ms[1..], files, TailFates(fates));
      }
    }
  }

  lemma {:induction false} CheckReads(rows: seq<Row>, ids: seq<string>, selects: seq<bool>)
    requires StoredSoundly(rows)
    ensures IrreversibleIds(rows, ids, selects) != Failure(BadScript)
    decreases |ids|
  {
    hide ParseHeader, Lexer.Statements;
    if ids != [] {
      CheckReads(rows, ids[1..], if selects == [] then [] else selects[1..]);
      var r := RowOf(rows, ids[0]);
    }
  }

  lemma SoundDown(m: Migration)
    requires Loader.IsSound(m)
    ensures Loader.IsReadable(m.down)
  {
  }

  lemma StoredAfter(w: World, c: Call)
    requires CallOk(c) && CallSound(c) && UniqueIds(w.rows) && StoredSoundly(w.rows)
    ensures StoredSoundly(Run(w, c).world.rows)
  {
    hide Loader.IsReadable, Loader.IsSound, UniqueIds, CallOk, Run, HasRow;
    forall r | r in Run(w, c).world.rows
      ensures Loader.IsReadable(r.down)
    {
      ScriptsAreKept(w, c, r);
      if m :| m in CallFiles(c) && SameScripts(r, NewRow(m, false)) {
        SoundDown(m);
      }
    }
  }

  /** With sound files and soundly stored scripts, no call ever trips over a script. */
  lemma NeverTripsOverAScript(w: World, c: Call)
    requires CallOk(c) && CallSound(c) && UniqueIds(w.rows) && StoredSoundly(w.rows)
    ensures Run(w, c).error != Some(BadScript)
    ensures StoredSoundly(Run(w, c).world.rows)
  {
    hide StoredSoundly, AllSound, UniqueIds, RollbackAll, ApplyAll, IrreversibleIds, PlanFor, FailedIds,
      WithoutRow, MigrationsThrough, NewRows;
    StoredAfter(w, c);
    if IsWork(c) {
      var plan := WorkPlan(w, c);
      RollbacksRead(w, plan.toRollback, c.fate.steps);
      if c.DownCall? {
        CheckReads(w.rows, LastIds(w.rows, c.count), c.fate.selects);
      } else {
        CheckReads(w.rows, plan.toRollback, c.fate.selects);
        var b := RollbackAll(w, plan.toRollback, c.fate.steps);
        AppliesRead(b.world, plan.toApply, c.files, DropFates(c.fate.steps, |plan.toRollback|));
      }
    }
  }

  /** However the ledger came about, as long as the files were loaded. */
  lemma {:induction false} NeverTripsInARun(w: World, calls: seq<Call>, c: Call)
    requires Orderly(w) && StoredSoundly(w.rows)
    requires AllOk(calls) && (forall i :: 0 <= i < |calls| ==> CallSound(calls[i])) && CallOk(c) && CallSound(c)
    ensures Run(RunAll(w, calls), c).error != Some(BadScript)
    decreases |calls|
  {
    hide CallOk, CallSound, Run, StoredSoundly, UniqueIds, FailedIds;
    if calls == [] {
      NeverTripsOverAScript(w, c);
    } else {
      NeverTripsOverAScript(w, calls[0]);
      StaysOrderly(w, calls[0]);
      NeverTripsInARun(Run(w, calls[0]).world, calls[1..], c);
    }
  }
}

/**
 The service's calls as they are written: take the lock, look at the ledger, plan, execute, release. Each
 is proved to do what the functions in Calls say while never holding more than two connections, the lock's
 and one other, so that a pool limited to two never waits for itself.
 */
module Service {
  import opened Text
  import opened Directives
  import opened Ids
  import opened Ledger
  import opened Planner
  import Calls
  import Runs
  import Order
  import opened Executor

  method MigrationsThrough(files: seq<Migration>, through: string) returns (r: Option<seq<Migration>>)
    ensures r == Calls.MigrationsThrough(files, through)
  {
    assert files[0..] == files;
    ghost var all := Calls.MigrationsThrough(files, through);
    assert all.Some? ==> files[..0] + all.value == all.value;
    for i := 0 to |files|
      invariant var rest := Calls.MigrationsThrough(files[i..], through);
                all == if rest.None? then None else Some(files[..i] + rest.value)
    {
      assert files[i..][1..] == files[i + 1..] && files[..i + 1] == files[..i] + [files[i]];
      if files[i].id == through {
        return Some(files[..i + 1]);
      }
      ghost var rest := Calls.MigrationsThrough(files[i + 1..], through);
      assert rest.Some? ==> files[..i] + ([files[i]] + rest.value) == files[..i + 1] + rest.value;
    }
    return None;
  }

  lemma NoneFailed()
    ensures Calls.FailedIds([]) == []
  {
  }

  lemma {:induction false} OneMoreFailed(rows: seq<Row>, r: Row)
    ensures Calls.FailedIds(rows + [r]) == Calls.FailedIds(rows) + if r.failed then [r.id] else []
  {
    if rows == [] {
      assert rows + [r] == [r];
    } else {
      OneMoreFailed(rows[1..], r);
      assert (rows + [r])[1..] == rows[1..] + [r];
    }
  }

  lemma LastIdsAre(rows: seq<Row>, count: int)
    ensures var n := if count <= 0 || count > |rows| then |rows| else count;
            Calls.LastIds(rows, count) == RowIds(rows)[|rows| - n..]
  {
  }

  lemma NothingApplied(w: World, count: int, f: Calls.CallFate)
    requires w.rows == [] && f.entry && f.load
    ensures Calls.Down(w, count, f) == Calls.Report(w, [], [], None)
  {
  }

  lemma WithoutUnrecorded(rows: seq<Row>, id: string)
    ensures !HasRow(rows, id) ==> WithoutRow(rows, id) == rows
  {
    if !HasRow(rows, id) {
      WithoutAbsent(rows, id);
    }
  }

  // ---------------------------------------------------------------------------------------------
  // Transactional scripts of a call

  /** How many scripts that run in a transaction take effect in a call. */
  function CallCommits(w: World, c: Calls.Call): nat {
    if !Runs.IsWork(c) || !Runs.Starts(w, c) then 0
    else if c.DownCall? then RollbacksCommitted(w, Runs.WorkPlan(w, c).toRollback, c.fate.steps)
    else PlanCommits(w, Runs.WorkPlan(w, c), c.files, c.fate.selects, c.fate.steps)
  }

  lemma DownCommits(w: World, count: int, f: Calls.CallFate)
    requires f.entry && f.load && Calls.FailedIds(w.rows) == []
    requires Calls.EnsureReversible(w.rows, Calls.LastIds(w.rows, count), f.selects).None?
    ensures CallCommits(w, Calls.DownCall(count, f))
            == RollbacksCommitted(w, Reverse(Calls.LastIds(w.rows, count)), f.steps)
  {
    hide Calls.EnsureReversible, Calls.FailedIds, Calls.LastIds, RollbacksCommitted;
  }

  lemma UpCommits(w: World, files: seq<Migration>, f: Calls.CallFate)
    requires f.entry && f.load && Calls.FailedIds(w.rows) == []
    ensures var plan := Plan([], PlanFor(files, RowIds(w.rows), false).toApply, []);
            CallCommits(w, Calls.UpCall(files, f)) == PlanCommits(w, plan, files, f.selects, f.steps)
  {
    hide Calls.EnsureReversible, Calls.FailedIds, PlanCommits, PlanFor;
  }

  lemma ReconcileCommits(w: World, files: seq<Migration>, opts: Calls.Options, f: Calls.CallFate)
    requires f.entry && f.load && Calls.FailedIds(w.rows) == []
    requires Calls.BlockedBy(Calls.ReconcilePlan(w, files), files, opts).None?
    ensures CallCommits(w, Calls.ReconcileCall(files, opts, f))
            == PlanCommits(w, Calls.ReconcilePlan(w, files), files, f.selects, f.steps)
  {
    hide Calls.EnsureReversible, Calls.FailedIds, Calls.BlockedBy, Calls.RollbackAll, RollbacksCommitted,
      AppliesCommitted, PlanFor;
  }

  lemma {:induction false} RollbacksOutside(w: World, ids: seq<string>, fates: seq<Fate>)
    requires forall r :: r in w.rows && r.id in ids ==> IsNoTransaction(r.down)
    ensures RollbacksCommitted(w, ids, fates) == 0
    decreases |ids|
  {
    hide IsNoTransaction, RollbackOne, WithoutRow;
    if ids != [] {
      var o := RollbackOne(w, ids[0], Calls.HeadFate(fates));
      RollbackCases(w, ids[0], Calls.HeadFate(fates));
      WithoutRowContents(w.rows, ids[0]);
      assert ids == [ids[0]] + ids[1..];
      if o.error.None? {
        RollbacksOutside(o.world, ids[1..], Calls.TailFates(fates));
      }
    }
  }

  lemma {:induction false} AppliesOutside(w: World, ms: seq<Migration>, files: seq<Migration>, fates: seq<Fate>)
    requires forall m :: m in files ==> IsNoTransaction(m.up)
    ensures AppliesCommitted(w, ms, files, fates) == 0
    decreases |ms|
  {
    hide IsNoTransaction, ApplyOne, Calls.Lookup;
    if ms != [] {
      Order.LookupIn(files, ms[0].id);
      if Calls.Lookup(files, ms[0].id).Some? {
        var o := ApplyOne(w, Calls.Lookup(files, ms[0].id).value, Calls.HeadFate(fates));
        AppliesOutside(o.world, ms[1..], files, Calls.TailFates(fates));
      }
    }
  }

  /** A call whose scripts all say "notransaction" leaves nothing on any session. */
  lemma OutsideLeavesNothing(w: World, c: Calls.Call)
    requires forall r :: r in w.rows ==> IsNoTransaction(r.down)
    requires Runs.IsWork(c) && !c.DownCall? ==> forall m :: m in c.files ==> IsNoTransaction(m.up)
    ensures CallCommits(w, c) == 0
  {
    hide IsNoTransaction, RollbacksCommitted, AppliesCommitted, Runs.Starts, Runs.WorkPlan, Calls.RollbackAll;
    if Runs.IsWork(c) {
      var plan, fates := Runs.WorkPlan(w, c), c.fate.steps;
      RollbacksOutside(w, plan.toRollback, fates);
      if !c.DownCall? {
        AppliesOutside(Calls.RollbackAll(w, plan.toRollback, fates).world, plan.toApply, c.files,
                       Calls.DropFates(fates, |plan.toRollback|));
      }
    }
  }

  class Service {
    const executor: CustomExecutor

    constructor (executor: CustomExecutor)
      ensures this.executor == executor
    {
      this.executor := executor;
    }

    /** No connection is out, and at most two have been at a time since the old state. */
    twostate predicate AtRest()
      reads executor
    {
      && executor.Valid() && executor.out == []
      && (executor.peak <= old(executor.peak) || executor.peak <= 2)
    }

    /** Between calls the pool is whole; during one, the lock's connection is out. */
    twostate predicate Locked()
      reads executor
    {
      && executor.Valid() && |executor.out| == 1 && executor.CanOpen() && executor.View() == old(executor.View())
      && (executor.peak <= old(executor.peak) || executor.peak <= 2)
    }

    /** AcquireLock, as far as the pool is concerned: the lock's connection stays out until ReleaseLock. */
    method AcquireLock(ok: bool) returns (err: Option<Error>)
      requires executor.Valid() && executor.out == []
      modifies executor`out, executor`idle, executor`peak
      ensures err == if executor.limit == 1 then Some(PoolTooSmall) else if ok then None else Some(DatabaseError)
      ensures err.None? ==> Locked()
      ensures executor.Scripted() == old(executor.Scripted())
      ensures err.Some? ==> AtRest() && executor.View() == old(executor.View())
    {
      if executor.limit == 1 {
        return Some(PoolTooSmall);
      }
      executor.Checkout();
      if !ok {
        executor.Return();
        return Some(DatabaseError);
      }
      return None;
    }

    method ReleaseLock()
      requires executor.Valid() && |executor.out| == 1
      modifies executor`out, executor`idle
      ensures executor.Valid() && executor.out == [] && executor.Scripted() == old(executor.Scripted())
    {
      executor.Return();
    }

    method RefuseIfFailed() returns (err: Option<Error>)
      requires executor.Valid() && executor.CanOpen()
      modifies executor`out, executor`idle, executor`peak
      ensures executor.Valid() && executor.Balanced() && executor.Scripted() == old(executor.Scripted())
      ensures var failed := Calls.FailedIds(executor.rows);
              err == if failed == [] then None else Some(FailedMigrations(failed))
    {
      hide Calls.FailedIds;
      executor.Query();
      var applied := executor.rows;
      var failed: seq<string> := [];
      NoneFailed();
      for i := 0 to |applied|
        invariant executor.Valid() && executor.Balanced() && executor.Scripted() == old(executor.Scripted())
        invariant failed == Calls.FailedIds(applied[..i])
      {
        OneMoreFailed(applied[..i], applied[i]);
        assert applied[..i + 1] == applied[..i] + [applied[i]];
        if applied[i].failed {
          failed := failed + [applied[i].id];
        }
      }
      assert applied[..|applied|] == applied;
      return if failed == [] then None else Some(FailedMigrations(failed));
    }

    method Up(files: seq<Migration>, f: Calls.CallFate) returns (r: Calls.Report)
      requires executor.Valid() && executor.out == []
      modifies executor
      ensures AtRest() && executor.View() == r.world
      ensures executor.limit == 1 ==> r == Calls.Refused(old(executor.View()), PoolTooSmall)
      ensures executor.limit != 1 ==> r == Calls.Up(old(executor.View()), files, f)
      ensures executor.Scripted() <= old(executor.Scripted()) + CallCommits(old(executor.View()), Calls.UpCall(files, f))
    {
      hide PlanFor, Calls.ExecutePlan, Calls.FailedIds, CallCommits, PlanCommits, Count, UniqueIds;
      var err := AcquireLock(f.entry);
      if err.Some? {
        return Calls.Refused(executor.View(), err.value);
      }
      err := RefuseIfFailed();
      if err.Some? {
        ReleaseLock();
        return Calls.Refused(executor.View(), err.value);
      }
      executor.Query();
      if !f.load {
        ReleaseLock();
        return Calls.Refused(executor.View(), DatabaseError);
      }
      var plan := BuildPlan(files, RowIds(executor.rows), false);
      UpCommits(executor.View(), files, f);
      var rolledBack, applied;
      rolledBack, applied, err := executor.ExecutePlan(Plan([], plan.toApply, []), files, f.selects, f.steps);
      ReleaseLock();
      r := Calls.Report(executor.View(), rolledBack, applied, err);
    }

    /** The plan Reconcile would execute, and the guard that would stop it; reads only. */
    method BuildReconcilePlan(files: seq<Migration>, opts: Calls.Options) returns (plan: Plan, blockedBy: Option<Error>)
      requires executor.Valid() && executor.out == []
      modifies executor`out, executor`idle, executor`peak
      ensures AtRest() && executor.View() == old(executor.View()) && executor.Scripted() == old(executor.Scripted())
      ensures plan == Calls.ReconcilePlan(executor.View(), files)
      ensures blockedBy == Calls.BlockedBy(plan, files, opts)
    {
      hide PlanFor;
      executor.Query();
      plan := BuildPlan(files, RowIds(executor.rows), true);
      blockedBy := Calls.BlockedBy(plan, files, opts);
    }

    method Reconcile(files: seq<Migration>, opts: Calls.Options, f: Calls.CallFate) returns (r: Calls.Report)
      requires executor.Valid() && executor.out == []
      modifies executor
      ensures AtRest() && executor.View() == r.world
      ensures executor.limit == 1 ==> r == Calls.Refused(old(executor.View()), PoolTooSmall)
      ensures executor.limit != 1 ==> r == Calls.Reconcile(old(executor.View()), files, opts, f)
      ensures executor.Scripted() <= old(executor.Scripted()) + CallCommits(old(executor.View()), Calls.ReconcileCall(files, opts, f))
    {
      hide PlanFor, Calls.ExecutePlan, Calls.FailedIds, Calls.BlockedBy, CallCommits, PlanCommits, Count, UniqueIds;
      var err := AcquireLock(f.entry);
      if err.Some? {
        return Calls.Refused(executor.View(), err.value);
      }
      err := RefuseIfFailed();
      if err.Some? {
        ReleaseLock();
        return Calls.Refused(executor.View(), err.value);
      }
      executor.Query();
      if !f.load {
        ReleaseLock();
        return Calls.Refused(executor.View(), DatabaseError);
      }
      var plan := BuildPlan(files, RowIds(executor.rows), true);
      err := Calls.BlockedBy(plan, files, opts);
      if err.Some? {
        ReleaseLock();
        return Calls.Refused(executor.View(), err.value);
      }
      ReconcileCommits(executor.View(), files, opts, f);
      var rolledBack, applied;
      rolledBack, applied, err := executor.ExecutePlan(plan, files, f.selects, f.steps);
      ReleaseLock();
      r := Calls.Report(executor.View(), rolledBack, applied, err);
    }

    method Rollback(count: int, f: Calls.CallFate) returns (r: Calls.Report)
      requires executor.Valid() && executor.out == []
      modifies executor
      ensures AtRest() && executor.View() == r.world
      ensures executor.limit == 1 ==> r == Calls.Refused(old(executor.View()), PoolTooSmall)
      ensures executor.limit != 1 ==> r == Calls.Down(old(executor.View()), count, f)
      ensures executor.Scripted() <= old(executor.Scripted()) + CallCommits(old(executor.View()), Calls.DownCall(count, f))
    {
      hide Calls.RollbackAll, Calls.FailedIds, Calls.EnsureReversible, Calls.LastIds, Reverse, RowIds, Calls.Take,
        CallCommits, RollbacksCommitted, Count, UniqueIds;
      var err := AcquireLock(f.entry);
      if err.Some? {
        return Calls.Refused(executor.View(), err.value);
      }
      err := RefuseIfFailed();
      if err.Some? {
        ReleaseLock();
        return Calls.Refused(executor.View(), err.value);
      }
      executor.Query();
      if !f.load {
        ReleaseLock();
        return Calls.Refused(executor.View(), DatabaseError);
      }
      var applied := executor.rows;
      if |applied| == 0 {
        ReleaseLock();
        NothingApplied(executor.View(), count, f);
        return Calls.Report(executor.View(), [], [], None);
      }
      var rollbackCount := if count <= 0 || count > |applied| then |applied| else count;
      var ids := RowIds(applied)[|applied| - rollbackCount..];
      LastIdsAre(applied, count);
      err := executor.EnsureReversible(ids, f.selects);
      if err.Some? {
        ReleaseLock();
        return Calls.Refused(executor.View(), err.value);
      }
      DownCommits(executor.View(), count, f);
      var done: nat;
      done, err := executor.RollbackEach(Reverse(ids), f.steps);
      ReleaseLock();
      r := Calls.Report(executor.View(), Calls.Take(Reverse(ids), done), [], err);
    }

    method Baseline(files: seq<Migration>, through: string, f: Calls.CallFate) returns (r: Calls.Report)
      requires executor.Valid() && executor.out == []
      modifies executor
      ensures AtRest() && executor.View() == r.world
      ensures executor.limit == 1 ==> r == Calls.Refused(old(executor.View()), PoolTooSmall)
      ensures executor.limit != 1 ==> r == Calls.Baseline(old(executor.View()), files, through, f)
      ensures executor.Scripted() == old(executor.Scripted())
    {
      hide Calls.RecordApplied;
      var err := AcquireLock(f.entry);
      if err.Some? {
        return Calls.Refused(executor.View(), err.value);
      }
      executor.Query();
      if executor.rows != [] {
        ReleaseLock();
        return Calls.Refused(executor.View(), AlreadyRecorded);
      }
      if !f.load {
        ReleaseLock();
        return Calls.Refused(executor.View(), DatabaseError);
      }
      var toRecord := MigrationsThrough(files, through);
      if toRecord.None? {
        ReleaseLock();
        return Calls.Refused(executor.View(), BaselineNotFound);
      }
      err := executor.RecordApplied(toRecord.value, Calls.HeadFate(f.steps));
      ReleaseLock();
      r := Calls.Report(executor.View(), [], if err.None? then toRecord.value else [], err);
    }

    method Forget(id: string, f: Calls.CallFate) returns (r: Calls.Report)
      requires executor.Valid() && executor.out == []
      modifies executor
      ensures AtRest() && executor.View() == r.world
      ensures executor.limit == 1 ==> r == Calls.Refused(old(executor.View()), PoolTooSmall)
      ensures executor.limit != 1 ==> r == Calls.Forget(old(executor.View()), id, f)
      ensures executor.Scripted() == old(executor.Scripted())
    {
      var err := AcquireLock(f.entry);
      if err.Some? {
        return Calls.Refused(executor.View(), err.value);
      }
      WithoutUnrecorded(executor.rows, id);
      var found;
      found, err := executor.DeleteRecord(id, Calls.HeadFate(f.steps));
      ReleaseLock();
      if err.Some? {
        return Calls.Refused(executor.View(), err.value);
      }
      if !found {
        return Calls.Refused(executor.View(), NotRecorded);
      }
      return Calls.Report(executor.View(), [], [], None);
    }
  }
}

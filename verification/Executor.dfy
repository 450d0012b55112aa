/**
 CustomExecutor as it is written: one statement after another, in a transaction or on a connection of its
 own, each on a connection borrowed from the pool. Every method is proved to do to the database what the
 functions in Ledger and Calls say, and to need one connection at a time.
 */
module Executor {
  import opened Text
  import opened Directives
  import opened Ids
  import opened Ledger
  import opened Planner
  import opened Calls
  import opened Reconciliation
  import opened Splitter

  /** A batch that follows n successful steps. */
  function Advanced(n: nat, b: Batch): Batch {
    b.(done := b.done + n)
  }

  function DropSelects(selects: seq<bool>, n: nat): seq<bool> {
    if n <= |selects| then selects[n..] else []
  }

  function Prepend(found: seq<string>, r: Result<seq<string>, Error>): Result<seq<string>, Error> {
    if r.Failure? then r else Success(found + r.value)
  }

  lemma PrependNothing(r: Result<seq<string>, Error>)
    ensures Prepend([], r) == r
  {
    assert r.Success? ==> [] + r.value == r.value;
  }

  lemma PrependFailure(found: seq<string>, e: Error)
    ensures Prepend(found, Failure(e)) == Failure(e)
  {
  }

  lemma PrependToNothing(found: seq<string>)
    ensures Prepend(found, Success([])) == Success(found)
  {
    assert found + [] == found;
  }

  lemma PrependMore(found: seq<string>, id: string, r: Result<seq<string>, Error>)
    ensures Prepend(found, if r.Failure? then r else Success([id] + r.value)) == Prepend(found + [id], r)
  {
    assert r.Success? ==> found + ([id] + r.value) == found + [id] + r.value;
  }

  lemma ClashStays(rows: seq<Row>, ms: seq<Migration>, i: nat)
    requires i < |ms| && HasRow(rows + NewRows(ms[..i]), ms[i].id)
    ensures !UniqueIds(rows + NewRows(ms))
  {
    var before, all := rows + NewRows(ms[..i]), rows + NewRows(ms);
    var j :| 0 <= j < |before| && before[j].id == ms[i].id;
    assert all[j].id == before[j].id;
    assert all[|rows| + i].id == ms[i].id;
  }

  // ---------------------------------------------------------------------------------------------
  // Scripts that commit in a transaction, on a session that goes back to the pool

  /** The migration's script ran in a transaction that took effect, which shows in its row. */
  predicate ApplyCommits(w: World, m: Migration, f: Fate) {
    !IsNoTransaction(m.up) && ApplyOne(w, m, f).world != w
  }

  predicate RollbackCommits(w: World, id: string, f: Fate) {
    RowOf(w.rows, id).Some? && !IsNoTransaction(RowOf(w.rows, id).value.down) && RollbackOne(w, id, f).world != w
  }

  function RollbacksCommitted(w: World, ids: seq<string>, fates: seq<Fate>): nat
    decreases |ids|
  {
    if ids == [] then 0
    else
      var o := RollbackOne(w, ids[0], HeadFate(fates));
      (if RollbackCommits(w, ids[0], HeadFate(fates)) then 1 else 0)
      + (if o.error.Some? then 0 else RollbacksCommitted(o.world, ids[1..], TailFates(fates)))
  }

  function AppliesCommitted(w: World, ms: seq<Migration>, files: seq<Migration>, fates: seq<Fate>): nat
    decreases |ms|
  {
    if ms == [] then 0
    else
      match Lookup(files, ms[0].id)
      case None => 0
      case Some(m) =>
        var o := ApplyOne(w, m, HeadFate(fates));
        (if ApplyCommits(w, m, HeadFate(fates)) then 1 else 0)
        + (if o.error.Some? then 0 else AppliesCommitted(o.world, ms[1..], files, TailFates(fates)))
  }

  /** How many transactional scripts take effect when a plan is executed. */
  function PlanCommits(w: World, plan: Plan, files: seq<Migration>, selects: seq<bool>, fates: seq<Fate>): nat {
    if Calls.EnsureReversible(w.rows, plan.toRollback, selects).Some? then 0
    else
      var b := RollbackAll(w, plan.toRollback, fates);
      RollbacksCommitted(w, plan.toRollback, fates)
      + if b.error.Some? then 0
        else AppliesCommitted(b.world, plan.toApply, files, DropFates(fates, |plan.toRollback|))
  }

  lemma RollbackChanges(rows: seq<Row>, id: string)
    ensures HasRow(rows, id) ==> WithoutRow(rows, id) != rows
  {
    hide WithoutRow, HasRow;
    WithoutRowMembers(rows, id);
  }

  function Count(marks: seq<bool>): nat {
    multiset(marks)[true]
  }

  lemma CountLast(marks: seq<bool>, last: bool)
    ensures Count(marks + [last]) == Count(marks) + if last then 1 else 0
  {
  }

  lemma CountFirst(marks: seq<bool>)
    ensures marks != [] ==> Count(marks) == Count(marks[1..]) + if marks[0] then 1 else 0
  {
    if marks != [] {
      assert marks == [marks[0]] + marks[1..];
    }
  }

  lemma NoneScripted(marks: seq<bool>)
    ensures Count(marks) == 0 ==> true !in marks
  {
  }

  /** The loop of RecordApplied, in its transaction: a row for each migration, unless the primary key refuses one. */
  method InsertEach(rows: seq<Row>, ms: seq<Migration>) returns (r: Option<seq<Row>>)
    requires UniqueIds(rows)
    ensures r == if UniqueIds(rows + NewRows(ms)) then Some(rows + NewRows(ms)) else None
  {
    hide UniqueIds;
    var txRows := rows;
    assert rows + NewRows(ms[..0]) == rows;
    for i := 0 to |ms|
      invariant txRows == rows + NewRows(ms[..i]) && UniqueIds(txRows)
    {
      assert NewRows(ms[..i + 1]) == NewRows(ms[..i]) + [NewRow(ms[i], false)];
      if HasRow(txRows, ms[i].id) {
        ClashStays(rows, ms, i);
        return None;
      }
      UniqueAppend(txRows, NewRow(ms[i], false));
      txRows := txRows + [NewRow(ms[i], false)];
    }
    assert ms[..|ms|] == ms;
    return Some(txRows);
  }

  class CustomExecutor {
    var rows: seq<Row>               // the bookkeeping table
    var schema: map<string, Status>  // everything else in the database
    var out: seq<bool>               // connections out of the pool, and whether a script has left settings on them
    var idle: seq<bool>              // those in the pool
    const limit: nat                 // the most there may be; 0 for no limit
    ghost var peak: nat              // the most there have been

    constructor (limit: nat)
      ensures Valid() && View() == World([], map[]) && out == [] && peak == 0 && this.limit == limit
    {
      rows, schema, out, idle, peak := [], map[], [], [], 0;
      this.limit := limit;
    }

    ghost predicate Valid()
      reads this
    {
      |out| <= peak && (limit != 0 ==> |out| <= limit) && UniqueIds(rows)
    }

    function View(): World
      reads this
    {
      World(rows, schema)
    }

    /** A connection can be had without waiting for one to come back. */
    predicate CanOpen()
      reads this
    {
      limit == 0 || |out| < limit
    }

    /** Only connections changed, and they are all back; one more than before were out at a time. */
    twostate predicate Balanced()
      reads this
    {
      out == old(out) && old(peak) <= peak && (peak == old(peak) || peak == |out| + 1)
    }

    /** How many sessions carry settings that a script has left on them. */
    function Scripted(): nat
      reads this`idle, this`out
    {
      Count(idle) + Count(out)
    }

    /** Takes a session from the pool, or opens one. */
    method Checkout()
      requires Valid() && CanOpen()
      modifies this`out, this`idle, this`peak
      ensures Valid() && out == old(out) + [old(idle) != [] && old(idle)[0]] && Scripted() == old(Scripted())
      ensures peak == if old(peak) < |out| then |out| else old(peak)
    {
      var taken := idle != [] && idle[0];
      CountFirst(idle);
      CountLast(out, taken);
      if idle != [] {
        idle := idle[1..];
      }
      out := out + [taken];
      if peak < |out| {
        peak := |out|;
      }
    }

    /** Close: the session last taken goes back to the pool, as it is. */
    method Return()
      requires Valid() && out != []
      modifies this`out, this`idle
      ensures Valid() && out == old(out)[..|old(out)| - 1] && Scripted() == old(Scripted())
    {
      var last := out[|out| - 1];
      CountLast(idle, last);
      CountLast(out[..|out| - 1], last);
      assert out == out[..|out| - 1] + [last];
      idle := idle + [last];
      out := out[..|out| - 1];
    }

    /** A script has run on the session last taken, and what it has set there is to stay. */
    method Mark()
      requires Valid() && out != []
      modifies this`out
      ensures Valid() && out == old(out)[|old(out)| - 1 := true]
      ensures Scripted() == old(Scripted()) + if old(out)[|old(out)| - 1] then 0 else 1
    {
      var front := out[..|out| - 1];
      CountLast(front, out[|out| - 1]);
      CountLast(front, true);
      assert out == front + [out[|out| - 1]];
      out := front + [true];
    }

    /** releaseConn, by way of sqlconn.Destroy: the session last taken ends. */
    method ReleaseConn()
      requires Valid() && out != []
      modifies this`out
      ensures Valid() && out == old(out)[..|old(out)| - 1]
      ensures Scripted() == old(Scripted()) - if old(out)[|old(out)| - 1] then 1 else 0
    {
      CountLast(out[..|out| - 1], out[|out| - 1]);
      assert out == out[..|out| - 1] + [out[|out| - 1]];
      out := out[..|out| - 1];
    }

    /** A statement on a connection that goes straight back to the pool. */
    method Query()
      requires Valid() && CanOpen()
      modifies this`out, this`idle, this`peak
      ensures Valid() && Balanced() && Scripted() == old(Scripted())
    {
      Checkout();
      Return();
    }

    // -------------------------------------------------------------------------------------------

    method ApplyMigration(m: Migration, f: Fate) returns (err: Option<Error>)
      requires Valid() && CanOpen()
      modifies this
      ensures Valid() && Balanced()
      ensures Outcome(View(), err) == ApplyOne(old(View()), m, f)
      ensures Scripted() <= old(Scripted()) + if ApplyCommits(old(View()), m, f) then 1 else 0
      ensures old(Scripted()) == 0 && ApplyCommits(old(View()), m, f) ==> Scripted() == 1
    {
      hide ParseHeader, Lexer.Statements, UniqueIds, Count, HasRow, ApplyInside, ApplyOutside;
      var header := ParseDirectiveHeader(m.up);
      if header.Failure? {
        return Some(BadScript);
      }
      if NO_TRANSACTION in header.value.directives {
        err := ApplyWithoutTransaction(m, header.value.body, f);
      } else {
        err := ApplyInTransaction(m, f);
      }
    }

    /** The rest of ApplyMigration, between BeginTx and Commit. */
    method ApplyInTransaction(m: Migration, f: Fate) returns (err: Option<Error>)
      requires Valid() && CanOpen()
      modifies this
      ensures Valid() && Balanced()
      ensures Outcome(View(), err) == ApplyInside(old(View()), m, f)
      ensures Scripted() <= old(Scripted()) + if View() != old(View()) then 1 else 0
      ensures old(Scripted()) == 0 && View() != old(View()) ==> Scripted() == 1
    {
      hide UniqueIds, Count, HasRow;
      NoneScripted(idle);
      if !f.open {
        return Some(DatabaseError);
      }
      Checkout(); // BEGIN; what follows is visible to nobody else before COMMIT
      var txRows, txSchema := rows, schema;
      if f.script.Broke? {
        Return();
        return Some(ScriptFailed);
      }
      txSchema := txSchema[m.id := Applied];
      if f.write.WriteError? || HasRow(txRows, m.id) {
        Return();
        return Some(DatabaseError);
      }
      UniqueAppend(txRows, NewRow(m, false));
      txRows := txRows + [NewRow(m, false)];
      if f.commit.WriteError? && !f.commit.landed {
        Return();
        return Some(DatabaseError);
      }
      rows, schema := txRows, txSchema;
      Mark(); // SET and temporary tables outlive the transaction
      Return();
      return if f.commit.WriteError? then Some(DatabaseError) else None;
    }

    /**
     Runs a script on a connection of its own, which is given up before anything is recorded, and whose session
     ends with whatever the script has set there.
     */
    method OnPinnedConn(id: string, success: Status, f: Fate) returns (connected: bool, failed: bool)
      requires Valid() && CanOpen()
      modifies this
      ensures Valid() && Balanced() && connected == f.open && rows == old(rows)
      ensures Scripted() <= old(Scripted())
      ensures failed == (connected && f.script.Broke?)
      ensures schema == if !connected then old(schema)
                        else old(schema)[id := if failed then f.script.left else success]
    {
      if !f.open {
        return false, false;
      }
      Checkout();
      Mark();
      failed := f.script.Broke?;
      schema := schema[id := if failed then f.script.left else success];
      ReleaseConn();
      connected := true;
    }

    method ApplyWithoutTransaction(m: Migration, upSQL: string, f: Fate) returns (err: Option<Error>)
      requires Valid() && CanOpen()
      modifies this
      ensures Valid() && Balanced()
      ensures Outcome(View(), err) == ApplyOutside(old(View()), m, upSQL, f)
      ensures Scripted() <= old(Scripted())
    {
      hide Lexer.Statements;
      var statements := SplitSQLStatements(upSQL);
      if statements.Failure? {
        return Some(BadScript);
      }
      var connected, failed := OnPinnedConn(m.id, Applied, f);
      if !connected {
        return Some(DatabaseError);
      }
      Query(); // INSERT, through the pool
      if HasRow(rows, m.id) {
        return Some(Unrecorded);
      }
      if f.write == WriteError(false) {
        return Some(Unrecorded);
      }
      UniqueAppend(rows, NewRow(m, failed));
      rows := rows + [NewRow(m, failed)];
      if f.write.WriteError? {
        return Some(Unrecorded);
      }
      return if failed then Some(ScriptFailed) else None;
    }

    method RollbackMigration(id: string, f: Fate) returns (err: Option<Error>)
      requires Valid() && CanOpen()
      modifies this
      ensures Valid() && Balanced()
      ensures Outcome(View(), err) == RollbackOne(old(View()), id, f)
      ensures Scripted() <= old(Scripted()) + if RollbackCommits(old(View()), id, f) then 1 else 0
      ensures old(Scripted()) == 0 && RollbackCommits(old(View()), id, f) ==> Scripted() == 1
    {
      hide ParseHeader, Lexer.Statements, UniqueIds, WithoutRow, RollbackInside, RollbackOutside, Count, HasRow;
      Query(); // SELECT down_script
      if !f.read {
        return Some(DatabaseError);
      }
      var row := RowOf(rows, id);
      if row.None? {
        return Some(NotRecorded);
      }
      var header := ParseDirectiveHeader(row.value.down);
      if header.Failure? {
        return Some(BadScript);
      }
      if NO_TRANSACTION in header.value.directives {
        err := RollbackWithoutTransaction(id, header.value.body, f);
      } else {
        err := RollbackInTransaction(id, f);
      }
    }

    /** The rest of RollbackMigration, between BeginTx and Commit. */
    method RollbackInTransaction(id: string, f: Fate) returns (err: Option<Error>)
      requires Valid() && CanOpen() && HasRow(rows, id)
      modifies this
      ensures Valid() && Balanced()
      ensures Outcome(View(), err) == RollbackInside(old(View()), id, f)
      ensures Scripted() <= old(Scripted()) + if View() != old(View()) then 1 else 0
      ensures old(Scripted()) == 0 && View() != old(View()) ==> Scripted() == 1
    {
      hide UniqueIds, WithoutRow, Count, HasRow;
      NoneScripted(idle);
      if !f.open {
        return Some(DatabaseError);
      }
      Checkout(); // BEGIN
      if f.script.Broke? {
        Return();
        return Some(ScriptFailed);
      }
      var txSchema := schema[id := Absent];
      if f.write.WriteError? {
        Return();
        return Some(DatabaseError);
      }
      var txRows := WithoutRow(rows, id);
      WithoutRowUnique(rows, id);
      RollbackChanges(rows, id);
      if f.commit.WriteError? && !f.commit.landed {
        Return();
        return Some(DatabaseError);
      }
      rows, schema := txRows, txSchema;
      Mark(); // SET and temporary tables outlive the transaction
      Return();
      return if f.commit.WriteError? then Some(DatabaseError) else None;
    }

    method RollbackWithoutTransaction(id: string, downSQL: string, f: Fate) returns (err: Option<Error>)
      requires Valid() && CanOpen()
      modifies this
      ensures Valid() && Balanced()
      ensures Outcome(View(), err) == RollbackOutside(old(View()), id, downSQL, f)
      ensures Scripted() <= old(Scripted())
    {
      hide Lexer.Statements;
      var statements := SplitSQLStatements(downSQL);
      if statements.Failure? {
        return Some(BadScript);
      }
      var connected, failed := OnPinnedConn(id, Absent, f);
      if !connected {
        return Some(DatabaseError);
      }
      Query(); // the bookkeeping statement, through the pool
      if failed {
        WithFailedIds(rows, id);
        err := MarkFailed(id, f);
        return if err.Some? then err else Some(ScriptFailed);
      }
      WithoutRowUnique(rows, id);
      if f.write != WriteError(false) {
        rows := WithoutRow(rows, id);
      }
      return if f.write.WriteError? then Some(Unrecorded) else None;
    }

    method MarkFailed(id: string, f: Fate) returns (err: Option<Error>)
      modifies this`rows
      ensures rows == if f.write == WriteError(false) then old(rows) else WithFailed(old(rows), id)
      ensures err == if f.write.WriteError? then Some(Unrecorded) else None
      ensures RowIds(rows) == RowIds(old(rows))
      ensures err.None? && HasRow(old(rows), id) && FailedIds(old(rows)) == [] && UniqueIds(old(rows)) ==>
                FailedIds(rows) == [id]
    {
      WithFailedIds(rows, id);
      if FailedIds(rows) == [] && UniqueIds(rows) {
        MarkedFailure(rows, id);
      }
      if f.write != WriteError(false) {
        rows := WithFailed(rows, id);
      }
      return if f.write.WriteError? then Some(Unrecorded) else None;
    }

    // -------------------------------------------------------------------------------------------

    method RecordApplied(ms: seq<Migration>, f: Fate) returns (err: Option<Error>)
      requires Valid() && CanOpen()
      modifies this
      ensures Valid() && Balanced()
      ensures Outcome(View(), err) == Calls.RecordApplied(old(View()), ms, f)
      ensures Scripted() == old(Scripted())
    {
      if ms == [] {
        return None;
      }
      if !f.open {
        return Some(DatabaseError);
      }
      Checkout();
      if f.write.WriteError? {
        Return();
        return Some(DatabaseError);
      }
      var inserted := InsertEach(rows, ms);
      if inserted.None? {
        Return();
        return Some(DatabaseError);
      }
      if f.commit.WriteError? && !f.commit.landed {
        Return();
        return Some(DatabaseError);
      }
      rows := inserted.value;
      Return();
      return if f.commit.WriteError? then Some(DatabaseError) else None;
    }

    method DeleteRecord(id: string, f: Fate) returns (found: bool, err: Option<Error>)
      requires Valid() && CanOpen()
      modifies this
      ensures Valid() && Balanced() && schema == old(schema) && Scripted() == old(Scripted())
      ensures rows == if f.write == WriteError(false) then old(rows) else WithoutRow(old(rows), id)
      ensures err == if f.write.WriteError? then Some(DatabaseError) else None
      ensures err.None? ==> found == HasRow(old(rows), id)
    {
      Query();
      found := HasRow(rows, id);
      WithoutRowUnique(rows, id);
      if f.write != WriteError(false) {
        rows := WithoutRow(rows, id);
      }
      err := if f.write.WriteError? then Some(DatabaseError) else None;
    }

    method EnsureReversible(ids: seq<string>, selects: seq<bool>) returns (err: Option<Error>)
      requires Valid() && CanOpen()
      modifies this`out, this`idle, this`peak
      ensures Valid() && Balanced() && Scripted() == old(Scripted())
      ensures err == Calls.EnsureReversible(rows, ids, selects)
    {
      hide ParseHeader, RowOf, Prepend;
      var irreversible: seq<string> := [];
      ghost var verdict := IrreversibleIds(rows, ids, selects);
      assert ids[0..] == ids && DropSelects(selects, 0) == selects;
      PrependNothing(verdict);
      for i := 0 to |ids|
        invariant Valid() && Balanced() && Scripted() == old(Scripted())
        invariant verdict == Prepend(irreversible, IrreversibleIds(rows, ids[i..], DropSelects(selects, i)))
      {
        assert ids[i..][1..] == ids[i + 1..];
        ghost var rest := DropSelects(selects, i);
        assert (if rest == [] then [] else rest[1..]) == DropSelects(selects, i + 1);
        Query(); // SELECT down_script
        PrependFailure(irreversible, DatabaseError);
        PrependFailure(irreversible, BadScript);
        if i < |selects| && !selects[i] {
          return Some(DatabaseError);
        }
        var row := RowOf(rows, ids[i]);
        if row.None? {
          continue;
        }
        var header := ParseDirectiveHeader(row.value.down);
        if header.Failure? {
          return Some(BadScript);
        }
        if IRREVERSIBLE in header.value.directives {
          PrependMore(irreversible, ids[i], IrreversibleIds(rows, ids[i + 1..], DropSelects(selects, i + 1)));
          irreversible := irreversible + [ids[i]];
        }
      }
      assert ids[|ids|..] == [];
      PrependToNothing(irreversible);
      return if irreversible == [] then None else Some(Irreversible(irreversible));
    }

    method ExecutePlan(plan: Plan, files: seq<Migration>, selects: seq<bool>, fates: seq<Fate>)
      returns (rolledBack: seq<string>, applied: seq<Migration>, err: Option<Error>)
      requires Valid() && CanOpen()
      modifies this
      ensures Valid() && Balanced()
      ensures Report(View(), rolledBack, applied, err)
              == Executed(plan, Calls.ExecutePlan(old(View()), plan, files, selects, fates))
      ensures Scripted() <= old(Scripted()) + PlanCommits(old(View()), plan, files, selects, fates)
    {
      hide RollbackOne, ApplyOne, Calls.EnsureReversible, RollbackAll, ApplyAll;
      rolledBack, applied, err := [], [], None;
      if plan.toRollback == [] && plan.toApply == [] {
        return;
      }
      err := EnsureReversible(plan.toRollback, selects);
      if err.Some? {
        return;
      }
      var n: nat, k: nat;
      n, err := RollbackEach(plan.toRollback, fates);
      rolledBack := Take(plan.toRollback, n);
      if err.Some? {
        return;
      }
      k, err := ApplyEach(plan.toApply, files, DropFates(fates, |plan.toRollback|));
      applied := Take(plan.toApply, k);
    }

    /** The rollback loop, here and in Rollback. */
    method RollbackEach(ids: seq<string>, fates: seq<Fate>) returns (done: nat, err: Option<Error>)
      requires Valid() && CanOpen()
      modifies this
      ensures Valid() && Balanced()
      ensures Batch(View(), done, err) == RollbackAll(old(View()), ids, fates)
      ensures Scripted() <= old(Scripted()) + RollbacksCommitted(old(View()), ids, fates)
    {
      hide RollbackOne, RollbackCommits;
      ghost var all := RollbackAll(View(), ids, fates);
      assert ids[0..] == ids && DropFates(fates, 0) == fates;
      done := 0;
      while done < |ids|
        invariant done <= |ids| && Valid() && Balanced()
        invariant all == Advanced(done, RollbackAll(View(), ids[done..], DropFates(fates, done)))
        invariant Scripted() + RollbacksCommitted(View(), ids[done..], DropFates(fates, done))
                  <= old(Scripted()) + RollbacksCommitted(old(View()), ids, fates)
      {
        FatesStep(fates, done);
        assert ids[done..][1..] == ids[done + 1..];
        err := RollbackMigration(ids[done], FateAt(fates, done));
        if err.Some? {
          return;
        }
        done := done + 1;
      }
      err := None;
    }

    method ApplyEach(ms: seq<Migration>, files: seq<Migration>, fates: seq<Fate>)
      returns (done: nat, err: Option<Error>)
      requires Valid() && CanOpen()
      modifies this
      ensures Valid() && Balanced()
      ensures Batch(View(), done, err) == ApplyAll(old(View()), ms, files, fates)
      ensures Scripted() <= old(Scripted()) + AppliesCommitted(old(View()), ms, files, fates)
    {
      hide ApplyOne, Lookup, ApplyCommits;
      ghost var all := ApplyAll(View(), ms, files, fates);
      assert ms[0..] == ms && DropFates(fates, 0) == fates;
      done := 0;
      while done < |ms|
        invariant done <= |ms| && Valid() && Balanced()
        invariant all == Advanced(done, ApplyAll(View(), ms[done..], files, DropFates(fates, done)))
        invariant Scripted() + AppliesCommitted(View(), ms[done..], files, DropFates(fates, done))
                  <= old(Scripted()) + AppliesCommitted(old(View()), ms, files, fates)
      {
        FatesStep(fates, done);
        assert ms[done..][1..] == ms[done + 1..];
        var full := Lookup(files, ms[done].id);
        if full.None? {
          return done, Some(NotInFiles);
        }
        err := ApplyMigration(full.value, FateAt(fates, done));
        if err.Some? {
          return;
        }
        done := done + 1;
      }
      err := None;
    }
  }
}

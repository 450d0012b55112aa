/** What the pre-flight check of a rollback finds, and the errors that only guards return. */
module Guards {
  import opened Text
  import opened Directives
  import opened Ids
  import opened Ledger
  import opened Calls
  import Lexer

  /** The errors with which a call declines to start, rather than fails. */
  predicate IsRefusal(e: Option<Error>) {
    match e
    case Some(Irreversible(_)) => true
    case Some(FailedMigrations(_)) => true
    case Some(Divergence(_)) => true
    case Some(Interleaved(_)) => true
    case Some(EmptySource(_)) => true
    case _ => false
  }

  /** The pre-flight check found every rollback candidate reversible. */
  ghost predicate Reversible(rows: seq<Row>, ids: seq<string>) {
    forall r :: r in rows && r.id in ids ==> !IsIrreversible(r.down)
  }

  lemma OnlyRow(rows: seq<Row>, r: Row)
    requires UniqueIds(rows) && r in rows
    ensures RowOf(rows, r.id) == Some(r)
  {
    var i :| 0 <= i < |rows| && rows[i] == r;
    assert HasRow(rows, r.id);
    var q := RowOf(rows, r.id).value;
    var j :| 0 <= j < |rows| && rows[j] == q;
  }

  /** The pre-flight check, when it gets its answers, names exactly the irreversible candidates. */
  lemma {:induction false} IrreversibleIdsExact(rows: seq<Row>, ids: seq<string>, selects: seq<bool>)
    requires UniqueIds(rows) && IrreversibleIds(rows, ids, selects).Success?
    ensures forall x :: x in IrreversibleIds(rows, ids, selects).value
                        <==> x in ids && exists r :: r in rows && r.id == x && IsIrreversible(r.down)
    decreases |ids|
  {
    hide ParseHeader, UniqueIds, RowOf;
    if ids != [] {
      RowOfExact(rows, ids[0]);
      IrreversibleIdsExact(rows, ids[1..], if selects == [] then [] else selects[1..]);
      assert ids == [ids[0]] + ids[1..];
      forall r | r in rows && r.id == ids[0]
        ensures RowOf(rows, ids[0]) == Some(r)
      {
        OnlyRow(rows, r);
      }
    }
  }

  lemma ReversibleSame(rows: seq<Row>, a: seq<string>, b: seq<string>)
    requires Reversible(rows, a) && forall x :: x in b ==> x in a
    ensures Reversible(rows, b)
  {
  }

  lemma PassedIsReversible(rows: seq<Row>, ids: seq<string>, selects: seq<bool>)
    requires UniqueIds(rows) && EnsureReversible(rows, ids, selects).None?
    ensures Reversible(rows, ids)
  {
    hide IrreversibleIds, IsIrreversible, UniqueIds;
    IrreversibleIdsExact(rows, ids, selects);
  }

  lemma NothingIrreversible(rows: seq<Row>)
    ensures Reversible(rows, [])
  {
  }

  lemma NoReversals(rows: seq<Row>, selects: seq<bool>)
    ensures EnsureReversible(rows, [], selects).None?
  {
  }

  lemma SomeOf(ids: seq<string>) returns (x: string)
    requires ids != []
    ensures x in ids
  {
    x := ids[0];
  }

  lemma {:induction false} CheckErrors(rows: seq<Row>, ids: seq<string>, selects: seq<bool>)
    ensures IrreversibleIds(rows, ids, selects).Failure? ==>
              IrreversibleIds(rows, ids, selects).error in {DatabaseError, BadScript}
    decreases |ids|
  {
    hide ParseHeader;
    if ids != [] {
      CheckErrors(rows, ids[1..], if selects == [] then [] else selects[1..]);
    }
  }

  /** Where every candidate is reversible, the check may fail to get its answers, but does not refuse. */
  lemma ReversibleIsNotRefused(rows: seq<Row>, ids: seq<string>, selects: seq<bool>)
    requires UniqueIds(rows) && Reversible(rows, ids)
    ensures !IsRefusal(EnsureReversible(rows, ids, selects))
  {
    hide UniqueIds;
    CheckErrors(rows, ids, selects);
    if IrreversibleIds(rows, ids, selects).Success? {
      IrreversibleIdsExact(rows, ids, selects);
      var bad := IrreversibleIds(rows, ids, selects).value;
      if bad != [] {
        var _ := SomeOf(bad);
      }
    }
  }

  // ---------------------------------------------------------------------------------------------

  lemma OneNeverRefuses(w: World, id: string, m: Migration, f: Fate)
    ensures !IsRefusal(RollbackOne(w, id, f).error) && !IsRefusal(ApplyOne(w, m, f).error)
  {
    hide ParseHeader, Lexer.Statements;
  }

  lemma NoRefusal()
    ensures !IsRefusal(None) && !IsRefusal(Some(NotInFiles))
  {
  }

  lemma {:induction false} RollbacksNeverRefuse(w: World, ids: seq<string>, fates: seq<Fate>)
    ensures !IsRefusal(RollbackAll(w, ids, fates).error)
    decreases |ids|
  {
    hide RollbackOne, IsRefusal;
    NoRefusal();
    if ids != [] {
      OneNeverRefuses(w, ids[0], Migration("", "", ""), HeadFate(fates));
      RollbacksNeverRefuse(RollbackOne(w, ids[0], HeadFate(fates)).world, ids[1..], TailFates(fates));
    }
  }

  lemma {:induction false} AppliesNeverRefuse(w: World, ms: seq<Migration>, files: seq<Migration>, fates: seq<Fate>)
    ensures !IsRefusal(ApplyAll(w, ms, files, fates).error)
    decreases |ms|
  {
    hide ApplyOne, IsRefusal;
    NoRefusal();
    if ms != [] && Lookup(files, ms[0].id).Some? {
      var m := Lookup(files, ms[0].id).value;
      OneNeverRefuses(w, "", m, HeadFate(fates));
      AppliesNeverRefuse(ApplyOne(w, m, HeadFate(fates)).world, ms[1..], files, TailFates(fates));
    }
  }
}

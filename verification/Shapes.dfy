/** The ledgers a call can leave behind, whatever the fates. */
module Shapes {
  import opened Text
  import opened Ids
  import opened Ledger
  import opened Planner
  import opened Calls

  // ---------------------------------------------------------------------------------------------
  // Rows without a set of identifiers

  function Without(rows: seq<Row>, s: set<string>): seq<Row> {
    if rows == [] then [] else (if rows[0].id in s then [] else [rows[0]]) + Without(rows[1..], s)
  }

  lemma {:induction false} WithoutNone(rows: seq<Row>)
    ensures Without(rows, {}) == rows
  {
    if rows != [] {
      WithoutNone(rows[1..]);
    }
  }

  lemma {:induction false} WithoutOneMore(rows: seq<Row>, s: set<string>, id: string)
    ensures WithoutRow(Without(rows, s), id) == Without(rows, s + {id})
    ensures Without(WithoutRow(rows, id), s) == Without(rows, s + {id})
  {
    if rows != [] {
      WithoutOneMore(rows[1..], s, id);
      var t := Without(rows[1..], s);
      assert [] + t == t && ([rows[0]] + t)[1..] == t;
      assert Without(rows, s) == if rows[0].id in s then t else [rows[0]] + t;
      var u := WithoutRow(rows[1..], id);
      if rows[0].id != id {
        assert ([rows[0]] + u)[1..] == u;
      }
    }
  }

  lemma {:induction false} WithoutMembers(rows: seq<Row>, s: set<string>)
    ensures forall r :: r in Without(rows, s) <==> r in rows && r.id !in s
  {
    if rows != [] {
      WithoutMembers(rows[1..], s);
      assert rows == [rows[0]] + rows[1..];
    }
  }

  lemma {:induction false} WithoutIds(rows: seq<Row>, s: set<string>)
    ensures RowIds(Without(rows, s)) == Drop(RowIds(rows), s)
  {
    if rows != [] {
      WithoutIds(rows[1..], s);
      assert RowIds(rows)[1..] == RowIds(rows[1..]);
      var t := Without(rows[1..], s);
      assert RowIds([rows[0]] + t) == [rows[0].id] + RowIds(t);
    }
  }

  lemma {:induction false} WithoutUnique(rows: seq<Row>, s: set<string>)
    requires UniqueIds(rows)
    ensures UniqueIds(Without(rows, s))
  {
    if rows != [] {
      assert forall i :: 0 <= i < |rows| - 1 ==> rows[1..][i] == rows[i + 1];
      WithoutUnique(rows[1..], s);
      WithoutMembers(rows[1..], s);
      var t := Without(rows[1..], s);
      forall i | 0 <= i < |t|
        ensures t[i].id != rows[0].id
      {
        assert t[i] in rows[1..];
      }
    }
  }

  // ---------------------------------------------------------------------------------------------
  // Batches

  ghost predicate AllHonest(fates: seq<Fate>) {
    forall i :: 0 <= i < |fates| ==> IsHonest(fates[i])
  }

  lemma HonestParts(fates: seq<Fate>, n: nat)
    requires AllHonest(fates)
    ensures IsHonest(HeadFate(fates)) && AllHonest(TailFates(fates)) && AllHonest(DropFates(fates, n))
  {
  }

  /** After rolling back k of ids; with `marked`, the next one's row carries an error. */
  ghost predicate RolledBackTo(rows: seq<Row>, ids: seq<string>, after: seq<Row>, k: nat, marked: bool)
    requires k <= |ids|
  {
    var left := Without(rows, IdSet(ids[..k]));
    if marked then k < |ids| && after == WithFailed(left, ids[k]) else after == left
  }

  lemma IdSetHead(ids: seq<string>, k: nat)
    requires 0 < k <= |ids|
    ensures IdSet(ids[..k]) == IdSet(ids[1..][..k - 1]) + {ids[0]}
  {
    assert ids[..k] == [ids[0]] + ids[1..][..k - 1];
  }

  lemma {:induction false} RollbackAllShape(w: World, ids: seq<string>, fates: seq<Fate>) returns (k: nat, marked: bool)
    ensures var b := RollbackAll(w, ids, fates);
            && b.done <= k <= |ids| && k <= b.done + 1
            && RolledBackTo(w.rows, ids, b.world.rows, k, marked)
            && (b.error.None? ==> b.done == k == |ids| && !marked)
            && (b.error.Some? ==> b.done < |ids|)
            && (marked ==> k == b.done)
            && (AllHonest(fates) && b.error != Some(Unrecorded) ==>
                  k == b.done && (marked ==> b.error == Some(ScriptFailed)))
    decreases |ids|
  {
    hide RollbackOne, WithFailed, Without, AllHonest;
    if AllHonest(fates) {
      HonestParts(fates, 0);
    }
    if ids == [] {
      WithoutNone(w.rows);
      assert IdSet(ids[..0]) == {};
      return 0, false;
    }
    var o := RollbackOne(w, ids[0], HeadFate(fates));
    RollbackCases(w, ids[0], HeadFate(fates));
    WithoutNone(w.rows);
    WithoutOneMore(w.rows, {}, ids[0]);
    if o.error.Some? {
      assert ids[..0] == [] && ids[..1] == [ids[0]];
      assert IdSet(ids[..0]) == {} && IdSet(ids[..1]) == {} + {ids[0]};
      if o.world.rows == w.rows {
        return 0, false;
      } else if o.world.rows == WithFailed(w.rows, ids[0]) {
        return 0, true;
      } else {
        return 1, false;
      }
    }
    k, marked := RollbackAllShape(o.world, ids[1..], TailFates(fates));
    k := k + 1;
    IdSetHead(ids, k);
    WithoutOneMore(w.rows, IdSet(ids[1..][..k - 1]), ids[0]);
  }

  lemma RollbacksLeave(w: World, ids: seq<string>, fates: seq<Fate>)
    requires RollbackAll(w, ids, fates).error.None?
    ensures RollbackAll(w, ids, fates).world.rows == Without(w.rows, IdSet(ids))
  {
    hide RollbackAll, Without;
    var k, marked := RollbackAllShape(w, ids, fates);
    assert ids[..k] == ids;
  }

  /** After applying k of ms; with `marked`, the next one has a row that carries an error. */
  ghost predicate AppliedTo(rows: seq<Row>, ms: seq<Migration>, after: seq<Row>, k: nat, marked: bool)
    requires k <= |ms|
  {
    if marked then k < |ms| && after == rows + NewRows(ms[..k]) + [NewRow(ms[k], true)]
    else after == rows + NewRows(ms[..k])
  }

  /** Distinct identifiers, none of them in the ledger. */
  ghost predicate Fresh(rows: seq<Row>, ms: seq<Migration>) {
    && (forall i :: 0 <= i < |ms| ==> !HasRow(rows, ms[i].id))
    && (forall i, j :: 0 <= i < j < |ms| ==> ms[i].id != ms[j].id)
  }

  ghost predicate AllIn(ms: seq<Migration>, files: seq<Migration>) {
    forall i :: 0 <= i < |ms| ==> Lookup(files, ms[i].id) == Some(ms[i])
  }

  lemma NewRowsHead(ms: seq<Migration>, k: nat, rows: seq<Row>)
    requires 0 < k <= |ms|
    ensures rows + NewRows(ms[..k]) == rows + [NewRow(ms[0], false)] + NewRows(ms[1..][..k - 1])
  {
    assert ms[..k] == [ms[0]] + ms[1..][..k - 1];
    assert NewRows(ms[..k]) == [NewRow(ms[0], false)] + NewRows(ms[1..][..k - 1]);
  }

  lemma FreshTail(rows: seq<Row>, ms: seq<Migration>)
    requires ms != [] && Fresh(rows, ms)
    ensures Fresh(rows + [NewRow(ms[0], false)], ms[1..])
  {
    var rows' := rows + [NewRow(ms[0], false)];
    forall i | 0 <= i < |ms| - 1
      ensures !HasRow(rows', ms[1..][i].id)
    {
      assert ms[1..][i] == ms[i + 1] && !HasRow(rows, ms[i + 1].id);
      assert forall j :: 0 <= j < |rows| ==> rows'[j] == rows[j];
    }
  }

  lemma {:induction false} ApplyAllShape(w: World, ms: seq<Migration>, files: seq<Migration>, fates: seq<Fate>)
    returns (k: nat, marked: bool)
    requires Fresh(w.rows, ms) && AllIn(ms, files)
    ensures var b := ApplyAll(w, ms, files, fates);
            && b.done <= k <= |ms| && k <= b.done + 1
            && AppliedTo(w.rows, ms, b.world.rows, k, marked)
            && (b.error.None? ==> b.done == k == |ms| && !marked)
            && (b.error.Some? ==> b.done < |ms|)
            && (marked ==> k == b.done)
            && (AllHonest(fates) && b.error != Some(Unrecorded) ==>
                  k == b.done && (marked ==> b.error == Some(ScriptFailed)))
    decreases |ms|
  {
    hide ApplyOne, Lookup, AllHonest;
    if AllHonest(fates) {
      HonestParts(fates, 0);
    }
    if ms == [] {
      assert w.rows + NewRows(ms[..0]) == w.rows;
      return 0, false;
    }
    var m := ms[0];
    var o := ApplyOne(w, m, HeadFate(fates));
    ApplyCases(w, m, HeadFate(fates));
    if o.error.Some? {
      assert w.rows + NewRows(ms[..0]) == w.rows;
      assert w.rows + NewRows(ms[..1]) == w.rows + [NewRow(m, false)];
      if o.world.rows == w.rows {
        return 0, false;
      } else if o.world.rows == w.rows + [NewRow(m, true)] {
        return 0, true;
      } else {
        return 1, false;
      }
    }
    FreshTail(w.rows, ms);
    assert forall i :: 0 <= i < |ms| - 1 ==> ms[1..][i] == ms[i + 1];
    k, marked := ApplyAllShape(o.world, ms[1..], files, TailFates(fates));
    k := k + 1;
    NewRowsHead(ms, k, w.rows);
  }
}

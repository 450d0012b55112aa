/** What Reconcile does to the ledger: its result, its prefixes on failure, and resuming after one. */
module Reconciliation {
  import opened Text
  import opened Directives
  import opened Ids
  import opened Ledger
  import opened Planner
  import opened Calls
  import opened Guards
  import opened Shapes

  // ---------------------------------------------------------------------------------------------
  // Filtering identifiers

  lemma {:induction false} DropAsKeep(ids: seq<string>, s: set<string>, f: set<string>)
    requires forall x :: x in ids ==> (x in s <==> x !in f)
    ensures Drop(ids, s) == Keep(ids, f)
  {
    if ids != [] {
      assert ids == [ids[0]] + ids[1..];
      DropAsKeep(ids[1..], s, f);
    }
  }

  lemma {:induction false} KeepAfterDrop(ids: seq<string>, s: set<string>, f: set<string>)
    requires s !! f
    ensures Keep(Drop(ids, s), f) == Keep(ids, f)
  {
    if ids != [] {
      KeepAfterDrop(ids[1..], s, f);
      var t := Drop(ids[1..], s);
      assert [] + t == t && ([ids[0]] + t)[1..] == t;
    }
  }

  lemma {:induction false} KeepAll(ids: seq<string>, f: set<string>)
    requires forall x :: x in ids ==> x in f
    ensures Keep(ids, f) == ids && Drop(ids, f) == []
  {
    if ids != [] {
      assert ids == [ids[0]] + ids[1..];
      KeepAll(ids[1..], f);
    }
  }

  lemma {:induction false} KeepConcat(a: seq<string>, b: seq<string>, f: set<string>)
    ensures Keep(a + b, f) == Keep(a, f) + Keep(b, f)
  {
    if a == [] {
      assert a + b == b;
    } else {
      assert (a + b)[1..] == a[1..] + b;
      KeepConcat(a[1..], b, f);
    }
  }

  lemma {:induction false} MissingSame(files: seq<Migration>, s: set<string>, t: set<string>)
    requires forall m :: m in files ==> (m.id in s <==> m.id in t)
    ensures Missing(files, s) == Missing(files, t)
  {
    if files != [] {
      assert files == [files[0]] + files[1..];
      MissingSame(files[1..], s, t);
    }
  }

  lemma FilesTail(files: seq<Migration>)
    requires files != [] && FilesOk(files)
    ensures FilesOk(files[1..]) && forall m :: m in files[1..] ==> Less(files[0].id, m.id) && m.id != files[0].id
  {
    var ids := MigrationIds(files);
    assert forall i :: 0 <= i < |files| - 1 ==> files[1..][i] == files[i + 1];
    forall m | m in files[1..]
      ensures Less(files[0].id, m.id) && m.id != files[0].id
    {
      var i :| 0 <= i < |files| - 1 && files[1..][i] == m;
      assert Less(ids[0], ids[i + 1]);
      LessAsymmetric(ids[0], ids[i + 1]);
    }
    assert MigrationIds(files[1..]) == ids[1..] && Ascending(ids[1..]);
  }

  lemma NoIds()
    ensures MigrationIds([]) == [] && IdSet(MigrationIds([])) == {}
  {
  }

  lemma IdsCons(m: Migration, ms: seq<Migration>)
    ensures IdSet(MigrationIds([m] + ms)) == {m.id} + IdSet(MigrationIds(ms))
  {
    assert MigrationIds([m] + ms) == [m.id] + MigrationIds(ms);
  }

  lemma IdsAppend(a: seq<Migration>, b: seq<Migration>)
    ensures MigrationIds(a + b) == MigrationIds(a) + MigrationIds(b)
  {
  }

  /** What is left to apply once the first k have been. */
  lemma {:induction false} MissingSuffix(files: seq<Migration>, s: set<string>, k: nat)
    requires FilesOk(files) && k <= |Missing(files, s)|
    ensures Missing(files, s + IdSet(MigrationIds(Missing(files, s)[..k]))) == Missing(files, s)[k..]
  {
    hide FilesOk, Less, IdSet, MigrationIds;
    var ms := Missing(files, s);
    var t := s + IdSet(MigrationIds(ms[..k]));
    if k == 0 {
      NoIds();
      assert ms[..0] == [] && t == s;
    } else {
      FilesTail(files);
      var m, rest := files[0], files[1..];
      if m.id in s {
        MissingSuffix(rest, s, k);
        assert ms == Missing(rest, s);
        assert Missing(files, t) == Missing(rest, t);
      } else {
        var u := s + IdSet(MigrationIds(Missing(rest, s)[..k - 1]));
        MissingSuffix(rest, s, k - 1);
        assert ms[1..] == Missing(rest, s) && ms[k..] == ms[1..][k - 1..];
        IdsCons(m, ms[1..][..k - 1]);
        assert ms[..k] == [m] + ms[1..][..k - 1];
        assert t == u + {m.id};
        MissingSame(rest, t, u);
        assert Missing(files, t) == Missing(rest, t);
      }
    }
  }

  lemma FilesCons(m: Migration, ms: seq<Migration>)
    requires FilesOk(ms) && m.id != ""
    requires forall x :: x in ms ==> Less(m.id, x.id)
    ensures FilesOk([m] + ms)
  {
    hide Less;
    var all := [m] + ms;
    var ids := MigrationIds(all);
    forall i, j | 0 <= i < j < |ids|
      ensures Less(ids[i], ids[j])
    {
      assert all[j] == ms[j - 1] && ms[j - 1] in ms;
      assert i > 0 ==> ids[i] == MigrationIds(ms)[i - 1];
      assert ids[j] == MigrationIds(ms)[j - 1];
    }
  }

  lemma NoFilesOk()
    ensures FilesOk([])
  {
  }

  lemma HeadNamed(files: seq<Migration>)
    requires files != [] && FilesOk(files)
    ensures files[0].id != ""
  {
  }

  lemma {:induction false} MissingAscending(files: seq<Migration>, s: set<string>)
    requires FilesOk(files)
    ensures FilesOk(Missing(files, s))
  {
    hide FilesOk, Less;
    if files == [] {
      assert FilesOk([]) by {
        NoFilesOk();
      }
    } else {
      FilesTail(files);
      MissingAscending(files[1..], s);
      MissingMembers(files[1..], s);
      var t := Missing(files[1..], s);
      assert [] + t == t;
      HeadNamed(files);
      FilesCons(files[0], t);
    }
  }

  lemma FilesInit(files: seq<Migration>)
    requires files != [] && FilesOk(files)
    ensures FilesOk(files[..|files| - 1])
  {
    hide Less;
    var ids := MigrationIds(files);
    assert MigrationIds(files[..|files| - 1]) == ids[..|files| - 1];
  }

  lemma {:induction false} LookupSelf(files: seq<Migration>, m: Migration)
    requires FilesOk(files) && m in files
    ensures Lookup(files, m.id) == Some(m)
  {
    hide Less;
    var n := |files| - 1;
    var ids := MigrationIds(files);
    if files[n] != m {
      var i :| 0 <= i < n && files[i] == m;
      assert Less(ids[i], ids[n]);
      LessAsymmetric(ids[i], ids[n]);
      assert m in files[..n] by {
        assert files[..n][i] == m;
      }
      FilesInit(files);
      LookupSelf(files[..n], m);
    }
  }

  // ---------------------------------------------------------------------------------------------
  // Executing a plan

  lemma MissingFresh(rows: seq<Row>, files: seq<Migration>, s: set<string>)
    requires FilesOk(files)
    ensures var ms := Missing(files, IdSet(RowIds(rows)));
            Fresh(Without(rows, s), ms) && AllIn(ms, files)
  {
    hide Less, Without, Missing;
    var ms := Missing(files, IdSet(RowIds(rows)));
    MissingMembers(files, IdSet(RowIds(rows)));
    MissingAscending(files, IdSet(RowIds(rows)));
    WithoutMembers(rows, s);
    var left := Without(rows, s);
    forall i | 0 <= i < |ms|
      ensures !HasRow(left, ms[i].id) && Lookup(files, ms[i].id) == Some(ms[i])
    {
      assert ms[i] in ms;
      LookupSelf(files, ms[i]);
      HasRowMember(left, ms[i].id);
      forall r | r in rows
        ensures r.id != ms[i].id
      {
        var j :| 0 <= j < |rows| && rows[j] == r;
        assert RowIds(rows)[j] == r.id;
      }
    }
    forall i, j | 0 <= i < j < |ms|
      ensures ms[i].id != ms[j].id
    {
      LessAsymmetric(MigrationIds(ms)[i], MigrationIds(ms)[j]);
    }
  }

  /** How far a plan got: `rolled` and `applied` count what took effect, `marked` a failure on record. */
  datatype End = End(rolled: nat, applied: nat, marked: bool)

  ghost predicate EndsAt(rows: seq<Row>, plan: Plan, after: seq<Row>, e: End) {
    && e.rolled <= |plan.toRollback| && e.applied <= |plan.toApply|
    && if e.rolled < |plan.toRollback| then
         e.applied == 0 && RolledBackTo(rows, plan.toRollback, after, e.rolled, e.marked)
       else
         AppliedTo(Without(rows, IdSet(plan.toRollback)), plan.toApply, after, e.applied, e.marked)
  }

  lemma NoneApplied(rows: seq<Row>, ms: seq<Migration>)
    ensures AppliedTo(rows, ms, rows, 0, false)
  {
    assert rows + NewRows(ms[..0]) == rows;
  }

  lemma NothingDone(rows: seq<Row>, plan: Plan)
    ensures EndsAt(rows, plan, rows, End(0, 0, false))
  {
    WithoutNone(rows);
    NoneApplied(rows, plan.toApply);
    assert IdSet(plan.toRollback[..0]) == {};
    assert plan.toRollback == [] ==> IdSet(plan.toRollback) == {};
  }

  /**
   Rollbacks and applies happen in plan order, no apply before every rollback, and the ledger is the old
   one with a prefix of each taken out and put in, plus at most the one row that records a failure. Unless a
   commit took effect in spite of its error, or the error is ErrUnrecorded, the prefixes are those reported.
   */
  lemma ExecutePlanShape(w: World, plan: Plan, files: seq<Migration>, selects: seq<bool>, fates: seq<Fate>)
    returns (e: End)
    requires Fresh(Without(w.rows, IdSet(plan.toRollback)), plan.toApply) && AllIn(plan.toApply, files)
    ensures var x := ExecutePlan(w, plan, files, selects, fates);
            && EndsAt(w.rows, plan, x.world.rows, e)
            && x.rolledBack <= e.rolled <= x.rolledBack + 1 && x.applied <= e.applied <= x.applied + 1
            && (x.applied > 0 || e.applied > 0 ==> x.rolledBack == |plan.toRollback|)
            && (x.error.None? ==> e == End(x.rolledBack, x.applied, false)
                                  && e.rolled == |plan.toRollback| && e.applied == |plan.toApply|)
            && (x.error.Some? ==> x.rolledBack < |plan.toRollback| || x.applied < |plan.toApply|)
            && (AllHonest(fates) && x.error != Some(Unrecorded) ==>
                  e == End(x.rolledBack, x.applied, e.marked) && (e.marked ==> x.error == Some(ScriptFailed)))
  {
    hide RollbackAll, ApplyAll, EnsureReversible, Fresh, AllIn, AllHonest;
    if AllHonest(fates) {
      HonestParts(fates, |plan.toRollback|);
    }
    assert plan.toRollback[..|plan.toRollback|] == plan.toRollback;
    e := End(0, 0, false);
    if (plan.toRollback == [] && plan.toApply == []) || EnsureReversible(w.rows, plan.toRollback, selects).Some? {
      NothingDone(w.rows, plan);
      return;
    }
    var k, marked := RollbackAllShape(w, plan.toRollback, fates);
    var b := RollbackAll(w, plan.toRollback, fates);
    if b.error.Some? {
      e := End(k, 0, marked);
      if k == |plan.toRollback| {
        NoneApplied(b.world.rows, plan.toApply);
      }
      return;
    }
    var n, m := ApplyAllShape(b.world, plan.toApply, files, DropFates(fates, |plan.toRollback|));
    e := End(k, n, m);
  }

  // ---------------------------------------------------------------------------------------------
  // Identifiers after a Reconcile

  function FileIds(files: seq<Migration>): set<string> {
    IdSet(MigrationIds(files))
  }

  /** Where reconciling leads: what the files keep of the ledger, then what it lacks of the files. */
  function Target(ids: seq<string>, files: seq<Migration>): seq<string> {
    Keep(ids, FileIds(files)) + MigrationIds(Missing(files, IdSet(ids)))
  }

  /** The ledger's identifiers when a Reconcile from ids has got as far as e, without a failure on record. */
  ghost function IdsAt(ids: seq<string>, files: seq<Migration>, e: End): seq<string>
    requires e.rolled <= |PlanFor(files, ids, true).toRollback| && e.applied <= |PlanFor(files, ids, true).toApply|
  {
    var plan := PlanFor(files, ids, true);
    if e.rolled < |plan.toRollback| then Drop(ids, IdSet(plan.toRollback[..e.rolled]))
    else Keep(ids, FileIds(files)) + MigrationIds(plan.toApply[..e.applied])
  }

  lemma NewRowIds(rows: seq<Row>, ms: seq<Migration>)
    ensures RowIds(rows + NewRows(ms)) == RowIds(rows) + MigrationIds(ms)
  {
  }

  lemma RollbackIds(ids: seq<string>, files: seq<Migration>)
    ensures var rb := PlanFor(files, ids, true).toRollback;
            && (forall x :: x in rb <==> x in ids && x !in FileIds(files))
            && Drop(ids, IdSet(rb)) == Keep(ids, FileIds(files))
  {
    KeepMembers(ids, FileIds(files));
    ReverseMembers(Drop(ids, FileIds(files)));
    DropAsKeep(ids, IdSet(PlanFor(files, ids, true).toRollback), FileIds(files));
  }

  lemma EndIds(rows: seq<Row>, files: seq<Migration>, after: seq<Row>, e: End)
    requires EndsAt(rows, PlanFor(files, RowIds(rows), true), after, e) && !e.marked
    ensures RowIds(after) == IdsAt(RowIds(rows), files, e)
  {
    hide Without, Keep, Drop, PlanFor, MigrationIds;
    var plan := PlanFor(files, RowIds(rows), true);
    if e.rolled < |plan.toRollback| {
      WithoutIds(rows, IdSet(plan.toRollback[..e.rolled]));
    } else {
      WithoutIds(rows, IdSet(plan.toRollback));
      RollbackIds(RowIds(rows), files);
      NewRowIds(Without(rows, IdSet(plan.toRollback)), plan.toApply[..e.applied]);
    }
  }

  lemma FileIdsMembers(files: seq<Migration>, x: string)
    ensures x in FileIds(files) <==> exists m :: m in files && m.id == x
  {
    IdsOfFiles(files, x);
  }

  /** Interrupted among its rollbacks, a Reconcile still has the same ledger to reach. */
  lemma RolledPlan(ids: seq<string>, files: seq<Migration>, s: set<string>)
    requires s !! FileIds(files)
    ensures var after := Drop(ids, s);
            && Keep(after, FileIds(files)) == Keep(ids, FileIds(files))
            && Missing(files, IdSet(after)) == Missing(files, IdSet(ids))
  {
    hide Missing, Keep, Drop;
    KeepAfterDrop(ids, s, FileIds(files));
    KeepMembers(ids, s);
    forall m | m in files
      ensures m.id in IdSet(Drop(ids, s)) <==> m.id in IdSet(ids)
    {
      FileIdsMembers(files, m.id);
    }
    MissingSame(files, IdSet(Drop(ids, s)), IdSet(ids));
  }

  /** Interrupted among its applies, it has the rest of them to go. */
  lemma AppliedPlan(ids: seq<string>, files: seq<Migration>, k: nat)
    requires FilesOk(files) && k <= |Missing(files, IdSet(ids))|
    ensures var ms := Missing(files, IdSet(ids));
            var after := Keep(ids, FileIds(files)) + MigrationIds(ms[..k]);
            && Keep(after, FileIds(files)) == after && Drop(after, FileIds(files)) == []
            && Missing(files, IdSet(after)) == ms[k..]
  {
    hide Missing, Keep, Drop, Less;
    var ms := Missing(files, IdSet(ids));
    var kept, added := Keep(ids, FileIds(files)), MigrationIds(ms[..k]);
    KeepMembers(ids, FileIds(files));
    MissingMembers(files, IdSet(ids));
    forall x | x in kept + added
      ensures x in FileIds(files)
    {
      if x in added {
        var i :| 0 <= i < k && added[i] == x;
        assert ms[i] in ms;
        FileIdsMembers(files, x);
      }
    }
    KeepAll(kept + added, FileIds(files));
    forall m | m in files
      ensures m.id in IdSet(kept + added) <==> m.id in IdSet(ids) + IdSet(added)
    {
      FileIdsMembers(files, m.id);
    }
    MissingSame(files, IdSet(kept + added), IdSet(ids) + IdSet(added));
    MissingSuffix(files, IdSet(ids), k);
  }

  /** No part of a rollback list is in the files. */
  lemma PartlyRolled(ids: seq<string>, files: seq<Migration>, k: nat)
    requires k <= |PlanFor(files, ids, true).toRollback|
    ensures IdSet(PlanFor(files, ids, true).toRollback[..k]) !! FileIds(files)
  {
    hide PlanFor, FileIds;
    RollbackIds(ids, files);
    var rb := PlanFor(files, ids, true).toRollback;
    assert forall x :: x in rb[..k] ==> x in rb;
  }

  lemma MissingIsToApply(files: seq<Migration>, ids: seq<string>)
    ensures PlanFor(files, ids, true).toApply == Missing(files, IdSet(ids))
  {
  }

  /** However far a Reconcile got, the ledger it leads to is the same. */
  lemma TargetIsKept(ids: seq<string>, files: seq<Migration>, e: End)
    requires FilesOk(files)
    requires e.rolled <= |PlanFor(files, ids, true).toRollback| && e.applied <= |PlanFor(files, ids, true).toApply|
    ensures Target(IdsAt(ids, files, e), files) == Target(ids, files)
  {
    hide Missing, Keep, Drop, FilesOk, PlanFor, FileIds, IdSet, MigrationIds;
    var plan := PlanFor(files, ids, true);
    MissingIsToApply(files, ids);
    if e.rolled < |plan.toRollback| {
      PartlyRolled(ids, files, e.rolled);
      RolledPlan(ids, files, IdSet(plan.toRollback[..e.rolled]));
    } else {
      AppliedPlan(ids, files, e.applied);
      var ms, k := plan.toApply, e.applied;
      IdsAppend(ms[..k], ms[k..]);
      assert ms == ms[..k] + ms[k..];
    }
  }

  lemma StillInterleaved(ids: seq<string>, files: seq<Migration>, k: nat, m: Migration)
    requires FilesOk(files) && k <= |Missing(files, IdSet(ids))|
    requires var after := Keep(ids, FileIds(files)) + MigrationIds(Missing(files, IdSet(ids))[..k]);
             m in PlanFor(files, after, true).interleaved
    ensures m in PlanFor(files, ids, true).interleaved
  {
    hide Missing, Keep, Drop, Less, Below, MaxId;
    var ms := Missing(files, IdSet(ids));
    var after := Keep(ids, FileIds(files)) + MigrationIds(ms[..k]);
    AppliedPlan(ids, files, k);
    MissingAscending(files, IdSet(ids));
    InterleavedExactly(files, after, true, m);
    InterleavedExactly(files, ids, true, m);
    var x :| x in after && Less(m.id, x);
    if x in MigrationIds(ms[..k]) {
      var i :| 0 <= i < k && ms[i].id == x;
      var j :| 0 <= j < |ms[k..]| && ms[k..][j] == m;
      assert ms[k + j] == m;
      assert Less(MigrationIds(ms)[i], MigrationIds(ms)[k + j]);
      LessAsymmetric(x, m.id);
      assert false;
    }
  }

  /** However far it got, running it again is not newly refused. */
  lemma NotNewlyBlocked(ids: seq<string>, files: seq<Migration>, opts: Options, e: End)
    requires FilesOk(files) && BlockedBy(PlanFor(files, ids, true), files, opts) == None
    requires e.rolled <= |PlanFor(files, ids, true).toRollback| && e.applied <= |PlanFor(files, ids, true).toApply|
    ensures BlockedBy(PlanFor(files, IdsAt(ids, files, e), true), files, opts) == None
  {
    hide Missing, Keep, Drop, Less, Below, MaxId, Reverse;
    var plan, after := PlanFor(files, ids, true), IdsAt(ids, files, e);
    var again := PlanFor(files, after, true);
    RollbackIds(ids, files);
    RollbackIds(after, files);
    if e.rolled < |plan.toRollback| {
      PartlyRolled(ids, files, e.rolled);
      RolledPlan(ids, files, IdSet(plan.toRollback[..e.rolled]));
      assert again.interleaved == plan.interleaved;
    } else {
      AppliedPlan(ids, files, e.applied);
      ReverseNone();
      if again.interleaved != [] {
        StillInterleaved(ids, files, e.applied, again.interleaved[0]);
      }
    }
  }

  // ---------------------------------------------------------------------------------------------
  // Failure rows

  lemma {:induction false} FailedIdsAppend(a: seq<Row>, b: seq<Row>)
    ensures FailedIds(a + b) == FailedIds(a) + FailedIds(b)
  {
    if a == [] {
      assert a + b == b;
    } else {
      assert (a + b)[1..] == a[1..] + b;
      FailedIdsAppend(a[1..], b);
    }
  }

  lemma {:induction false} NoneFailed(rows: seq<Row>)
    ensures FailedIds(rows) == [] <==> forall r :: r in rows ==> !r.failed
  {
    if rows != [] {
      NoneFailed(rows[1..]);
      assert rows == [rows[0]] + rows[1..];
    }
  }

  lemma NewRowsClean(ms: seq<Migration>)
    ensures FailedIds(NewRows(ms)) == []
  {
    NoneFailed(NewRows(ms));
  }

  lemma WithoutClean(rows: seq<Row>, s: set<string>)
    requires FailedIds(rows) == []
    ensures FailedIds(Without(rows, s)) == []
  {
    NoneFailed(rows);
    NoneFailed(Without(rows, s));
    WithoutMembers(rows, s);
  }

  /** Marking one row of a clean ledger leaves exactly that failure. */
  lemma {:induction false} MarkedFailure(rows: seq<Row>, id: string)
    requires UniqueIds(rows) && FailedIds(rows) == []
    ensures FailedIds(WithFailed(rows, id)) == if HasRow(rows, id) then [id] else []
    ensures WithoutRow(WithFailed(rows, id), id) == WithoutRow(rows, id)
  {
    if rows != [] {
      var t := rows[1..];
      assert forall i :: 0 <= i < |t| ==> t[i] == rows[i + 1];
      assert WithFailed(rows, id)[1..] == WithFailed(t, id);
      MarkedFailure(t, id);
      assert HasRow(t, id) ==> HasRow(rows, id) by {
        if HasRow(t, id) {
          var i :| 0 <= i < |t| && t[i].id == id;
          assert rows[i + 1].id == id;
        }
      }
      assert HasRow(rows, id) && rows[0].id != id ==> HasRow(t, id) by {
        if HasRow(rows, id) && rows[0].id != id {
          var i :| 0 <= i < |rows| && rows[i].id == id;
          assert t[i - 1].id == id;
        }
      }
      assert rows[0].id == id ==> HasRow(rows, id) && !HasRow(t, id);
    }
  }

  /** The ledger after Forget of the failed migration, if there is one. */
  function Cleared(rows: seq<Row>): seq<Row> {
    if FailedIds(rows) == [] then rows else WithoutRow(rows, FailedIds(rows)[0])
  }

  lemma Unmarked(rows: seq<Row>, id: string)
    requires !HasRow(rows, id)
    ensures WithFailed(rows, id) == rows
  {
  }

  lemma ForgottenRollback(rows: seq<Row>, plan: Plan, k: nat)
    requires k < |plan.toRollback|
    ensures var left := Without(rows, IdSet(plan.toRollback[..k]));
            FailedIds(left) == [] ==> FailedIds(WithoutRow(left, plan.toRollback[k])) == []
    ensures EndsAt(rows, plan, WithoutRow(Without(rows, IdSet(plan.toRollback[..k])), plan.toRollback[k]),
                   End(k + 1, 0, false))
  {
    var rb := plan.toRollback;
    assert rb[..k + 1] == rb[..k] + [rb[k]];
    assert IdSet(rb[..k + 1]) == IdSet(rb[..k]) + {rb[k]};
    WithoutOneMore(rows, IdSet(rb[..k]), rb[k]);
    var left := Without(rows, IdSet(rb[..k]));
    if FailedIds(left) == [] {
      NoneFailed(left);
      WithoutRowContents(left, rb[k]);
      NoneFailed(WithoutRow(left, rb[k]));
    }
    if k + 1 == |rb| {
      assert rb[..k + 1] == rb;
      NoneApplied(Without(rows, IdSet(rb)), plan.toApply);
    }
  }

  lemma ForgottenApply(base: seq<Row>, ms: seq<Migration>, k: nat)
    requires Fresh(base, ms) && k < |ms| && FailedIds(base + NewRows(ms[..k])) == []
    ensures var done := base + NewRows(ms[..k]);
            var after := done + [NewRow(ms[k], true)];
            FailedIds(after) == [ms[k].id] && WithoutRow(after, ms[k].id) == done
  {
    var done, row := base + NewRows(ms[..k]), NewRow(ms[k], true);
    FailedIdsAppend(done, [row]);
    assert [row][1..] == [];
    WithoutRowAppend(done, [row], ms[k].id);
    forall i | 0 <= i < |done|
      ensures done[i].id != ms[k].id
    {
      if i < |base| {
        assert done[i] == base[i];
      } else {
        assert done[i].id == ms[i - |base|].id;
      }
    }
    WithoutAbsent(done, ms[k].id);
  }

  /** At most one failure is on record, and forgetting it leaves a point the run could have stopped at. */
  lemma EndCleared(rows: seq<Row>, plan: Plan, after: seq<Row>, e: End) returns (c: End)
    requires UniqueIds(rows) && FailedIds(rows) == []
    requires Fresh(Without(rows, IdSet(plan.toRollback)), plan.toApply)
    requires EndsAt(rows, plan, after, e)
    ensures |FailedIds(after)| <= 1 && FailedIds(Cleared(after)) == []
    ensures EndsAt(rows, plan, Cleared(after), c) && !c.marked
    ensures !e.marked ==> c == e && FailedIds(after) == []
  {
    hide Without, WithFailed, Fresh;
    c := e.(marked := false);
    if e.rolled < |plan.toRollback| {
      var left := Without(rows, IdSet(plan.toRollback[..e.rolled]));
      WithoutClean(rows, IdSet(plan.toRollback[..e.rolled]));
      WithoutUnique(rows, IdSet(plan.toRollback[..e.rolled]));
      if e.marked {
        var id := plan.toRollback[e.rolled];
        MarkedFailure(left, id);
        if HasRow(left, id) {
          c := End(e.rolled + 1, 0, false);
          ForgottenRollback(rows, plan, e.rolled);
        } else {
          Unmarked(left, id);
        }
      }
    } else {
      var base := Without(rows, IdSet(plan.toRollback));
      WithoutClean(rows, IdSet(plan.toRollback));
      NewRowsClean(plan.toApply[..e.applied]);
      FailedIdsAppend(base, NewRows(plan.toApply[..e.applied]));
      if e.marked {
        ForgottenApply(base, plan.toApply, e.applied);
      }
    }
  }

  // ---------------------------------------------------------------------------------------------
  // The theorems

  /** A ledger that Reconcile is ready to work on. */
  ghost predicate Ready(rows: seq<Row>, files: seq<Migration>, opts: Options) {
    && UniqueIds(rows) && FailedIds(rows) == []
    && BlockedBy(PlanFor(files, RowIds(rows), true), files, opts) == None
  }

  lemma ReadyUnique(rows: seq<Row>, files: seq<Migration>, opts: Options)
    requires Ready(rows, files, opts)
    ensures UniqueIds(rows)
  {
  }

  lemma EndBounds(rows: seq<Row>, plan: Plan, after: seq<Row>, e: End)
    requires EndsAt(rows, plan, after, e)
    ensures e.rolled <= |plan.toRollback| && e.applied <= |plan.toApply|
  {
  }

  lemma ReconcileShape(w: World, files: seq<Migration>, opts: Options, f: CallFate) returns (e: End)
    requires FilesOk(files) && Ready(w.rows, files, opts)
    ensures var plan, r := ReconcilePlan(w, files), Reconcile(w, files, opts, f);
            && EndsAt(w.rows, plan, r.world.rows, e)
            && Fresh(Without(w.rows, IdSet(plan.toRollback)), plan.toApply)
            && |r.rolledBack| <= e.rolled <= |r.rolledBack| + 1 && |r.applied| <= e.applied <= |r.applied| + 1
            && r.rolledBack == plan.toRollback[..|r.rolledBack|]
            && r.applied == plan.toApply[..|r.applied|]
            && (r.applied != [] || e.applied > 0 ==> r.rolledBack == plan.toRollback)
            && (r.error.None? ==> e == End(|plan.toRollback|, |plan.toApply|, false)
                                  && r.rolledBack == plan.toRollback && r.applied == plan.toApply)
            && (AllHonest(f.steps) && r.error != Some(Unrecorded) ==>
                  e == End(|r.rolledBack|, |r.applied|, e.marked) && (e.marked ==> r.error == Some(ScriptFailed)))
  {
    hide PlanFor, EndsAt, Fresh, AllIn, Without, ExecutePlan;
    var plan := ReconcilePlan(w, files);
    MissingIsToApply(files, RowIds(w.rows));
    MissingFresh(w.rows, files, IdSet(plan.toRollback));
    NothingDone(w.rows, plan);
    e := End(0, 0, false);
    if f.entry && f.load {
      e := ExecutePlanShape(w, plan, files, f.selects, f.steps);
      EndBounds(w.rows, plan, ExecutePlan(w, plan, files, f.selects, f.steps).world.rows, e);
    }
  }

  lemma EndWhole(ids: seq<string>, files: seq<Migration>, e: End)
    requires var plan := PlanFor(files, ids, true); e == End(|plan.toRollback|, |plan.toApply|, false)
    ensures IdsAt(ids, files, e) == Target(ids, files)
  {
    var ms := PlanFor(files, ids, true).toApply;
    assert ms[..|ms|] == ms;
  }

  /** At its target, a ledger holds exactly the files' identifiers and there is nothing left to plan. */
  lemma AtTarget(ids: seq<string>, files: seq<Migration>)
    requires FilesOk(files)
    ensures IdSet(Target(ids, files)) == FileIds(files)
    ensures PlanFor(files, Target(ids, files), true) == Plan([], [], [])
  {
    hide Missing, Keep, Drop, Less, MaxId, Below, Reverse;
    var ms := Missing(files, IdSet(ids));
    AppliedPlan(ids, files, |ms|);
    assert ms[..|ms|] == ms && ms[|ms|..] == [];
    var t := Target(ids, files);
    ReverseNone();
    KeepMembers(t, FileIds(files));
    MissingMembers(files, IdSet(t));
    forall x
      ensures x in FileIds(files) ==> x in t
    {
      FileIdsMembers(files, x);
      if x in FileIds(files) {
        var m :| m in files && m.id == x;
        assert m !in Missing(files, IdSet(t));
      }
    }
  }

  /**
   A successful Reconcile leaves what the files keep of the ledger followed by what it lacked, in file
   order: exactly the files' identifiers, and nothing for another Reconcile to do.
   */
  lemma ReconcileReachesTarget(w: World, files: seq<Migration>, opts: Options, f: CallFate)
    requires FilesOk(files) && UniqueIds(w.rows) && Reconcile(w, files, opts, f).error.None?
    ensures var after := Reconcile(w, files, opts, f).world;
            && RowIds(after.rows) == Target(RowIds(w.rows), files)
            && IdSet(RowIds(after.rows)) == FileIds(files)
            && ReconcilePlan(after, files) == Plan([], [], [])
  {
    hide PlanFor, Missing, Keep, Drop, Less, EndsAt, Fresh, ExecutePlan;
    var plan, ids := ReconcilePlan(w, files), RowIds(w.rows);
    var after := Reconcile(w, files, opts, f).world;
    var e := ReconcileShape(w, files, opts, f);
    EndIds(w.rows, files, after.rows, e);
    EndWhole(ids, files, e);
    AtTarget(ids, files);
  }

  lemma NewRowInFiles(files: seq<Migration>, ids: seq<string>, k: nat, r: Row)
    requires k <= |PlanFor(files, ids, true).toApply| && r in NewRows(PlanFor(files, ids, true).toApply[..k])
    ensures r.id in FileIds(files)
  {
    hide FileIds, Missing;
    var ms := PlanFor(files, ids, true).toApply;
    MissingMembers(files, IdSet(ids));
    var i :| 0 <= i < k && NewRows(ms[..k])[i] == r;
    assert ms[i] in ms;
    FileIdsMembers(files, r.id);
  }

  /** However far it got, its rollback candidates are still reversible. */
  lemma StaysReversible(rows: seq<Row>, files: seq<Migration>, after: seq<Row>, e: End)
    requires EndsAt(rows, PlanFor(files, RowIds(rows), true), after, e) && !e.marked
    requires Reversible(rows, PlanFor(files, RowIds(rows), true).toRollback)
    ensures Reversible(after, PlanFor(files, RowIds(after), true).toRollback)
  {
    hide PlanFor, Without, IsIrreversible, FileIds;
    var plan := PlanFor(files, RowIds(rows), true);
    var again := PlanFor(files, RowIds(after), true);
    RollbackIds(RowIds(rows), files);
    RollbackIds(RowIds(after), files);
    WithoutMembers(rows, IdSet(plan.toRollback[..e.rolled]));
    WithoutMembers(rows, IdSet(plan.toRollback));
    forall r | r in after && r.id in again.toRollback
      ensures !IsIrreversible(r.down)
    {
      if e.rolled == |plan.toRollback| && r !in Without(rows, IdSet(plan.toRollback)) {
        NewRowInFiles(files, RowIds(rows), e.applied, r);
      }
      var i :| 0 <= i < |rows| && rows[i] == r;
      assert RowIds(rows)[i] == r.id;
    }
  }

  lemma AppendUnique(base: seq<Row>, ms: seq<Migration>, k: nat, marked: bool)
    requires UniqueIds(base) && Fresh(base, ms) && k <= |ms| && (marked ==> k < |ms|)
    ensures UniqueIds(base + NewRows(ms[..k]))
    ensures marked ==> UniqueIds(base + NewRows(ms[..k]) + [NewRow(ms[k], true)])
  {
    var done := base + NewRows(ms[..k]);
    forall i | 0 <= i < |done|
      ensures i < |base| ==> done[i] == base[i]
      ensures i >= |base| ==> done[i].id == ms[i - |base|].id
    {
    }
  }

  lemma EndUnique(rows: seq<Row>, plan: Plan, after: seq<Row>, e: End)
    requires UniqueIds(rows) && EndsAt(rows, plan, after, e)
    requires Fresh(Without(rows, IdSet(plan.toRollback)), plan.toApply)
    ensures UniqueIds(after)
  {
    hide Without, WithFailed;
    if e.rolled < |plan.toRollback| {
      WithoutUnique(rows, IdSet(plan.toRollback[..e.rolled]));
      WithFailedIds(Without(rows, IdSet(plan.toRollback[..e.rolled])), plan.toRollback[e.rolled]);
    } else {
      var base := Without(rows, IdSet(plan.toRollback));
      WithoutUnique(rows, IdSet(plan.toRollback));
      AppendUnique(base, plan.toApply, e.applied, e.marked);
    }
  }

  /** One interrupted Reconcile, then Forget of the failed migration if there is one. */
  lemma InterruptedOnce(w: World, files: seq<Migration>, opts: Options, f: CallFate)
    requires FilesOk(files) && Ready(w.rows, files, opts)
    ensures var after := Cleared(Reconcile(w, files, opts, f).world.rows);
            && Ready(after, files, opts)
            && Target(RowIds(after), files) == Target(RowIds(w.rows), files)
            && |FailedIds(Reconcile(w, files, opts, f).world.rows)| <= 1
            && (Reversible(w.rows, ReconcilePlan(w, files).toRollback) ==>
                  Reversible(after, PlanFor(files, RowIds(after), true).toRollback))
  {
    hide PlanFor, EndsAt, Fresh, ExecutePlan, BlockedBy, Target, Reconcile, Cleared, Reversible;
    var ids, plan := RowIds(w.rows), ReconcilePlan(w, files);
    var rows := Reconcile(w, files, opts, f).world.rows;
    var e := ReconcileShape(w, files, opts, f);
    var c := EndCleared(w.rows, plan, rows, e);
    var after := Cleared(rows);
    EndIds(w.rows, files, after, c);
    EndBounds(w.rows, plan, after, c);
    TargetIsKept(ids, files, c);
    NotNewlyBlocked(ids, files, opts, c);
    EndUnique(w.rows, plan, after, c);
    if Reversible(w.rows, plan.toRollback) {
      StaysReversible(w.rows, files, after, c);
    }
  }

  /** A Reconcile that no guard stands in the way of may fail, but does not refuse. */
  lemma ReadyIsNotRefused(w: World, files: seq<Migration>, opts: Options, f: CallFate)
    requires Ready(w.rows, files, opts) && Reversible(w.rows, ReconcilePlan(w, files).toRollback)
    ensures !IsRefusal(Reconcile(w, files, opts, f).error)
  {
    hide PlanFor, RollbackAll, ApplyAll, EnsureReversible, FailedIds, BlockedBy, UniqueIds, Reversible;
    var plan := ReconcilePlan(w, files);
    ReversibleIsNotRefused(w.rows, plan.toRollback, f.selects);
    RollbacksNeverRefuse(w, plan.toRollback, f.steps);
    AppliesNeverRefuse(RollbackAll(w, plan.toRollback, f.steps).world, plan.toApply, files,
                       DropFates(f.steps, |plan.toRollback|));
  }

  function ClearedWorld(w: World): World {
    w.(rows := Cleared(w.rows))
  }

  /** A Reconcile started again and again with the same files and options. */
  function Attempts(w: World, files: seq<Migration>, opts: Options, fs: seq<CallFate>): World
    decreases |fs|
  {
    if fs == [] then w
    else Attempts(ClearedWorld(Reconcile(w, files, opts, fs[0]).world), files, opts, fs[1..])
  }

  lemma {:induction false} AttemptsKeepTarget(w: World, files: seq<Migration>, opts: Options, fs: seq<CallFate>)
    requires FilesOk(files) && Ready(w.rows, files, opts)
    ensures var v := Attempts(w, files, opts, fs);
            && Ready(v.rows, files, opts) && Target(RowIds(v.rows), files) == Target(RowIds(w.rows), files)
            && (Reversible(w.rows, ReconcilePlan(w, files).toRollback) ==>
                  Reversible(v.rows, ReconcilePlan(v, files).toRollback))
    decreases |fs|
  {
    hide Target, Reconcile, Ready, Cleared, Reversible, PlanFor;
    if fs != [] {
      InterruptedOnce(w, files, opts, fs[0]);
      AttemptsKeepTarget(ClearedWorld(Reconcile(w, files, opts, fs[0]).world), files, opts, fs[1..]);
    }
  }

  /**
   Resumability: a Reconcile that was allowed to start may be interrupted any number of times, in any way,
   and started again, after Forget of the failed migration if there is one. No guard stops it, neither one of
   BlockedBy nor, unless it stood in the way from the start, the pre-flight check for irreversible
   migrations; and when it succeeds the ledger lists the same identifiers in the same order as after one uninterrupted run.
   */
  lemma ReconcileResumes(w: World, files: seq<Migration>, opts: Options, fs: seq<CallFate>, f: CallFate, g: CallFate)
    requires FilesOk(files) && Ready(w.rows, files, opts)
    ensures var v := Attempts(w, files, opts, fs);
            && Ready(v.rows, files, opts)
            && (Reversible(w.rows, ReconcilePlan(w, files).toRollback) ==>
                  Reversible(v.rows, ReconcilePlan(v, files).toRollback)
                  && !IsRefusal(Reconcile(v, files, opts, f).error))
            && (Reconcile(v, files, opts, f).error.None? && Reconcile(w, files, opts, g).error.None? ==>
                  RowIds(Reconcile(v, files, opts, f).world.rows) == RowIds(Reconcile(w, files, opts, g).world.rows))
  {
    hide Target, Reconcile, Attempts, Reversible, PlanFor, Ready;
    ReadyUnique(w.rows, files, opts);
    AttemptsKeepTarget(w, files, opts, fs);
    var v := Attempts(w, files, opts, fs);
    ReadyUnique(v.rows, files, opts);
    if Reversible(w.rows, ReconcilePlan(w, files).toRollback) {
      ReadyIsNotRefused(v, files, opts, f);
    }
    if Reconcile(v, files, opts, f).error.None? && Reconcile(w, files, opts, g).error.None? {
      ReconcileReachesTarget(v, files, opts, f);
      ReconcileReachesTarget(w, files, opts, g);
    }
  }
}

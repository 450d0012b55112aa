/** BuildPlan (internal/migrator/planner.go): the difference between the files and the ledger. */
module Planner {
  import opened Text
  import opened Ids

  datatype Plan = Plan(toRollback: seq<string>, toApply: seq<Migration>, interleaved: seq<Migration>)

  function IdSet(ids: seq<string>): set<string> {
    set x | x in ids
  }

  /** The identifiers among ids that are in s, in their order. */
  function Keep(ids: seq<string>, s: set<string>): seq<string> {
    if ids == [] then [] else (if ids[0] in s then [ids[0]] else []) + Keep(ids[1..], s)
  }

  function Drop(ids: seq<string>, s: set<string>): seq<string> {
    if ids == [] then [] else (if ids[0] in s then [] else [ids[0]]) + Drop(ids[1..], s)
  }

  function Reverse(ids: seq<string>): (r: seq<string>)
    ensures |r| == |ids|
  {
    if ids == [] then [] else Reverse(ids[1..]) + [ids[0]]
  }

  /** The migrations whose identifier is not in s. */
  function Missing(files: seq<Migration>, s: set<string>): seq<Migration> {
    if files == [] then [] else (if files[0].id in s then [] else [files[0]]) + Missing(files[1..], s)
  }

  /** The greatest of the identifiers, or the empty string. */
  function MaxId(ids: seq<string>): string {
    if ids == [] then ""
    else
      var m := MaxId(ids[..|ids| - 1]);
      if Less(m, ids[|ids| - 1]) then ids[|ids| - 1] else m
  }

  /** The migrations that sort before max. */
  function Below(ms: seq<Migration>, max: string): seq<Migration> {
    if ms == [] then []
    else (if max != "" && Less(ms[0].id, max) then [ms[0]] else []) + Below(ms[1..], max)
  }

  function Staying(files: seq<Migration>, fromDB: seq<string>, rollbackExtras: bool): seq<string> {
    if rollbackExtras then Keep(fromDB, IdSet(MigrationIds(files))) else fromDB
  }

  /** What BuildPlan returns. */
  function PlanFor(files: seq<Migration>, fromDB: seq<string>, rollbackExtras: bool): Plan {
    var toApply := Missing(files, IdSet(fromDB));
    Plan(Reverse(Drop(fromDB, IdSet(MigrationIds(files)))), toApply,
         Below(toApply, MaxId(Staying(files, fromDB, rollbackExtras))))
  }

  // ---------------------------------------------------------------------------------------------

  lemma {:induction false} KeepAppend(ids: seq<string>, x: string, s: set<string>)
    ensures Keep(ids + [x], s) == Keep(ids, s) + (if x in s then [x] else [])
    ensures Drop(ids + [x], s) == Drop(ids, s) + (if x in s then [] else [x])
  {
    if ids == [] {
      assert [] + [x] == [x] && [x][1..] == [];
    } else {
      assert (ids + [x])[1..] == ids[1..] + [x];
      KeepAppend(ids[1..], x, s);
    }
  }

  lemma {:induction false} ReverseAppend(ids: seq<string>, x: string)
    ensures Reverse(ids + [x]) == [x] + Reverse(ids)
  {
    if ids == [] {
      assert [] + [x] == [x] && [x][1..] == [];
    } else {
      assert (ids + [x])[1..] == ids[1..] + [x];
      ReverseAppend(ids[1..], x);
    }
  }

  lemma {:induction false} MissingAppend(files: seq<Migration>, m: Migration, s: set<string>)
    ensures Missing(files + [m], s) == Missing(files, s) + (if m.id in s then [] else [m])
  {
    if files == [] {
      assert [] + [m] == [m] && [m][1..] == [];
    } else {
      assert (files + [m])[1..] == files[1..] + [m];
      MissingAppend(files[1..], m, s);
    }
  }

  lemma {:induction false} BelowAppend(ms: seq<Migration>, m: Migration, max: string)
    ensures Below(ms + [m], max) == Below(ms, max) + (if max != "" && Less(m.id, max) then [m] else [])
  {
    hide Less;
    if ms == [] {
      assert [] + [m] == [m] && [m][1..] == [];
    } else {
      assert (ms + [m])[1..] == ms[1..] + [m];
      BelowAppend(ms[1..], m, max);
    }
  }

  lemma KeepNone(s: set<string>)
    ensures Keep([], s) == [] && Drop([], s) == [] && Missing([], s) == []
  {
  }

  lemma ReverseNone()
    ensures Reverse([]) == [] && forall max :: Below([], max) == []
  {
  }

  method BuildPlan(fromFiles: seq<Migration>, fromDB: seq<string>, rollbackExtras: bool) returns (plan: Plan)
    ensures plan == PlanFor(fromFiles, fromDB, rollbackExtras)
  {
    hide Less, Keep, Drop, Reverse, Missing, Below;
    var filesMap: set<string> := {};
    for i := 0 to |fromFiles|
      invariant filesMap == IdSet(MigrationIds(fromFiles[..i]))
    {
      assert MigrationIds(fromFiles[..i + 1]) == MigrationIds(fromFiles[..i]) + [fromFiles[i].id];
      filesMap := filesMap + {fromFiles[i].id};
    }
    assert fromFiles[..|fromFiles|] == fromFiles;
    var dbMap: set<string> := {};
    for i := 0 to |fromDB|
      invariant dbMap == IdSet(fromDB[..i])
    {
      assert fromDB[..i + 1] == fromDB[..i] + [fromDB[i]];
      dbMap := dbMap + {fromDB[i]};
    }
    assert fromDB[..|fromDB|] == fromDB;

    var maxAppliedID := "";
    KeepNone(filesMap);
    for i := 0 to |fromDB|
      invariant maxAppliedID == MaxId(if rollbackExtras then Keep(fromDB[..i], filesMap) else fromDB[..i])
    {
      assert fromDB[..i + 1] == fromDB[..i] + [fromDB[i]];
      KeepAppend(fromDB[..i], fromDB[i], filesMap);
      ghost var before := if rollbackExtras then Keep(fromDB[..i], filesMap) else fromDB[..i];
      assert before + [] == before && (before + [fromDB[i]])[..|before|] == before;
      if rollbackExtras && fromDB[i] !in filesMap {
        continue;
      }
      if Less(maxAppliedID, fromDB[i]) {
        maxAppliedID := fromDB[i];
      }
    }

    var toRollback: seq<string> := [];
    ReverseNone();
    for i := |fromDB| downto 0
      invariant toRollback + Reverse(Drop(fromDB[..i], filesMap)) == Reverse(Drop(fromDB, filesMap))
    {
      assert fromDB[..i + 1] == fromDB[..i] + [fromDB[i]];
      KeepAppend(fromDB[..i], fromDB[i], filesMap);
      ReverseAppend(Drop(fromDB[..i], filesMap), fromDB[i]);
      assert Drop(fromDB[..i], filesMap) + [] == Drop(fromDB[..i], filesMap);
      if fromDB[i] !in filesMap {
        toRollback := toRollback + [fromDB[i]];
      }
    }
    assert fromDB[..0] == [];

    KeepNone(dbMap);
    var toApply: seq<Migration>, interleaved: seq<Migration> := [], [];
    for i := 0 to |fromFiles|
      invariant toApply == Missing(fromFiles[..i], dbMap)
      invariant interleaved == Below(toApply, maxAppliedID)
    {
      var m := fromFiles[i];
      assert fromFiles[..i + 1] == fromFiles[..i] + [m];
      MissingAppend(fromFiles[..i], m, dbMap);
      BelowAppend(toApply, m, maxAppliedID);
      if m.id !in dbMap {
        toApply := toApply + [m];
        if maxAppliedID != "" && Less(m.id, maxAppliedID) {
          interleaved := interleaved + [m];
        }
      }
    }
    return Plan(toRollback, toApply, interleaved);
  }

  // ---------------------------------------------------------------------------------------------
  // What the plan means

  lemma {:induction false} KeepMembers(ids: seq<string>, s: set<string>)
    ensures forall x :: x in Keep(ids, s) <==> x in ids && x in s
    ensures forall x :: x in Drop(ids, s) <==> x in ids && x !in s
  {
    if ids != [] {
      KeepMembers(ids[1..], s);
      assert ids == [ids[0]] + ids[1..];
    }
  }

  lemma {:induction false} ReverseMembers(ids: seq<string>)
    ensures forall x :: x in Reverse(ids) <==> x in ids
  {
    if ids != [] {
      ReverseMembers(ids[1..]);
      assert ids == [ids[0]] + ids[1..];
    }
  }

  lemma {:induction false} MissingMembers(files: seq<Migration>, s: set<string>)
    ensures forall m :: m in Missing(files, s) <==> m in files && m.id !in s
  {
    if files != [] {
      MissingMembers(files[1..], s);
      assert files == [files[0]] + files[1..];
    }
  }

  lemma {:induction false} BelowMembers(ms: seq<Migration>, max: string)
    ensures forall m :: m in Below(ms, max) <==> m in ms && max != "" && Less(m.id, max)
  {
    if ms != [] {
      BelowMembers(ms[1..], max);
      assert ms == [ms[0]] + ms[1..];
    }
  }

  /** MaxId is an upper bound, and is attained. */
  lemma {:induction false} MaxIdIsMax(ids: seq<string>)
    ensures forall x :: x in ids ==> x == MaxId(ids) || Less(x, MaxId(ids))
    ensures MaxId(ids) == "" || MaxId(ids) in ids
  {
    if ids != [] {
      var n := |ids| - 1;
      var init, last := ids[..n], ids[n];
      MaxIdIsMax(init);
      assert ids == init + [last];
      LessTotal(MaxId(init), last);
      forall x | x in ids
        ensures x == MaxId(ids) || Less(x, MaxId(ids))
      {
        if x != last && Less(MaxId(init), last) && x != MaxId(init) {
          LessTransitive(x, MaxId(init), last);
        }
      }
    }
  }

  lemma NothingBelowEmpty(x: string)
    ensures !Less(x, "")
  {
  }

  /**
   A migration is interleaved exactly when it is to be applied and sorts before some migration that stays
   applied.
   */
  lemma InterleavedExactly(files: seq<Migration>, fromDB: seq<string>, rollbackExtras: bool, m: Migration)
    ensures var plan := PlanFor(files, fromDB, rollbackExtras);
            m in plan.interleaved
            <==> m in plan.toApply && exists x :: x in Staying(files, fromDB, rollbackExtras) && Less(m.id, x)
  {
    hide Less, Staying;
    var plan := PlanFor(files, fromDB, rollbackExtras);
    var stay := Staying(files, fromDB, rollbackExtras);
    BelowMembers(plan.toApply, MaxId(stay));
    MaxIdIsMax(stay);
    forall x | x in stay && Less(m.id, x)
      ensures MaxId(stay) != "" && Less(m.id, MaxId(stay))
    {
      if x != MaxId(stay) {
        LessTransitive(m.id, x, MaxId(stay));
      }
      NothingBelowEmpty(m.id);
    }
  }

  // ---------------------------------------------------------------------------------------------
  // The order of the plan

  /** x stands before y in xs. */
  ghost predicate Before(xs: seq<string>, x: string, y: string) {
    exists a, b :: 0 <= a < b < |xs| && xs[a] == x && xs[b] == y
  }

  /** The entries of ys stand in xs in their order. */
  ghost predicate InOrderOf(xs: seq<string>, ys: seq<string>) {
    forall i, j :: 0 <= i < j < |ys| ==> Before(xs, ys[i], ys[j])
  }

  /** They stand there the other way round. */
  ghost predicate AgainstOrderOf(xs: seq<string>, ys: seq<string>) {
    forall i, j :: 0 <= i < j < |ys| ==> Before(xs, ys[j], ys[i])
  }

  lemma BeforeInTail(xs: seq<string>, x: string, y: string)
    requires xs != [] && Before(xs[1..], x, y)
    ensures Before(xs, x, y)
  {
    var a, b :| 0 <= a < b < |xs| - 1 && xs[1..][a] == x && xs[1..][b] == y;
    assert xs[a + 1] == x && xs[b + 1] == y;
  }

  lemma BeforeAtHead(xs: seq<string>, y: string)
    requires xs != [] && y in xs[1..]
    ensures Before(xs, xs[0], y)
  {
    var b :| 0 <= b < |xs| - 1 && xs[1..][b] == y;
    assert xs[b + 1] == y;
  }

  /** One entry more, in front of both. */
  lemma InOrderCons(xs: seq<string>, ys: seq<string>)
    requires xs != [] && InOrderOf(xs[1..], ys) && forall y :: y in ys ==> y in xs[1..]
    ensures InOrderOf(xs, ys) && InOrderOf(xs, [xs[0]] + ys)
  {
    hide Before;
    var zs := [xs[0]] + ys;
    forall i, j | 0 <= i < j < |ys|
      ensures Before(xs, ys[i], ys[j])
    {
      BeforeInTail(xs, ys[i], ys[j]);
    }
    forall i, j | 0 <= i < j < |zs|
      ensures Before(xs, zs[i], zs[j])
    {
      assert zs[j] == ys[j - 1];
      if i == 0 {
        BeforeAtHead(xs, ys[j - 1]);
      } else {
        assert zs[i] == ys[i - 1];
      }
    }
  }

  lemma {:induction false} DropOrder(ids: seq<string>, s: set<string>)
    ensures InOrderOf(ids, Drop(ids, s))
  {
    hide Before;
    if ids != [] {
      DropOrder(ids[1..], s);
      KeepMembers(ids[1..], s);
      InOrderCons(ids, Drop(ids[1..], s));
      assert [] + Drop(ids[1..], s) == Drop(ids[1..], s);
    }
  }

  lemma IdsOfFiles(files: seq<Migration>, x: string)
    ensures x in MigrationIds(files) <==> exists m :: m in files && m.id == x
  {
    var ids := MigrationIds(files);
    if x in ids {
      var i :| 0 <= i < |ids| && ids[i] == x;
      assert files[i] in files;
    }
    if m :| m in files && m.id == x {
      var i :| 0 <= i < |files| && files[i] == m;
      assert ids[i] == x;
    }
  }

  lemma HeadIds(m: Migration, ms: seq<Migration>)
    ensures MigrationIds([m] + ms) == [m.id] + MigrationIds(ms)
  {
  }

  lemma MissingHead(files: seq<Migration>, s: set<string>)
    requires files != []
    ensures Missing(files, s)
            == if files[0].id in s then Missing(files[1..], s) else [files[0]] + Missing(files[1..], s)
  {
    assert [] + Missing(files[1..], s) == Missing(files[1..], s);
  }

  lemma MissingIsIn(files: seq<Migration>, s: set<string>)
    ensures forall x :: x in MigrationIds(Missing(files, s)) ==> x in MigrationIds(files)
  {
    hide Missing, MigrationIds;
    MissingMembers(files, s);
    forall x | x in MigrationIds(Missing(files, s))
      ensures x in MigrationIds(files)
    {
      IdsOfFiles(Missing(files, s), x);
      IdsOfFiles(files, x);
    }
  }

  lemma NothingMissingInOrder(s: set<string>)
    ensures InOrderOf(MigrationIds([]), MigrationIds(Missing([], s)))
  {
  }

  lemma {:induction false} MissingOrder(files: seq<Migration>, s: set<string>)
    ensures InOrderOf(MigrationIds(files), MigrationIds(Missing(files, s)))
  {
    hide InOrderOf, Missing, MigrationIds;
    if files != [] {
      var m, t := files[0], files[1..];
      assert files == [m] + t;
      MissingOrder(t, s);
      MissingHead(files, s);
      MissingIsIn(t, s);
      HeadIds(m, t);
      HeadIds(m, Missing(t, s));
      assert MigrationIds(files)[1..] == MigrationIds(t);
      InOrderCons(MigrationIds(files), MigrationIds(Missing(t, s)));
    } else {
      NothingMissingInOrder(s);
    }
  }

  lemma {:induction false} ReverseAt(ids: seq<string>, k: nat)
    requires k < |ids|
    ensures Reverse(ids)[k] == ids[|ids| - 1 - k]
  {
    if k < |ids| - 1 {
      ReverseAt(ids[1..], k);
    }
  }

  /** xs reversed holds what xs does, the other way round. */
  lemma ReverseOrder(xs: seq<string>, ys: seq<string>)
    requires InOrderOf(xs, ys)
    ensures AgainstOrderOf(xs, Reverse(ys))
  {
    hide Reverse, Before;
    var r, n := Reverse(ys), |ys| - 1;
    forall i, j | 0 <= i < j < |r|
      ensures Before(xs, r[j], r[i])
    {
      ReverseAt(ys, i);
      ReverseAt(ys, j);
      assert Before(xs, ys[n - j], ys[n - i]);
    }
  }

  /**
   What is to be rolled back is what the ledger has and the files lack, the later entry of the ledger first;
   what is to be applied is what the files have and the ledger lacks, in the order of the files.
   */
  lemma PlanOrder(files: seq<Migration>, fromDB: seq<string>, rollbackExtras: bool)
    ensures var plan := PlanFor(files, fromDB, rollbackExtras);
            && AgainstOrderOf(fromDB, plan.toRollback)
            && (forall x :: x in plan.toRollback <==> x in fromDB && forall m :: m in files ==> m.id != x)
            && InOrderOf(MigrationIds(files), MigrationIds(plan.toApply))
            && (forall m :: m in plan.toApply <==> m in files && m.id !in fromDB)
  {
    hide Reverse, Drop, Missing, Below, MaxId, Staying, InOrderOf, AgainstOrderOf;
    var s := IdSet(MigrationIds(files));
    DropOrder(fromDB, s);
    KeepMembers(fromDB, s);
    ReverseOrder(fromDB, Drop(fromDB, s));
    ReverseMembers(Drop(fromDB, s));
    forall x
      ensures x in s <==> exists m :: m in files && m.id == x
    {
      IdsOfFiles(files, x);
    }
    MissingOrder(files, IdSet(fromDB));
    MissingMembers(files, IdSet(fromDB));
  }
}

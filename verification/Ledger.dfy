/**
 The database as the migrator sees it, and what one executor call does to it.

 A world is the bookkeeping table in sequence order together with, for each migration, how much of it is in
 the schema. Every statement sent to the database may fail; how it fares is a parameter, its fate, so a
 property proved for all fates holds for every pattern of failures. A commit, or a single statement outside
 a transaction, may also report an error although it took effect.
 */
module Ledger {
  import opened Text
  import opened Directives
  import opened Ids
  import Lexer

  datatype Row = Row(id: string, up: string, down: string, failed: bool)

  /** How much of a migration is in the schema. */
  datatype Status = Absent | Applied | Partial

  datatype World = World(rows: seq<Row>, schema: map<string, Status>)

  function StatusOf(w: World, id: string): Status {
    if id in w.schema then w.schema[id] else Absent
  }

  function SetStatus(w: World, id: string, status: Status): World {
    w.(schema := w.schema[id := status])
  }

  function RowIds(rows: seq<Row>): (ids: seq<string>)
    ensures |ids| == |rows|
    ensures forall i :: 0 <= i < |rows| ==> ids[i] == rows[i].id
  {
    seq(|rows|, i requires 0 <= i < |rows| => rows[i].id)
  }

  predicate HasRow(rows: seq<Row>, id: string) {
    exists i :: 0 <= i < |rows| && rows[i].id == id
  }

  /** The primary key. */
  predicate UniqueIds(rows: seq<Row>) {
    forall i, j :: 0 <= i < j < |rows| ==> rows[i].id != rows[j].id
  }

  /** SELECT ... WHERE id = $1. */
  function RowOf(rows: seq<Row>, id: string): (r: Option<Row>)
    ensures r.Some? <==> HasRow(rows, id)
    ensures r.Some? ==> r.value in rows && r.value.id == id
  {
    if rows == [] then None
    else if rows[0].id == id then Some(rows[0])
    else
      var r := RowOf(rows[1..], id);
      assert HasRow(rows, id) <==> HasRow(rows[1..], id) by {
        if HasRow(rows, id) {
          var i :| 0 <= i < |rows| && rows[i].id == id;
          assert rows[1..][i - 1].id == id;
        }
      }
      r
  }

  /** DELETE ... WHERE id = $1. */
  function WithoutRow(rows: seq<Row>, id: string): seq<Row> {
    if rows == [] then []
    else if rows[0].id == id then WithoutRow(rows[1..], id)
    else [rows[0]] + WithoutRow(rows[1..], id)
  }

  /** UPDATE ... SET error = ... WHERE id = $1. */
  function WithFailed(rows: seq<Row>, id: string): (r: seq<Row>)
    ensures |r| == |rows|
  {
    seq(|rows|, i requires 0 <= i < |rows| => if rows[i].id == id then rows[i].(failed := true) else rows[i])
  }

  // ---------------------------------------------------------------------------------------------
  // Fates

  datatype ScriptFate =
    | AllRan
    | Broke(left: Status) // an error, with the schema left in this state unless a transaction undoes it

  datatype WriteFate =
    | Written
    | WriteError(landed: bool) // an error, whether or not the write took effect

  /** How the statements of one executor call fare. */
  datatype Fate = Fate(
    read: bool,         // SELECT down_script
    open: bool,         // BEGIN, or getting the dedicated connection
    script: ScriptFate, // the migration's own SQL
    write: WriteFate,   // the bookkeeping statement
    commit: WriteFate)

  const LUCKY := Fate(true, true, AllRan, Written, Written)

  datatype Error =
    | BadScript
    | NotRecorded
    | NotInFiles
    | DatabaseError
    | ScriptFailed
    | Unrecorded
    | Irreversible(ids: seq<string>)
    | FailedMigrations(ids: seq<string>)
    | Divergence(ids: seq<string>)
    | Interleaved(ids: seq<string>)
    | EmptySource(count: nat)
    | AlreadyRecorded
    | BaselineNotFound
    | PoolTooSmall

  datatype Outcome = Outcome(world: World, error: Option<Error>)

  // ---------------------------------------------------------------------------------------------
  // Applying one migration

  function NewRow(m: Migration, failed: bool): Row {
    Row(m.id, m.up, m.down, failed)
  }

  /** INSERT, which the primary key refuses for an identifier already present. */
  function WithRow(w: World, row: Row): World {
    w.(rows := w.rows + [row])
  }

  /** In a transaction: script and row take effect together or not at all. */
  function ApplyInside(w: World, m: Migration, f: Fate): Outcome {
    var applied := WithRow(SetStatus(w, m.id, Applied), NewRow(m, false));
    if !f.open then Outcome(w, Some(DatabaseError))
    else if f.script.Broke? then Outcome(w, Some(ScriptFailed))
    else if f.write.WriteError? || HasRow(w.rows, m.id) then Outcome(w, Some(DatabaseError))
    else if f.commit.WriteError? then Outcome(if f.commit.landed then applied else w, Some(DatabaseError))
    else Outcome(applied, None)
  }

  /** Outside a transaction: the script first, then a row that says how it went. */
  function ApplyOutside(w: World, m: Migration, body: string, f: Fate): Outcome {
    if Lexer.Statements(body).Failure? then Outcome(w, Some(BadScript))
    else if !f.open then Outcome(w, Some(DatabaseError))
    else
      var failed := f.script.Broke?;
      var ran := SetStatus(w, m.id, if failed then f.script.left else Applied);
      var recorded := WithRow(ran, NewRow(m, failed));
      if HasRow(w.rows, m.id) then Outcome(ran, Some(Unrecorded))
      else if f.write.WriteError? then Outcome(if f.write.landed then recorded else ran, Some(Unrecorded))
      else Outcome(recorded, if failed then Some(ScriptFailed) else None)
  }

  function ApplyOne(w: World, m: Migration, f: Fate): Outcome {
    match ParseHeader(m.up)
    case Failure(_) => Outcome(w, Some(BadScript))
    case Success(h) =>
      if NO_TRANSACTION in h.directives then ApplyOutside(w, m, h.body, f) else ApplyInside(w, m, f)
  }

  // ---------------------------------------------------------------------------------------------
  // Rolling one migration back

  function RolledBack(w: World, id: string): World {
    World(WithoutRow(w.rows, id), w.schema[id := Absent])
  }

  function RollbackInside(w: World, id: string, f: Fate): Outcome {
    if !f.open then Outcome(w, Some(DatabaseError))
    else if f.script.Broke? then Outcome(w, Some(ScriptFailed))
    else if f.write.WriteError? then Outcome(w, Some(DatabaseError))
    else if f.commit.WriteError? then
      Outcome(if f.commit.landed then RolledBack(w, id) else w, Some(DatabaseError))
    else Outcome(RolledBack(w, id), None)
  }

  function RollbackOutside(w: World, id: string, body: string, f: Fate): Outcome {
    if Lexer.Statements(body).Failure? then Outcome(w, Some(BadScript))
    else if !f.open then Outcome(w, Some(DatabaseError))
    else if f.script.Broke? then
      var ran := SetStatus(w, id, f.script.left);
      var marked := ran.(rows := WithFailed(w.rows, id));
      if f.write.WriteError? then Outcome(if f.write.landed then marked else ran, Some(Unrecorded))
      else Outcome(marked, Some(ScriptFailed))
    else
      var ran := SetStatus(w, id, Absent);
      if f.write.WriteError? then Outcome(if f.write.landed then RolledBack(w, id) else ran, Some(Unrecorded))
      else Outcome(RolledBack(w, id), None)
  }

  function RollbackOne(w: World, id: string, f: Fate): Outcome {
    if !f.read then Outcome(w, Some(DatabaseError))
    else
      match RowOf(w.rows, id)
      case None => Outcome(w, Some(NotRecorded))
      case Some(row) =>
        match ParseHeader(row.down)
        case Failure(_) => Outcome(w, Some(BadScript))
        case Success(h) =>
          if NO_TRANSACTION in h.directives then RollbackOutside(w, id, h.body, f) else RollbackInside(w, id, f)
  }

  // ---------------------------------------------------------------------------------------------
  // What a call to the executor does, by fate

  /** In a transaction a migration is applied and recorded, or nothing has happened; exactly when which. */
  lemma ApplyInTransaction(w: World, m: Migration, f: Fate)
    requires !IsNoTransaction(m.up)
    ensures var o := ApplyOne(w, m, f);
            var ran := ParseHeader(m.up).Success? && f.open && f.script.AllRan? && f.write.Written? && !HasRow(w.rows, m.id);
            && o.world == (if ran && f.commit != WriteError(false)
                           then World(w.rows + [Row(m.id, m.up, m.down, false)], w.schema[m.id := Applied]) else w)
            && (o.error.None? <==> ran && f.commit.Written?)
            && (ParseHeader(m.up).Success? && f.open && f.script.Broke? ==> o.error == Some(ScriptFailed))
  {
    hide ParseHeader, HasRow;
  }

  /** Outside one, what the script did stays, and the row says how it went unless the write is lost. */
  lemma ApplyOutsideTransaction(w: World, m: Migration, f: Fate)
    requires IsNoTransaction(m.up)
    ensures var o := ApplyOne(w, m, f);
            var ran := Lexer.Statements(ParseHeader(m.up).value.body).Success? && f.open;
            var broke := f.script.Broke?;
            && (!ran ==> o.world == w && o.error.Some?)
            && (ran ==>
                  && o.world.schema == w.schema[m.id := if broke then f.script.left else Applied]
                  && o.world.rows == (if HasRow(w.rows, m.id) || f.write == WriteError(false) then w.rows
                                      else w.rows + [Row(m.id, m.up, m.down, broke)])
                  && o.error == (if HasRow(w.rows, m.id) || f.write.WriteError? then Some(Unrecorded)
                                 else if broke then Some(ScriptFailed) else None))
  {
    hide ParseHeader, HasRow, Lexer.Statements;
  }

  /** In a transaction a migration is rolled back and its row removed, or nothing has happened. */
  lemma RollbackInTransaction(w: World, id: string, f: Fate)
    requires HasRow(w.rows, id) ==> !IsNoTransaction(RowOf(w.rows, id).value.down)
    ensures var o := RollbackOne(w, id, f);
            var ready := f.read && HasRow(w.rows, id) && ParseHeader(RowOf(w.rows, id).value.down).Success? && f.open;
            var ran := ready && f.script.AllRan? && f.write.Written?;
            && o.world == (if ran && f.commit != WriteError(false)
                           then World(WithoutRow(w.rows, id), w.schema[id := Absent]) else w)
            && (o.error.None? <==> ran && f.commit.Written?)
            && (ready && f.script.Broke? ==> o.error == Some(ScriptFailed))
  {
    hide ParseHeader, HasRow, WithoutRow;
  }

  /** Outside one, what the script did stays; the row goes or is marked unless the write is lost. */
  lemma RollbackOutsideTransaction(w: World, id: string, f: Fate)
    requires HasRow(w.rows, id) && IsNoTransaction(RowOf(w.rows, id).value.down)
    ensures var o := RollbackOne(w, id, f);
            var body := ParseHeader(RowOf(w.rows, id).value.down).value.body;
            var ran := f.read && Lexer.Statements(body).Success? && f.open;
            var broke := f.script.Broke?;
            && (!ran ==> o.world == w && o.error.Some?)
            && (ran ==>
                  && o.world.schema == w.schema[id := if broke then f.script.left else Absent]
                  && o.world.rows == (if f.write == WriteError(false) then w.rows
                                      else if broke then WithFailed(w.rows, id) else WithoutRow(w.rows, id))
                  && o.error == (if f.write.WriteError? then Some(Unrecorded)
                                 else if broke then Some(ScriptFailed) else None))
  {
    hide ParseHeader, HasRow, Lexer.Statements, WithoutRow, WithFailed, RowOf;
  }

  // ---------------------------------------------------------------------------------------------
  // The cases that later proofs distinguish

  /** The world after a successful apply. */
  function AppliedWorld(w: World, m: Migration): World {
    WithRow(SetStatus(w, m.id, Applied), NewRow(m, false))
  }

  /** w, except that migration id's row and schema state may be anything. */
  ghost predicate SameSchemaElsewhere(v: World, w: World, id: string) {
    forall x :: x != id ==> StatusOf(v, x) == StatusOf(w, x)
  }

  /** The commit did not report an error although it took effect. */
  predicate IsHonest(f: Fate) {
    f.commit != WriteError(true)
  }

  lemma ApplyCases(w: World, m: Migration, f: Fate)
    requires !HasRow(w.rows, m.id)
    ensures var o := ApplyOne(w, m, f);
            && SameSchemaElsewhere(o.world, w, m.id)
            && o.world.rows in {w.rows, w.rows + [NewRow(m, false)], w.rows + [NewRow(m, true)]}
            && (o.error.None? ==> o.world == AppliedWorld(w, m))
            && (o.error != Some(Unrecorded) ==>
                  || o.world == w || o.world == AppliedWorld(w, m)
                  || (o.error == Some(ScriptFailed) && o.world.rows == w.rows + [NewRow(m, true)]))
            && (o.error.Some? && o.error != Some(Unrecorded) && IsHonest(f) ==>
                  o.world == w || (o.error == Some(ScriptFailed) && o.world.rows == w.rows + [NewRow(m, true)]))
  {
    hide ParseHeader;
  }

  /** What one rollback can lead to. */
  ghost predicate IsRollbackCase(w: World, id: string, f: Fate, o: Outcome) {
    && SameSchemaElsewhere(o.world, w, id)
    && o.world.rows in {w.rows, WithoutRow(w.rows, id), WithFailed(w.rows, id)}
    && (o.error.None? ==> o.world == RolledBack(w, id))
    && (o.error != Some(Unrecorded) ==>
          || o.world == w || o.world == RolledBack(w, id)
          || (o.error == Some(ScriptFailed) && o.world.rows == WithFailed(w.rows, id)))
    && (o.error.Some? && o.error != Some(Unrecorded) && IsHonest(f) ==>
          o.world == w || (o.error == Some(ScriptFailed) && o.world.rows == WithFailed(w.rows, id)))
  }

  lemma RollbackInsideCases(w: World, id: string, f: Fate)
    ensures IsRollbackCase(w, id, f, RollbackInside(w, id, f))
  {
    hide WithoutRow, WithFailed;
  }

  lemma RollbackOutsideCases(w: World, id: string, body: string, f: Fate)
    ensures IsRollbackCase(w, id, f, RollbackOutside(w, id, body, f))
  {
    hide WithoutRow, WithFailed;
  }

  lemma RowOfExact(rows: seq<Row>, id: string)
    ensures RowOf(rows, id).Some? <==> HasRow(rows, id)
  {
  }

  lemma RollbackCases(w: World, id: string, f: Fate)
    ensures var o := RollbackOne(w, id, f);
            && IsRollbackCase(w, id, f, o)
            && (o.world != w || o.error.None? ==> HasRow(w.rows, id))
  {
    hide ParseHeader, RollbackInside, RollbackOutside, RolledBack, WithoutRow, WithFailed;
    RowOfExact(w.rows, id);
    RollbackInsideCases(w, id, f);
    if RowOf(w.rows, id).Some? && ParseHeader(RowOf(w.rows, id).value.down).Success? {
      RollbackOutsideCases(w, id, ParseHeader(RowOf(w.rows, id).value.down).value.body, f);
    }
  }

  // ---------------------------------------------------------------------------------------------
  // Rows

  lemma HasRowMember(rows: seq<Row>, id: string)
    ensures HasRow(rows, id) <==> exists r :: r in rows && r.id == id
  {
    if HasRow(rows, id) {
      var i :| 0 <= i < |rows| && rows[i].id == id;
      assert rows[i] in rows;
    }
  }

  lemma {:induction false} WithoutRowContents(rows: seq<Row>, id: string)
    ensures forall r :: r in WithoutRow(rows, id) <==> r in rows && r.id != id
  {
    if rows != [] {
      WithoutRowContents(rows[1..], id);
      assert rows == [rows[0]] + rows[1..];
    }
  }

  lemma {:induction false} WithoutRowMembers(rows: seq<Row>, id: string)
    ensures forall r :: r in WithoutRow(rows, id) <==> r in rows && r.id != id
    ensures !HasRow(WithoutRow(rows, id), id)
    ensures forall x :: x != id ==> (HasRow(WithoutRow(rows, id), x) <==> HasRow(rows, x))
  {
    WithoutRowContents(rows, id);
    forall x | x != id
      ensures HasRow(WithoutRow(rows, id), x) <==> HasRow(rows, x)
    {
      HasRowMember(rows, x);
      HasRowMember(WithoutRow(rows, id), x);
    }
    HasRowMember(WithoutRow(rows, id), id);
  }

  lemma {:induction false} WithoutAbsent(rows: seq<Row>, id: string)
    requires !HasRow(rows, id)
    ensures WithoutRow(rows, id) == rows
  {
    if rows != [] {
      assert forall i :: 0 <= i < |rows| - 1 ==> rows[1..][i] == rows[i + 1];
      WithoutAbsent(rows[1..], id);
    }
  }

  lemma {:induction false} WithoutRowAppend(a: seq<Row>, b: seq<Row>, id: string)
    ensures WithoutRow(a + b, id) == WithoutRow(a, id) + WithoutRow(b, id)
  {
    if a == [] {
      assert a + b == b;
    } else {
      assert (a + b)[1..] == a[1..] + b;
      WithoutRowAppend(a[1..], b, id);
    }
  }

  lemma {:induction false} WithoutRowUnique(rows: seq<Row>, id: string)
    requires UniqueIds(rows)
    ensures UniqueIds(WithoutRow(rows, id))
  {
    if rows != [] {
      assert forall i :: 0 <= i < |rows| - 1 ==> rows[1..][i] == rows[i + 1];
      WithoutRowUnique(rows[1..], id);
      WithoutRowContents(rows[1..], id);
      var t := WithoutRow(rows[1..], id);
      forall i | 0 <= i < |t|
        ensures t[i].id != rows[0].id
      {
        assert t[i] in rows[1..];
      }
    }
  }

  lemma UniqueAppend(rows: seq<Row>, row: Row)
    requires UniqueIds(rows) && !HasRow(rows, row.id)
    ensures UniqueIds(rows + [row])
  {
  }

  lemma WithFailedIds(rows: seq<Row>, id: string)
    ensures RowIds(WithFailed(rows, id)) == RowIds(rows)
    ensures UniqueIds(rows) <==> UniqueIds(WithFailed(rows, id))
    ensures forall x :: HasRow(WithFailed(rows, id), x) <==> HasRow(rows, x)
  {
    var r := WithFailed(rows, id);
    assert forall i :: 0 <= i < |rows| ==> r[i].id == rows[i].id;
  }
}

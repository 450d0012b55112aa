/**
 What the executor's ExecutePlan and the service's calls do to a world, as functions of the fates of the
 statements they send (internal/migrator/custom_executor.go and service.go).
 */
module Calls {
  import opened Text
  import opened Directives
  import opened Ids
  import opened Ledger
  import opened Planner

  function HeadFate(fates: seq<Fate>): Fate {
    if fates == [] then LUCKY else fates[0]
  }

  function TailFates(fates: seq<Fate>): seq<Fate> {
    if fates == [] then [] else fates[1..]
  }

  /** A run of executor calls that stops at the first error; `done` of them succeeded. */
  datatype Batch = Batch(world: World, done: nat, error: Option<Error>)

  function RollbackAll(w: World, ids: seq<string>, fates: seq<Fate>): Batch
    decreases |ids|
  {
    if ids == [] then Batch(w, 0, None)
    else
      var o := RollbackOne(w, ids[0], HeadFate(fates));
      if o.error.Some? then Batch(o.world, 0, o.error)
      else
        var b := RollbackAll(o.world, ids[1..], TailFates(fates));
        b.(done := b.done + 1)
  }

  /** The file migration with this identifier; the last one, should there be several. */
  function Lookup(files: seq<Migration>, id: string): Option<Migration> {
    if files == [] then None
    else
      var last := files[|files| - 1];
      if last.id == id then Some(last) else Lookup(files[..|files| - 1], id)
  }

  function ApplyAll(w: World, ms: seq<Migration>, files: seq<Migration>, fates: seq<Fate>): Batch
    decreases |ms|
  {
    if ms == [] then Batch(w, 0, None)
    else
      match Lookup(files, ms[0].id)
      case None => Batch(w, 0, Some(NotInFiles))
      case Some(m) =>
        var o := ApplyOne(w, m, HeadFate(fates));
        if o.error.Some? then Batch(o.world, 0, o.error)
        else
          var b := ApplyAll(o.world, ms[1..], files, TailFates(fates));
          b.(done := b.done + 1)
  }

  function DropFates(fates: seq<Fate>, n: nat): seq<Fate> {
    if n <= |fates| then fates[n..] else []
  }

  function FateAt(fates: seq<Fate>, k: nat): Fate {
    if k < |fates| then fates[k] else LUCKY
  }

  lemma FatesStep(fates: seq<Fate>, k: nat)
    ensures HeadFate(DropFates(fates, k)) == FateAt(fates, k)
    ensures TailFates(DropFates(fates, k)) == DropFates(fates, k + 1)
  {
  }

  // ---------------------------------------------------------------------------------------------

  predicate HeadSelect(selects: seq<bool>) {
    selects == [] || selects[0]
  }

  /** The identifiers among ids whose stored down script is marked irreversible. */
  function IrreversibleIds(rows: seq<Row>, ids: seq<string>, selects: seq<bool>): Result<seq<string>, Error> {
    if ids == [] then Success([])
    else if !HeadSelect(selects) then Failure(DatabaseError)
    else
      var rest := IrreversibleIds(rows, ids[1..], if selects == [] then [] else selects[1..]);
      match RowOf(rows, ids[0])
      case None => rest
      case Some(row) =>
        match ParseHeader(row.down)
        case Failure(_) => Failure(BadScript)
        case Success(h) =>
          if rest.Failure? || IRREVERSIBLE !in h.directives then rest else Success([ids[0]] + rest.value)
  }

  /** The pre-flight check of a rollback. */
  function EnsureReversible(rows: seq<Row>, ids: seq<string>, selects: seq<bool>): Option<Error> {
    match IrreversibleIds(rows, ids, selects)
    case Failure(e) => Some(e)
    case Success(bad) => if bad == [] then None else Some(Irreversible(bad))
  }

  datatype Execution = Execution(world: World, rolledBack: nat, applied: nat, error: Option<Error>)

  function ExecutePlan(w: World, plan: Plan, files: seq<Migration>, selects: seq<bool>, fates: seq<Fate>): Execution {
    if plan.toRollback == [] && plan.toApply == [] then Execution(w, 0, 0, None)
    else
      match EnsureReversible(w.rows, plan.toRollback, selects)
      case Some(e) => Execution(w, 0, 0, Some(e))
      case None =>
        var b := RollbackAll(w, plan.toRollback, fates);
        if b.error.Some? then Execution(b.world, b.done, 0, b.error)
        else
          var a := ApplyAll(b.world, plan.toApply, files, DropFates(fates, |plan.toRollback|));
          Execution(a.world, b.done, a.done, a.error)
  }

  // ---------------------------------------------------------------------------------------------
  // The service

  /** How a call fares up to its executor calls, and how those fare. */
  datatype CallFate = CallFate(
    entry: bool,       // taking the lock, creating the table, listing the rows
    load: bool,        // reading the files and listing the rows again
    selects: seq<bool>,  // the SELECTs of the pre-flight check
    steps: seq<Fate>)

  datatype Options = Options(allowRollback: bool, allowInterleaved: bool, allowEmptySource: bool)

  /** What a call returns, and the world it leaves. */
  datatype Report = Report(world: World, rolledBack: seq<string>, applied: seq<Migration>, error: Option<Error>)

  function Refused(w: World, e: Error): Report {
    Report(w, [], [], Some(e))
  }

  function FailedIds(rows: seq<Row>): seq<string> {
    if rows == [] then [] else (if rows[0].failed then [rows[0].id] else []) + FailedIds(rows[1..])
  }

  function Take<T>(s: seq<T>, n: nat): seq<T> {
    if n <= |s| then s[..n] else s
  }

  function Executed(plan: Plan, x: Execution): Report {
    Report(x.world, Take(plan.toRollback, x.rolledBack), Take(plan.toApply, x.applied), x.error)
  }

  function Up(w: World, files: seq<Migration>, f: CallFate): Report {
    if !f.entry then Refused(w, DatabaseError)
    else if FailedIds(w.rows) != [] then Refused(w, FailedMigrations(FailedIds(w.rows)))
    else if !f.load then Refused(w, DatabaseError)
    else
      var plan := Plan([], PlanFor(files, RowIds(w.rows), false).toApply, []);
      Executed(plan, ExecutePlan(w, plan, files, f.selects, f.steps))
  }

  /** What the options rule out about a plan: an empty source first, then rollbacks, then interleaved applies. */
  function BlockedBy(plan: Plan, files: seq<Migration>, opts: Options): Option<Error> {
    if |files| == 0 && |plan.toRollback| > 0 && !opts.allowEmptySource then Some(EmptySource(|plan.toRollback|))
    else if |plan.toRollback| > 0 && !opts.allowRollback then Some(Divergence(plan.toRollback))
    else if |plan.interleaved| > 0 && !opts.allowInterleaved then Some(Interleaved(MigrationIds(plan.interleaved)))
    else None
  }

  function ReconcilePlan(w: World, files: seq<Migration>): Plan {
    PlanFor(files, RowIds(w.rows), true)
  }

  function Reconcile(w: World, files: seq<Migration>, opts: Options, f: CallFate): Report {
    if !f.entry then Refused(w, DatabaseError)
    else if FailedIds(w.rows) != [] then Refused(w, FailedMigrations(FailedIds(w.rows)))
    else if !f.load then Refused(w, DatabaseError)
    else
      var plan := ReconcilePlan(w, files);
      match BlockedBy(plan, files, opts)
      case Some(e) => Refused(w, e)
      case None => Executed(plan, ExecutePlan(w, plan, files, f.selects, f.steps))
  }

  /** The last `count` identifiers; all of them when count is not positive or too large. */
  function LastIds(rows: seq<Row>, count: int): seq<string> {
    var n := if count <= 0 || count > |rows| then |rows| else count;
    RowIds(rows)[|rows| - n..]
  }

  /** Rollback; named after the command. */
  function Down(w: World, count: int, f: CallFate): Report {
    if !f.entry then Refused(w, DatabaseError)
    else if FailedIds(w.rows) != [] then Refused(w, FailedMigrations(FailedIds(w.rows)))
    else if !f.load then Refused(w, DatabaseError)
    else
      var ids := LastIds(w.rows, count);
      match EnsureReversible(w.rows, ids, f.selects)
      case Some(e) => Refused(w, e)
      case None =>
        var b := RollbackAll(w, Reverse(ids), f.steps);
        Report(b.world, Take(Reverse(ids), b.done), [], b.error)
  }

  /** The files up to and including this identifier. */
  function MigrationsThrough(files: seq<Migration>, through: string): Option<seq<Migration>> {
    if files == [] then None
    else if files[0].id == through then Some([files[0]])
    else
      match MigrationsThrough(files[1..], through)
      case None => None
      case Some(ms) => Some([files[0]] + ms)
  }

  function NewRows(ms: seq<Migration>): (rows: seq<Row>)
    ensures |rows| == |ms|
  {
    seq(|ms|, i requires 0 <= i < |ms| => NewRow(ms[i], false))
  }

  /** One transaction that inserts a row for each migration. */
  function RecordApplied(w: World, ms: seq<Migration>, f: Fate): Outcome {
    var recorded := w.(rows := w.rows + NewRows(ms));
    if ms == [] then Outcome(w, None)
    else if !f.open then Outcome(w, Some(DatabaseError))
    else if f.write.WriteError? || !UniqueIds(recorded.rows) then Outcome(w, Some(DatabaseError))
    else if f.commit.WriteError? then Outcome(if f.commit.landed then recorded else w, Some(DatabaseError))
    else Outcome(recorded, None)
  }

  function Baseline(w: World, files: seq<Migration>, through: string, f: CallFate): Report {
    if !f.entry then Refused(w, DatabaseError)
    else if w.rows != [] then Refused(w, AlreadyRecorded)
    else if !f.load then Refused(w, DatabaseError)
    else
      match MigrationsThrough(files, through)
      case None => Refused(w, BaselineNotFound)
      case Some(ms) =>
        var o := RecordApplied(w, ms, HeadFate(f.steps));
        Report(o.world, [], if o.error.None? then ms else [], o.error)
  }

  function Forget(w: World, id: string, f: CallFate): Report {
    var forgotten := w.(rows := WithoutRow(w.rows, id));
    var write := HeadFate(f.steps).write;
    if !f.entry then Refused(w, DatabaseError)
    else if write.WriteError? then Refused(if write.landed then forgotten else w, DatabaseError)
    else if !HasRow(w.rows, id) then Refused(w, NotRecorded)
    else Report(forgotten, [], [], None)
  }

  // ---------------------------------------------------------------------------------------------
  // Sequences of calls

  datatype Call =
    | UpCall(files: seq<Migration>, fate: CallFate)
    | ReconcileCall(files: seq<Migration>, opts: Options, fate: CallFate)
    | DownCall(count: int, fate: CallFate)
    | BaselineCall(files: seq<Migration>, through: string, fate: CallFate)
    | ForgetCall(id: string, fate: CallFate)

  function Run(w: World, c: Call): Report {
    match c
    case UpCall(files, f) => Up(w, files, f)
    case ReconcileCall(files, opts, f) => Reconcile(w, files, opts, f)
    case DownCall(count, f) => Down(w, count, f)
    case BaselineCall(files, through, f) => Baseline(w, files, through, f)
    case ForgetCall(id, f) => Forget(w, id, f)
  }

  /** What the loader guarantees about the files that a call is given. */
  predicate FilesOk(files: seq<Migration>) {
    Ascending(MigrationIds(files)) && forall i :: 0 <= i < |files| ==> files[i].id != ""
  }

  predicate CallOk(c: Call) {
    match c
    case UpCall(files, _) => FilesOk(files)
    case ReconcileCall(files, _, _) => FilesOk(files)
    case BaselineCall(files, _, _) => FilesOk(files)
    case _ => true
  }

  function RunAll(w: World, calls: seq<Call>): World
    decreases |calls|
  {
    if calls == [] then w else RunAll(Run(w, calls[0]).world, calls[1..])
  }
}

# A verified model of pg-migrate

pg-migrate keeps the schema of a PostgreSQL database in step with a directory of paired `.up.sql` and
`.down.sql` files, recording what it has applied in a bookkeeping table. This project models its four
connected cores in Dafny and proves properties of them for every script, every run and every pattern of
failures. `dafny verify dfyconfig.toml` checks all of it.

**The statement splitter.** `Lexer` is a reference lexer: one left-to-right pass over the characters of a
script, with no notion of lines as units, no look-behind and no offsets. `Splitter` is the line-by-line
scanner with its index, its look-behind for `E'` and its buffer, proved to return exactly what the reference
lexer defines. `Literals` pins the reference lexer down form by form, and `SplitTheorems`,
`SplitStability`, `SplitConverse` and `SplitDrops` say what splitting means: where scripts are cut, that no text is lost or made up, when statements split into themselves, and what may be thrown
away.

**The ledger.** A `World` is the bookkeeping table in sequence order together with how much of each migration
is in the schema. Every statement sent to the database has a *fate*, a parameter: it may fail, a script may
leave the schema in any state, and a commit or a single write may report an error although it took effect.
`Ledger` and `Calls` say what each executor and service call makes of a world for given fates; `Executor` and
`Service` are the stateful classes, statement by statement and connection by connection, proved to do just
that. `Planner` is the plan. `Guards`, `Shapes`, `Reconciliation`, `Runs`, `Agreement`, `Order`,
`Refusals`, `Success` and `Undo` hold the theorems about calls and about all sequences of calls. `Steps` takes a call apart into looks at the ledger
and executor calls, each of which acts on the database as it finds it.

**The lock.** `Sessions` says what each statement of the lock protocol does to a server session, which
outlives its connection's return to the pool. `PostgresLock` is one process's AcquireLock and ReleaseLock as
written. `LockProtocol` lets any number of processes interleave on one shared database, one statement or one
step of a call at a time, and proves mutual exclusion and that every interleaving amounts to a serial run of
whole calls with the same results, so that the theorems about sequences of calls hold of it.

**The loader.** `Directives`, `Loader` and `TableRef` model the directive header, the directory of pairs and
the quoted table name, and establish what the other cores rely on: sorted, unique, non-empty identifiers and
scripts that can be read later.

`Text` and `Ids` hold strings and the ordering of identifiers.

## Where the code and its documentation differ

The model follows the code. Each difference that matters to a theorem has a lemma.

- A statement does not always split into itself. A no-break space before `E'` counts as part of an identifier
  while scanning but is trimmed off as white space, so on its own the statement opens an escape string.
  `SplitStability.NoBreakSpaceCounterexample` is an instance; `SplitStability.StableExactly` is the exact
  condition.
- `isOnlyComments` stops at a line of 65536 bytes or more and then answers yes
  (`internal/migrator/custom_executor.go`, lines 335-349), so a long statement can be dropped:
  `SplitDrops.LongLineIsDropped`, with the exact condition in `SplitDrops.OnlyCommentsExactly`.
- The plan's BlockedBy is documented as the error Reconcile would return, or nil (`internal/migrator/service.go`,
  lines 51-55), but it looks neither for failed rows nor for irreversible ones. `Undo.BlockedByMisses` is a
  database, one Up away from empty, where it is wrong; `Undo.PlanPredictsExactly` says exactly when it is right.
- A down script naming both `notransaction` and `irreversible` is accepted, contrary to
  `cmd/pg-migrate/new.go`, lines 160-163: `Loader.BothDirectivesAccepted`. `Loader.ParseScriptExact` says exactly
  what is accepted.
- A block marker with irregular spacing below the first line is neither a directive nor a marker of the
  splitter: `Directives.IrregularMarkerPasses`, with the exact condition. The lexer reads it as an ordinary
  comment: `SplitTheorems.IrregularMarkerIsComment`.

- The comment on releaseConn says that settings of a script must not survive in the caller's pool
  (`internal/migrator/custom_executor.go`, lines 881-894), which the code sees to for `notransaction` scripts only.
  A script that commits in a transaction runs on a session that goes back to the pool as it is
  (lines 425-447 and 519-539): `Executor.CustomExecutor.ApplyMigration` states that it then carries the script's
  settings, and `Service.OutsideLeavesNothing` that nothing else leaves any.

## Assumptions

- A failed ROLLBACK, a BEGIN that took effect although it reported an error, and a COMMIT that reported an error
  without ending the transaction each mean that the connection is lost, so that no later statement on it
  succeeds. After a failed COMMIT no ROLLBACK is sent (`internal/db/postgres.go`, lines 276-312), so the clean
  pool rests on this.
- Nothing is assumed of the tables of letters, digits and lower-case forms outside ASCII, except that letters and
  digits are not white space: `Lexer.LETTERS`, `Lexer.DIGITS` and `Loader.LOWER_CASE` may be any.
- The server grants the advisory lock to one session at a time, answers truthfully whether it was held, and
  does not end the session that holds it while a call is running; the code notices that only on release.
- The process does not stop between a `notransaction` script and the write that records it.
- A script does not itself commit the transaction it runs in.

## Model

| member | source | states |
|---|---|---|
| Splitter.MatchDollarTag | internal/migrator/custom_executor.go:107-126 | the loop finds exactly the dollar-quote delimiter that the reference lexer reads at that position, and none where it reads none |
| Splitter.AppendStatement | internal/migrator/custom_executor.go:323-332 | flushing appends the trimmed text, or nothing when there is nothing in it to execute |
| Splitter.ScanToken | internal/migrator/custom_executor.go:189-281 | each iteration of the inner loop reads the same token, and goes to the same state, as the reference lexer, which never looks back |
| Splitter.ScanLine | internal/migrator/custom_executor.go:189-287 | one line, from any scanner state, moves the scanner to where the reference lexer is after it; the loop ends and stays in bounds even when an escaping backslash skips past the line end |
| Splitter.SplitSQLStatements | internal/migrator/custom_executor.go:148-299 | for every script the line-by-line scanner returns exactly the statements, or the unclosed-block error, that the reference lexer defines |
| Literals.SemicolonCuts | internal/migrator/custom_executor.go:219-222 | a semicolon in ordinary text ends the statement it belongs to |
| Literals.PlainLiteralIsUnit | internal/migrator/custom_executor.go:224-242 | '...' with doubled quotes is read whole, whatever else it holds, backslashes, semicolons, comments and markers included |
| Literals.EscapeLiteralIsUnit | internal/migrator/custom_executor.go:224-242 | E'...' where a word can start is read whole, a backslash making a quote or a backslash data |
| Literals.LiteralAfterWord | internal/migrator/custom_executor.go:55-89 | after a letter, digit, underscore or character outside ASCII that is not white space, E' opens a plain literal |
| Literals.LiteralAfterOther | internal/migrator/custom_executor.go:55-89 | after another ordinary character it opens an escape literal |
| Literals.DollarQuoteIsUnit | internal/migrator/custom_executor.go:95-126 | `$name$ text $name$` is read whole for every name of ASCII letters, digits and underscores that does not start with a digit, the empty one included, and every text that the delimiter does not occur in before its end |
| Literals.DollarBeforeDigit | internal/migrator/custom_executor.go:95-126 | a dollar sign before a digit opens nothing |
| Literals.DollarUnclosed | internal/migrator/custom_executor.go:107-126 | nor does one whose name is not followed by another dollar sign |
| Literals.LineCommentIsUnit | internal/migrator/custom_executor.go:211-212 | `--` is read whole to the end of the line, unless the line is a begin marker |
| Literals.BlockCommentIsUnit | internal/migrator/custom_executor.go:262-281 | a block comment is read whole |
| Literals.NestedCommentIsUnit | internal/migrator/custom_executor.go:262-281 | and so is one with another in it, to the end of the outer one |
| Literals.BlockIsUnit | internal/migrator/custom_executor.go:160-190 | from a line that, trimmed, is `-- +migrate StatementBegin` to the next that is `-- +migrate StatementEnd`, all is one segment |
| Literals.UnitIsOneStatement | internal/migrator/custom_executor.go:148-299 | such a unit and a semicolon are one segment |
| SplitTheorems.CutsExactlyAtBoundaries | internal/migrator/custom_executor.go:148-299 | a script without StatementBegin lines is cut after exactly the semicolons that the lexer reads in ordinary text, and nowhere else |
| SplitTheorems.IrregularMarkerIsComment | internal/migrator/custom_executor.go:160-180 | a marker line with other than single spaces in it opens no block: it is read as a line comment |
| SplitTheorems.Conservation | internal/migrator/custom_executor.go:160-298 | every script is its kept stretches with whole marker lines between them, and the flushed segments in order spell exactly the kept stretches |
| SplitStability.FirstSegment | internal/migrator/custom_executor.go:148-299 | a segment of a script, read on its own from the mode it was read in, is one statement |
| SplitStability.SegmentOrigin | internal/migrator/custom_executor.go:148-299 | each segment is where the lexer, started afresh on a suffix of the script, makes its first cut |
| SplitStability.StableExactly | internal/migrator/custom_executor.go:148-332 | a statement from outside a block splits into exactly itself if and only if its first line is not the begin marker and, where white space outside ASCII was trimmed off before `E'`, the text after that quote, read as the inside of an escape string, meets no marker line and no semicolon in ordinary text before its last character |
| SplitStability.OneExactly | internal/migrator/custom_executor.go:148-299 | a text is read as one statement if and only if no marker line and no boundary is met before its last character, and a boundary ends it if and only if that character is one |
| SplitStability.StatementIsStable | internal/migrator/custom_executor.go:148-332 | so it does whenever its first line is not the begin marker and such an `E'` string, if there is one, has no quote that a backslash escapes |
| SplitStability.SameReading | internal/migrator/custom_executor.go:224-242 | a literal without an escaped quote, and all that follows it, is read alike as an escape string and as a plain one |
| SplitStability.ResplitIsIdentity | internal/migrator/custom_executor.go:148-332 | for a script without block markers, joining its statements with line feeds and splitting again gives the same list, if each statement meets the condition of StableExactly and, where another follows, still ends in a boundary |
| SplitConverse.ResplitExactly | internal/migrator/custom_executor.go:148-332 | with lines under the limit, it does so if and only if they do |
| SplitConverse.NeverMarkerFirst | internal/migrator/custom_executor.go:160-180 | whatever such a joined list splits into, the first statement does not begin with the begin marker |
| SplitConverse.ManualBlock | internal/migrator/custom_executor.go:160-180 | a block that ends is its lines, of which none is an end marker, the end marker line, and a rest read as at the start of a script |
| SplitStability.NoBreakSpaceCounterexample | internal/migrator/custom_executor.go:55-89 | a script whose only statement, on its own, does not split into itself |
| SplitDrops.OnlyCommentsExactly | internal/migrator/custom_executor.go:335-349 | isOnlyComments tells the truth about a text if and only if no line of 65536 bytes or more cuts its scan short, and it errs in one direction only |
| SplitDrops.LongLineIsDropped | internal/migrator/custom_executor.go:312-349 | a script that is one statement on one line of 65536 bytes or more splits into nothing, although it is neither blank nor a comment |
| SplitDrops.LongLineExists | internal/migrator/custom_executor.go:335-349 | there is such a statement |
| SplitDrops.LimitIsExact | internal/migrator/custom_executor.go:335-349 | of ASCII lines exactly those of 65536 characters or more are too long |
| SplitDrops.StopsHaveNoStatements | internal/migrator/custom_executor.go:312-332 | a script of white space and semicolons has no statements |
| SplitDrops.DroppedSegmentsAreIdle | internal/migrator/custom_executor.go:312-332 | with lines under the limit, a segment is dropped if and only if it is white space and semicolons or, to the reference lexer reading it in place, white space and line comments |
| Directives.ParseDirectiveHeader | internal/migrator/directives.go:129-181 | the loop over the names yields the directives, body and first error of the header specification |
| Directives.CheckNoLateDirectives | internal/migrator/directives.go:185-196 | the line number reported is that of the first directive below the header, and there is an error only if there is one |
| Directives.HeaderExact | internal/migrator/directives.go:78-181 | a script is accepted if and only if its first line is a well-formed header or nothing like one and no later line is a directive; the body is a suffix of the script, and all of it when no directive is named |
| Directives.HeaderReadsBack | internal/migrator/directives.go:71-181 | a rendered header for any list of known directives parses to exactly those, with all that follows its line as the body |
| Directives.DirectiveByWords | internal/migrator/directives.go:78-107 | of lines of words exactly those that start with `--` and `+migrate`, and do not go on with StatementBegin or StatementEnd, are directives, naming the other words; and which lines look like one |
| Directives.MarkerByWords | internal/migrator/directives.go:78-89 | `-- +migrate StatementBegin` and `-- +migrate StatementEnd` are the markers, and nothing else is |
| Directives.HeaderByWords | internal/migrator/directives.go:129-181 | a header with `notransaction` or `irreversible` in it, letter by letter, makes the script so |
| Directives.HeaderRefused | internal/migrator/directives.go:129-181 | a header without names, or with another name, is refused for the first such name |
| Directives.LateLineFirst | internal/migrator/directives.go:185-196 | the late directive reported is the first |
| Directives.IrregularMarkerPasses | internal/migrator/directives.go:78-115 | a marker line with white space between its words looks like a directive but is none, and it is a marker if and only if there is exactly one space in each place |
| Loader.ParseScriptExact | internal/source/parser.go:19-62 | a script is accepted, trimmed, if and only if it is readable, is irreversible exactly when it is blank below its header, and is irreversible only where that is allowed |
| Loader.BothDirectivesAccepted | internal/source/parser.go:19-62 | a down script that names both directives is accepted |
| TableRef.ReferenceReadsBack | internal/migrator/table.go:37-74 | the rendered reference reads back as the configured schema and name, quotes and dots in them included |
| TableRef.ReferenceIsUnique | internal/migrator/table.go:37-74 | two configurations render alike only if they name the same table |
| TableRef.NameExactly | internal/migrator/table.go:63-74 | a name is accepted if and only if it is not empty, takes at most 63 bytes and has no NUL in it |
| TableRef.ConfigExactly | internal/migrator/table.go:37-58 | a configuration is accepted if and only if its names are, and the table is `migrations` if it names none |
| TableRef.QuotedIdentifierIsInert | internal/migrator/custom_executor.go:244-253 | anywhere in ordinary text a quoted identifier is read as a unit, with no boundary or marker seen in it and ordinary text after it |
| Loader.LoadedPairIsSound | internal/source/parser.go:19-92 | an accepted pair has readable scripts, no irreversible up script, an irreversible down script exactly when its body is blank, and loads again from its stored text as itself |
| Loader.CollectPairs | internal/source/fs.go:132-183 | succeeds if and only if no name is malformed, no half is repeated and no two identifiers differ only in case, and then indexes every half |
| Loader.RoleByName | internal/source/fs.go:132-183 | an entry is the up half of `<id>` if and only if it is a file `<id>.up.sql`, the down half if and only if it is `<id>.down.sql`; directories and names that do not end in `.sql` in any case are skipped, and other names refused |
| Loader.CaseCollides | internal/source/fs.go:132-183 | identifiers that differ in the case of a letter collide |
| Ids.LessByFirstDifference | internal/source/fs.go:187-202 | the first character in which two identifiers differ decides their order, and an identifier comes before its extensions |
| Ids.SortedIds | internal/source/fs.go:187-202 | every identifier once, strictly ascending |
| Loader.ExplainEmptyRoot | internal/source/fs.go:107-129 | an error if and only if a readable subdirectory holds an up script, naming one |
| Loader.GetMigrations | internal/source/fs.go:43-94 | succeeds if and only if the directory is acceptable, every identifier has two halves that parse, and there are migrations or no subdirectory has up scripts; it then returns the strictly ascending list of their pairs |
| Loader.TextsOfFiles | internal/source/fs.go:73-90 | the up script of a loaded migration is the trimmed text of `<id>.up.sql`, and the down script that of `<id>.down.sql` |
| Loader.NamesOfFiles | internal/source/fs.go:132-202 | the loaded identifiers are those of which the directory has such files |
| Loader.LoadIsSound | internal/source/fs.go:43-94 | every loaded list has strictly ascending, non-empty identifiers, no two equal up to case, and only sound migrations |
| Loader.LoadIgnoresOrder | internal/source/fs.go:43-202 | whether loading succeeds, and with what list, does not depend on the order in which the directory and its subdirectories are listed |
| Order.LoadedIsFine | internal/source/fs.go:43-94 | every loaded list meets what the theorems about calls ask of the files |
| Planner.BuildPlan | internal/migrator/planner.go:25-83 | the loops over maps yield the rollbacks in reverse ledger order, the missing migrations in file order and the interleaved among them |
| Planner.PlanOrder | internal/migrator/planner.go:60-80 | to be rolled back are exactly the ledger's entries that no file has, the later entry first; to be applied are exactly the files that the ledger has not, in the order of the files |
| Planner.MaxIdIsMax | internal/migrator/planner.go:43-58 | the running maximum is an upper bound of the identifiers and one of them |
| Planner.InterleavedExactly | internal/migrator/planner.go:43-80 | a migration is interleaved if and only if it is to be applied and sorts before some migration that stays applied |
| Ledger.ApplyCases | internal/migrator/custom_executor.go:409-448 | applying touches one migration; short of ErrUnrecorded it leaves the world unchanged, fully applied with a clean row, or with a failed row |
| Ledger.ApplyInTransaction | internal/migrator/custom_executor.go:425-447 | without `notransaction`, the migration is applied and recorded, or nothing has happened; exactly when which, and what is reported |
| Ledger.ApplyOutsideTransaction | internal/migrator/custom_executor.go:759-800 | with it, what the script did stays, and a row says how it went unless the write is lost; exactly when which |
| Ledger.RollbackCases | internal/migrator/custom_executor.go:492-540 | the same for rolling back, which succeeds only if there is a row |
| Ledger.RollbackInTransaction | internal/migrator/custom_executor.go:513-539 | without `notransaction` in the stored script, the migration is taken back and its row removed, or nothing has happened; exactly when which |
| Ledger.RollbackOutsideTransaction | internal/migrator/custom_executor.go:809-843 | with it, what the script did stays, and the row goes or is marked unless the write is lost |
| Executor.CustomExecutor.ApplyMigration | internal/migrator/custom_executor.go:409-448 | does to ledger and schema what the specification says for every fate, with one connection at a time; one more session carries settings of a script only if a transactional script committed, and then, in a pool without such sessions, one does |
| Executor.CustomExecutor.ApplyInTransaction | internal/migrator/custom_executor.go:425-447 | the part in a transaction: what others see changes at COMMIT only |
| Executor.CustomExecutor.OnPinnedConn | internal/migrator/custom_executor.go:870-897 | the dedicated connection is given up before the caller goes on, and the session with what the script has set there ends, so that no more sessions carry settings than before |
| Executor.CustomExecutor.ApplyWithoutTransaction | internal/migrator/custom_executor.go:759-800 | as ApplyMigration, for a script outside a transaction followed by its row |
| Executor.CustomExecutor.RollbackMigration | internal/migrator/custom_executor.go:492-540 | runs the script stored in the row; ledger and schema end as specified for every fate, and one more session carries settings only if a transactional script committed, and then, in a pool without such sessions, one does |
| Executor.CustomExecutor.RollbackInTransaction | internal/migrator/custom_executor.go:513-539 | the part in a transaction |
| Executor.CustomExecutor.RollbackWithoutTransaction | internal/migrator/custom_executor.go:809-843 | as RollbackMigration, outside a transaction, marking the row on failure |
| Reconciliation.MarkedFailure | internal/migrator/custom_executor.go:848-860 | marking a row of a ledger without failures puts exactly that migration on record as failed, and forgetting it then gives the ledger without its row |
| Executor.InsertEach | internal/migrator/custom_executor.go:460-486 | the insert loop adds a row for each migration, in order, or none if the primary key refuses any |
| Executor.CustomExecutor.RecordApplied | internal/migrator/custom_executor.go:460-486 | all the rows or none, even when the primary key refuses a later one |
| Executor.CustomExecutor.DeleteRecord | internal/migrator/custom_executor.go:565-577 | removes the row and leaves the schema alone, and says whether there was one |
| Executor.CustomExecutor.EnsureReversible | internal/migrator/custom_executor.go:642-680 | the loop names the irreversible candidates of the specification, and changes nothing |
| Guards.IrreversibleIdsExact | internal/migrator/custom_executor.go:642-680 | the candidates named are exactly those whose stored down script is irreversible |
| Guards.ReversibleIsNotRefused | internal/migrator/custom_executor.go:642-680 | with every candidate reversible the check may fail to get its answers, but it refuses nothing |
| Refusals.ReconcileGuardsExactly | internal/migrator/service.go:285-307 | past its own statements and without failures on record, Reconcile returns EmptySource if and only if there are no files, but rows, and that is not allowed; else Divergence, naming exactly the rows that no file has, if and only if there are any and rollbacks are not allowed; else Interleaved if and only if an unrecorded file sorts before a recorded one and that is not allowed; and then nothing has changed |
| Refusals.NothingUnasked | internal/migrator/service.go:285-307 | whatever fails, Reconcile rolls nothing back unless allowed, the old ledger then being a prefix of the new, and does nothing at all for an empty source unless allowed |
| Refusals.NothingLateUnasked | internal/migrator/service.go:301 | unless allowed, it applies nothing that sorts before a recorded migration that stays |
| Refusals.FailedGuardExactly | internal/migrator/service.go:520-545 | Up, Reconcile and Down return FailedMigrations if and only if a row is failed, naming exactly those |
| Refusals.ReportIsInOrder | internal/migrator/custom_executor.go:701-727 | whatever fails, what was rolled back was so in the reverse order of the ledger, and what was applied in ascending order of identifiers; Reconcile rolls back nothing that has a file, and Up nothing |
| Executor.CustomExecutor.RollbackEach | internal/migrator/custom_executor.go:701-712 | rolls back in order and stops at the first error, with the specified world and count |
| Executor.CustomExecutor.ApplyEach | internal/migrator/custom_executor.go:714-727 | applies in order and stops at the first error, with the specified world and count |
| Executor.CustomExecutor.ExecutePlan | internal/migrator/custom_executor.go:686-730 | the pre-flight check, then all rollbacks, then the applies, with the specified world and progress |
| Service.Service.AcquireLock | internal/migrator/service.go:470-485 | refuses a pool of one; otherwise the lock takes one connection until it is released |
| Service.Service.RefuseIfFailed | internal/migrator/service.go:520-545 | an error that names exactly the failed rows, in order, or none |
| Service.Service.Up | internal/migrator/service.go:92-135 | does what the specification says, with at most two connections out at any moment, so that a pool of two never waits for itself; no more sessions are left with settings than transactional scripts of the call took effect |
| Service.Service.BuildReconcilePlan | internal/migrator/service.go:268-280 | the plan that Reconcile would execute on this ledger, and the first guard in its way, with nothing changed |
| Service.Service.Reconcile | internal/migrator/service.go:146-189 | as Up |
| Service.Service.Rollback | internal/migrator/service.go:196-251 | as Up |
| Service.Service.Baseline | internal/migrator/service.go:380-423 | as Up, and no session is left with settings |
| Service.Service.Forget | internal/migrator/service.go:337-362 | as Baseline |
| Service.OutsideLeavesNothing | internal/migrator/custom_executor.go:870-897 | of a call whose scripts all say `notransaction`, no transactional script takes effect |
| Service.MigrationsThrough | internal/migrator/service.go:428-436 | the files up to and including the named one, or nothing if there is no such file |
| Success.ThroughExactly | internal/migrator/service.go:428-436 | there is such a list if and only if a file has the identifier, and it is a prefix of the files that ends with the first such file |
| Success.BaselineExactly | internal/migrator/service.go:380-423 | Baseline succeeds if and only if the ledger is empty, a file has the identifier and no statement fails, and then records exactly the files through it |
| Success.ForgetExactly | internal/migrator/service.go:337-362 | Forget succeeds if and only if there was a row and no statement fails, and removes that row only |
| Success.WorkSucceeds | internal/migrator/custom_executor.go:686-730 | with loaded files and rows, a call that no guard stops succeeds if nothing fails |
| Success.UpSucceeds | internal/migrator/service.go:92-135 | Up in particular, without failures on record |
| Success.DownSucceeds | internal/migrator/service.go:196-251 | and Down, if its candidates are reversible |
| Success.ReconcileSucceeds | internal/migrator/service.go:146-189 | and Reconcile, if what it rolls back is reversible and its options allow what it does |
| Shapes.RollbackAllShape | internal/migrator/custom_executor.go:701-712 | after any batch of rollbacks the ledger is the old one without a prefix of the list, with at most the next row marked |
| Shapes.ApplyAllShape | internal/migrator/custom_executor.go:714-727 | after any batch of applies it is the old one with rows for a prefix of the list, and at most one failed row for the next |
| Reconciliation.ReconcileShape | internal/migrator/service.go:146-189 | whatever fails, RolledBack and Applied are prefixes of the plan, nothing is applied before all rollbacks are done, and the ledger is the old one minus a prefix plus a prefix plus at most one failed row; the prefixes are those reported unless a commit took effect in spite of its error or the error is ErrUnrecorded |
| Reconciliation.ReconcileReachesTarget | internal/migrator/planner.go:60-80 | a successful Reconcile leaves exactly the files' identifiers, in a stated order, and a second one plans nothing |
| Reconciliation.InterruptedOnce | internal/migrator/service.go:146-189 | an interrupted Reconcile leaves at most one failed row; once that is forgotten, another is not blocked, has reversible candidates if the first had, and leads to the same ledger |
| Reconciliation.NotNewlyBlocked | internal/migrator/service.go:285-307 | however far a Reconcile got, none of the guards of BlockedBy that let it start stops it when it is run again |
| Reconciliation.StaysReversible | internal/migrator/custom_executor.go:642-698 | nor does the pre-flight check: the candidates that are left are still reversible |
| Reconciliation.ReadyIsNotRefused | internal/migrator/service.go:146-189 | a Reconcile with no guard in its way returns none of the errors of guards, whatever fails |
| Reconciliation.ReconcileResumes | internal/migrator/custom_executor.go:686-730 | interrupted any number of times in any way, it is not newly blocked and, its candidates being reversible, not refused by any guard, and when it succeeds the ledger has the same identifiers in the same order as after one uninterrupted run |
| Runs.WorkShape | internal/migrator/service.go:92-251 | wherever an Up, Reconcile or Down stops, and that it changes anything only past all its guards |
| Runs.ReportIsExact | internal/migrator/custom_executor.go:686-730 | for Up, Reconcile and Down, short of such a commit and of ErrUnrecorded, the ledger is exactly the old one minus RolledBack plus Applied plus at most one failed row, which only a broken script leaves |
| Runs.AlwaysOrderly | internal/migrator/custom_executor.go:701-727 | after every sequence of calls there is one row per migration and at most one failed row |
| Runs.FrozenWhileFailed | internal/migrator/service.go:520-545 | while a row is failed, every call but Forget fails and changes nothing; Forget of another leaves the failure, and a successful Forget of it clears it |
| Runs.FrozenUntilForgotten | internal/migrator/service.go:520-545 | over every sequence of calls without Forget, a database with a failed row stays exactly as it is |
| Runs.IrreversibleRowsStay | internal/migrator/custom_executor.go:642-698 | a row whose stored down script is irreversible survives every call but Forget of it |
| Runs.IrreversibleRowsOutliveRuns | internal/migrator/custom_executor.go:642-698 | and every run without that Forget |
| Runs.IrreversibleRefuses | internal/migrator/service.go:224-245 | one irreversible candidate and Reconcile or Down changes no row and reports an error and nothing done |
| Steps.IrreversibleRunsNothing | internal/migrator/custom_executor.go:642-698 | and at no step of it does an executor call run a script, even for a reversible candidate |
| Agreement.AgreesAfterWork | internal/migrator/custom_executor.go:759-860 | Up, Reconcile and Down keep ledger and schema in agreement whatever fails, unless they return ErrUnrecorded |
| Agreement.AlwaysAgrees | internal/migrator/custom_executor.go:409-540 | and so does every sequence of them |
| Agreement.AgreesFromNothing | internal/migrator/custom_executor.go:409-540 | in particular from a database that the migrator has not touched |
| Agreement.UnrecordedIsReal | internal/migrator/custom_executor.go:759-800 | the exception is needed: a lost bookkeeping write returns ErrUnrecorded and breaks the agreement |
| Agreement.UnrecordedAgreesExactly | internal/migrator/custom_executor.go:759-800 | after an apply that returned ErrUnrecorded, ledger and schema agree if and only if the row was written after all or the script failed and left nothing |
| Agreement.UnrecordedRollbackAgreesExactly | internal/migrator/custom_executor.go:809-860 | after such a rollback, if and only if the ledger was written after all, the row was failed before, or the script failed and took nothing away |
| Agreement.ForgetAgreesExactly | internal/migrator/service.go:337-362 | Forget keeps the agreement if and only if the migration is out of the schema |
| Agreement.BaselineAgreesExactly | internal/migrator/service.go:380-423 | Baseline brings it about if and only if the schema holds all that is recorded |
| Order.StaysInOrder | internal/migrator/planner.go:43-80 | a call keeps the ledger's identifiers strictly ascending unless it applies interleaved migrations, also when it fails partway |
| Order.AlwaysInOrder | internal/migrator/service.go:285-307 | from an ascending ledger, every run of Reconcile without AllowInterleaved, Down, Baseline, Forget and Up without interleaved migrations keeps it ascending |
| Order.NeverTripsOverAScript | internal/migrator/custom_executor.go:409-540 | with loaded files and rows stored from loaded files, no call fails in a header or in splitting, and the rows it leaves are such rows |
| Order.NeverTripsInARun | internal/source/parser.go:19-92 | nor does any call after any sequence of calls |
| Order.ScriptsAreKept | internal/migrator/custom_executor.go:460-540 | after any call each row has the scripts it had, or is new with those of its file, so that every rollback runs the script stored with the row |
| Undo.DownResult | internal/migrator/service.go:196-251 | a successful Down takes exactly the last rows off, newest first, all of them when the count is not positive or too large |
| Undo.DownComposes | internal/migrator/service.go:196-251 | Down of a and then of b leaves the same ledger and schema as Down of a + b, and as Down of all if either is not positive, which stands for all |
| Undo.UpThenDownRestores | internal/migrator/service.go:92-251 | Up, then Down of as many as it applied, restores the ledger if and only if it applied any or the ledger was empty: for none, the count stands for all, which migrate.go:476-479 keeps callers from |
| Undo.UpThenDownRestoresSchema | internal/migrator/service.go:92-251 | and then, if ledger and schema agreed, the state of every migration in the schema |
| Undo.BaselineThenUp | internal/migrator/service.go:380-436 | Baseline and then Up records the same rows as Up from an empty ledger |
| Undo.PlanPredictsExactly | internal/migrator/service.go:268-307 | for every ledger, BlockedBy foretells what Reconcile does, refuse with that error or run exactly the plan, if and only if no row is failed and it names a guard or every candidate can be read and is reversible |
| Undo.BlockedByMisses | internal/migrator/service.go:268-307 | after Up of an irreversible migration on an empty database, and with its files gone, BlockedBy is nil and Reconcile refuses |
| Undo.IrreversibleMigration | internal/source/parser.go:76-92 | there is such a migration |
| PostgresLock.Postgres.AcquireLock | internal/db/postgres.go:184-219 | succeeds exactly when every statement does and the lock is free; on any failure no session of the pool holds the lock, and pooled sessions are clean either way; the session it used is left as the specification says |
| PostgresLock.Postgres.LockOnConn | internal/db/postgres.go:276-312 | on success the session holds the lock once and nothing of the transaction; on failure, unless the connection is lost, neither a transaction nor a lock_timeout is left, with no ROLLBACK after a failed COMMIT |
| PostgresLock.Postgres.ReleaseLock | internal/db/postgres.go:229-272 | whether or not the server answers, and whether or not the lock was still held, the flags are clear and no session of the pool holds the lock; a lost lock is reported |
| Steps.RollbackStep | internal/migrator/custom_executor.go:701-712 | one rollback on the world that the first k left is the first k + 1, or the end of the batch |
| Steps.ApplyStep | internal/migrator/custom_executor.go:714-727 | the same for applies |
| Steps.AloneEnds | internal/migrator/service.go:92-423 | run by itself, step by step on the database, every call ends, with the database and the results of the call as a whole |
| Steps.AloneIsOrderly | internal/migrator/custom_executor.go:686-730 | between any two steps of a call, too, there is one row per migration and at most one failed row |
| LockProtocol.MutualExclusion | internal/db/postgres.go:184-272 | from the grant of the lock to its release a process is alone |
| LockProtocol.AcquireIsARun | internal/db/postgres.go:184-312 | what AcquireLock does to its session, whatever its statements meet with, is a run of one process of the machine |
| LockProtocol.ServerStep | internal/db/postgres.go:184-333 | every statement of every process, however it fares, keeps what the processes know about their sessions, the clean pool and the single holder |
| LockProtocol.SerialStep | internal/migrator/service.go:470-485 | every step of every process on the shared database keeps it equal to the completed calls plus the steps so far of the one under way, and the results returned equal to those of the serial run |
| LockProtocol.LockIsSound | internal/db/postgres.go:184-333 | for any number of processes, any interleaving and any failures: one process at a time has the lock, idle sessions hold neither the lock nor a transaction nor a lock_timeout, and isLockAcquired holds if and only if lockConn is set to a session that holds it |
| LockProtocol.InterleavingIsSerial | internal/migrator/service.go:470-485 | in every reachable state each completed call has returned what it returns in a serial run of whole calls, and the database is that of this run followed by the first steps of at most one more call, with one row per migration and at most one failed row |

## Left out

- SplitConverse.ResplitExactly: for scripts with a line of 65536 bytes or more only the half that ResplitIsIdentity states, because a long statement that is cut differently may be dropped without a trace.
- Scripts are sequences of characters rather than bytes; invalid UTF-8 is not modelled, and byte lengths are computed where a limit is in bytes.
- A script's statements are not run one by one: a script ran in full, or broke and left the schema in an arbitrary state, which a transaction undoes.
- What a script has set on its session is modelled only as whether it may have set anything, and a transaction that is rolled back as leaving nothing; prepared statements and session-level advisory locks of the script would outlive it.
- Timeouts, cancelled contexts and their deadlines are ordinary errors.
- EnsureMigrationsTable, TableExists, AppliedMigrations and the `applied_at` column.
- The Interleaved and ExtrasLeft fields of Result; they repeat parts of the plan.
- Error messages and logging.
- DSN building, the command line, file scaffolding and the option plumbing of `migrate.go`.

# A verified model of goose's migration engine

goose applies database migrations: it splits annotated SQL files into statements, decides from a
version table which migrations are pending, applies or rolls them back, and keeps several instances
apart with a lock. This project models that logic in Dafny and proves what it promises.
`dafny verify dfyconfig.toml` checks the whole project.

## What is modelled

**The SQL splitter** (`GoStrings`, `Annotations`, `Spellings`, `Semicolons`, `SqlParser`). A file is a sequence of
lines, a line a sequence of characters. The loops of the source are methods, proved against functions
that read the lines one by one; substitution of environment variables is any partial function on
lines. About those functions: exactly which line is
refused and which file is accepted (`MarkOrder`), the Up run and the Down run stay in lockstep and a single pass could
replace them (`OnePass`), exactly which files one direction accepts and the other refuses
(`Disagreement`), printed migrations parse back (`RoundTrip`), no SQL is lost but in one known case
(`Conservation`), exactly when every statement begins with SQL (`StatementStarts`), both told by the lines
alone (`Standings`), one section does not influence the other (`NonInterference`), and substitution is expansion (`Substitution`).

**Planning** (`Collect`, `Versions`, `UpVersions`, `LegacyUp`). The list of migrations that a provider
gets, the plan of versions to apply and its meaning, and the agreement of the newer and the older
planner.

**The engine** (`Migrator`, `Provider`). `Migrator` says on values what each call does to the version
table, the schema and the provider, with any fault at any point: connections, locks, the creation of
the table, statements, transactions. The class `Provider` has the mutex, the connection, the lock and
the single attempt at the table, and is proved to do just that, giving back what it takes on every
path. A schema is any value, a migration any transformation of it that may fail and leave something
behind. Proved about it: what the statements of a migration do in order and what a failing one leaves
(`StatementRuns`), what each call reports and does to the rows (`SingleCalls`), partial failures (`Batches`), the version-table invariant over all runs
(`Traces`), the schema as the replay of the recorded rows (`SchemaReplay`), the absence of gaps
(`NoGaps`), all of these for several providers taking turns (`Fleet`) and interleaved at the level of
single transactions (`Interleaving`), repeated single steps
(`Stepwise`), refusals and options (`Gates`), the older rollback loop (`LegacyDown`) and exactly when it
agrees with the provider (`DownAgreement`), racing creators of the table (`VersionTableRace`) and
interleaved providers (`ConcurrentProviders`).

**The table lock** (`LockRow`, `PostgresStore`, `MySQLStore`, `TableLocker`, `FailedLocks`,
`LeaseProtocol`, `Handover`). The lock row, the four operations of both stores, the locker with its mutex, retries
and heartbeat on either store, what its failed calls leave behind, and the protocol of many instances
on one table with one clock. The locker discards the expiry it is told,
so what each instance has been granted is kept beside the table, as the ghost that safety is about.
A lock that is given up, or whose lease has run out, is granted to the next who asks (`Handover`).

**Docker's multiplexed stream** (`DockerStream`, `FrameHeaders`). The loop that splits a framed byte stream onto two
writers.

## Assumptions

- Each lock statement of PostgreSQL is atomic at one server time. A lock transaction of MySQL is atomic
  too, but the clock may move between its statements. The server's clock never goes back, instance IDs
  are distinct, and the affected rows that MySQL reports are the rows that matched.
- The version table is listed newest row first by its insertion order, and creating a table that
  exists fails, as in PostgreSQL.
- Migrations have distinct positive versions, in any order in the list.
- A lock that providers share excludes. A transaction that fails leaves nothing behind.
- The writers that receive Docker's streams do not fail.

## Where the obvious claim is false

The code is modelled as it is. These claims fail, and what holds instead is proved:

- A `StatementBegin`/`StatementEnd` block with nothing in it leaves the splitter at the end of the
  block; the next line of SQL then disappears and an empty statement takes its place
  (`LineIsSwallowed`). SQL is conserved if and only if no line of SQL is the first text after such a
  block; a whitespace-only line in between takes the loss on itself (`SqlIsConservedByLines`).
- A whitespace-only line counts as the beginning of a statement, so a comment after it becomes
  statement text (`SpaceKeepsComment`). All statements begin with SQL if and only if no text follows an
  empty block and no whitespace-only line meets an empty buffer before more SQL, or the end of a block,
  of its section (`StatementsBeginWithSqlByLines`).
- Either direction accepts a file whose other section is unfinished (`UnfinishedUpIsAccepted`,
  `UnfinishedDownIsAccepted`), and that is, but for failed substitutions, the only way in which one
  direction accepts what the other refuses (`UpRefusesAloneIff`, `DownRefusesAloneIff`).
- Whitespace left over from the Up section makes the Up run substitute variables in comments and empty
  lines of the Down section. So a single pass accepts the same files as the two runs exactly for
  substitutions that fail on no such line (`LeftoverSubstitutes`, `AgreeOnAllFilesIff`).
- With isolated DDL a Go migration that has a function for a transaction only is recorded without being
  run (`RunsWhatItNamesIff`, `RecordedWithoutRunning`).
- With isolated DDL the creation of the table can report success without version 0 in it, after a
  refused first row or in a mere race (`SuccessMeansZeroIff`, `IsolationBreaksIt`).
- A provider whose first attempt at the version table fails never makes another one
  (`NoSecondAttempt`, `FailedAttemptIsFinal`), although the comment on `ensureVersionTable` speaks of
  creating it once. A call can create the missing table if and only if there has been no attempt
  (`TableIsCreatedIff`).
- `DownTo` stops at the newest row at or below its target. It leaves exactly the versions at or below
  the target if and only if none above it was recorded before one at or below it
  (`DownToLeavesExactlyIff`, `DownToCanLeaveHigherVersions`).
- `UpTo` is gated by a check without its target and is refused for a missing version above it
  (`UpToGate`, `UpToRefusedAboveTarget`), although its documentation speaks of versions up to the
  target only.
- A migration outside a transaction takes effect even if its version cannot be recorded
  (`UnrecordedEffectsStay`). A failure leaves no trace, for every fault, if and only if the migration
  runs in a transaction, cannot be run at all, or changes nothing anyway (`FailureLeavesNoTraceIff`).
- The older `DownTo` does not always roll back what the provider's does. It chooses transaction and
  function of a Go migration by one flag for both directions, so a migration with a function for a
  transaction upwards and one without downwards is recorded as rolled back and nothing of it runs
  (`MixedIsNotRun`); and it parses a file downwards alone, where the provider refuses a file whose up
  section does not parse (`DownOnlyFile`). For Go migrations as `NewGoMigration` checks them and without
  isolated DDL, which the older code does not know, the two agree on all tables and faults if and only
  if the provider can prepare every migration and both choose alike (`OlderAgreesIff`, `MixedIff`).
- An `Up` that reports a store failure may have applied its whole plan: the largest version is read once
  more at the end. It has applied all or nothing (`StoreFailureIsAllOrNothing`, `StoreFailureAfterAll`);
  a complete batch is reported as an error if and only if it is no single step and that last reading
  fails (`CompleteBatchFailsIff`).
- A lease protects for all of its duration if and only if that has no fraction of a second that the
  clock can tell (`LeaseProtectsIff`); a lease under a second protects for no time.
- The provider's field comment says that its migrations ascend (provider.go:37-38), but lists of SQL
  files alone come back in the order of the file names (provider_collect.go:125-128). The list ascends if
  and only if there is a Go file, a registered Go migration, or an ascending list of files (`Merge`),
  which names with equally long version numbers give (`PaddedNamesAscend`) and others need not
  (`UnpaddedNamesDescend`). No other proof here relies on the order of the list.
- A failed `Lock` of the table locker can leave the lock taken by this instance: an attempt takes the row,
  its reply is lost, and the next attempt is refused by the very row (`OwnRowRefusesLock`). In general
  the row is this instance's after a failed call if and only if some attempt took it unheard, or it was
  this instance's from the start, and nobody has taken or cleared it since (`FailedLockHoldsIff`); if the
  call is over within one lease, exactly if some attempt took it unheard (`FailedLockTakesIff`).
- A failed `Unlock` may have released the lock: the reply of the release is lost and the next attempt
  finds the row not held (`ReleasedButFailed`). The row is still held if and only if no attempt took place
  and nobody else took or cleared it (`FailedUnlockKeepsIff`).
- `Down` rolls back one migration, but it looks up the migrations of all recorded versions: if any of them
  has none, the call is refused (`CleanDown`).

## Model

| member | source | states |
|---|---|---|
| GoStrings.TrimSpaceSplits | internal/sqlparser/parser.go:369-371 | trimming cuts a string into spaces, a core without outer spaces, and spaces |
| GoStrings.TrimSpaceOfCore | internal/sqlparser/parser.go:369-371 | that cut is the only one: any string between spaces comes back if it has no outer spaces itself |
| GoStrings.BlankIffAllSpace | internal/sqlparser/parser.go:121 | a line trims to nothing exactly when all of its characters are spaces |
| Annotations.Lookup | internal/sqlparser/parser.go:342-350 | an annotation found has the given name up to case; none is found only if no supported name matches |
| Annotations.NamesAreDistinct | internal/sqlparser/parser.go:291-309 | no two supported names are equal up to case, so the unordered iteration over them cannot matter |
| Annotations.LookupFindsName | internal/sqlparser/parser.go:342-350 | every supported name finds its own annotation |
| Annotations.AnnotationRoundTrip | internal/sqlparser/parser.go:319-351 | every annotation in its canonical spelling is recognised as itself |
| Spellings.FoundInEitherCase | internal/sqlparser/parser.go:342-350 | an annotation is found exactly for its own letters, each in either case |
| Spellings.AnySpelling | internal/sqlparser/parser.go:317-351 | an annotation line is read whatever white space stands around its words and in whichever case its letters are, and refused for leading whitespace exactly if it begins with a blank or a tab |
| Spellings.UnknownIsRefused | internal/sqlparser/parser.go:331-350 | a second marker in the line is refused as such, and any other words behind the marker are not supported |
| Spellings.NothingIsRefused | internal/sqlparser/parser.go:337-341 | a line with nothing behind the marker is refused as empty |
| Spellings.LowerCase | internal/sqlparser/parser.go:345 | the line "-- +goose up" is the annotation Up |
| Semicolons.Cut | internal/sqlparser/parser.go:385-391 | the first double dash that begins a word, or the end of the line |
| Semicolons.ScanWords | internal/sqlparser/parser.go:375-394 | the loop over words answers whether the last character before the first comment that is no space is a semicolon |
| Semicolons.CodeDecides | internal/sqlparser/parser.go:375-392 | of a line made of code, spaces and perhaps a comment, the last character of the code decides: it ends a statement exactly if that is a semicolon |
| SqlParser.AcceptText | internal/sqlparser/parser.go:219-255 | buffering a line of the requested section and storing the statement it ends |
| SqlParser.AbsorbLine | internal/sqlparser/parser.go:197-268 | what a line of text, or of a StatementEnd, does to buffer, statements and state, errors included |
| SqlParser.ScanLine | internal/sqlparser/parser.go:116-268 | one round of the line loop is one step of the state machine, for every state, annotation and direction |
| SqlParser.Finish | internal/sqlparser/parser.go:273-286 | the tests at the end of the file |
| SqlParser.ParseSQLMigration | internal/sqlparser/parser.go:103-287 | the whole loop with its text buffer returns the statements, the flag or the first error of the machine that keeps lines |
| SqlParser.FailurePersists | internal/sqlparser/parser.go:116-268 | the first error of a file is its error, whatever follows |
| SqlParser.ParseAll | internal/sqlparser/parse.go:16-44 | both directions in either order: success exactly if both parse, and then their statements and the flag of the Up run |
| MarkOrder.TransitionIff | internal/sqlparser/parser.go:139-192 | an annotation is accepted exactly if it keeps the order: Up first and once, Down at most once, StatementEnd just behind StatementBegin; otherwise it has its own error |
| MarkOrder.RunTells | internal/sqlparser/parser.go:103-262 | the state tells which annotations have been read, and the script runs in a transaction unless a line says NO TRANSACTION |
| MarkOrder.RefusedIff | internal/sqlparser/parser.go:118-232 | exactly which next line is refused and with which error, told by the annotations and the buffer so far |
| MarkOrder.AcceptedIff | internal/sqlparser/parser.go:270-286 | at the end: accepted exactly with an Up, no open block and nothing but white space left over; which error otherwise |
| OnePass.ConsumeInStep | internal/sqlparser/parser.go:197-268 | a line of text keeps the Up run, the Down run and the single pass in step |
| OnePass.StepInStep | internal/sqlparser/parser.go:116-268 | so does every line: either all go on in step, or only an unfinished statement or a failed substitution stops one alone |
| OnePass.Lockstep | internal/sqlparser/parse.go:18-37 | on every file the two runs stay in lockstep while neither fails, and the single pass goes on exactly that far |
| OnePass.RunsAgree | internal/sqlparser/parse.go:18-22 | after the same lines the two runs are in the same state, up to the end of a foreign block, and have the same transaction flag |
| OnePass.OnePassSound | internal/sqlparser/parse.go:18-41 | if both directions parse, the single pass returns their statements and their common flag |
| OnePass.OnePassComplete | internal/sqlparser/parse.go:18-41 | if substitution fails on no skippable line, the single pass succeeds exactly when both directions do |
| OnePass.AgreeOnAllFilesIff | internal/sqlparser/parse.go:18-41 | they agree on all files if and only if substitution fails on no line that may be skipped |
| OnePass.LeftoverSubstitutes | internal/sqlparser/parser.go:200-217 | a file on which they differ: leftover whitespace makes the Up run substitute a comment of the Down section |
| OnePass.DirectionsDisagree | internal/sqlparser/parser.go:145-158 | if one direction alone fails, it is for an unfinished statement or a failed substitution |
| Disagreement.UpRefusesAloneIff | internal/sqlparser/parser.go:145-154 | a file that the Down parse accepts is refused by the Up parse if and only if its Up section ends in an unfinished statement or substitution fails on a line that the Up parse does not skip |
| Disagreement.DownRefusesAloneIff | internal/sqlparser/parser.go:275-284 | a file that the Up parse accepts is refused by the Down parse if and only if it ends in an unfinished Down statement or substitution fails on a line that the Down parse does not skip |
| Disagreement.StepFailsAlone | internal/sqlparser/parser.go:116-268 | a single line fails one run alone only at a Down annotation after an unfinished up statement, or if substitution fails on it |
| Disagreement.UnfinishedUpIsAccepted | internal/sqlparser/parser.go:229-234 | a file whose Up section is unfinished, which the Down parse accepts |
| Disagreement.UnfinishedDownIsAccepted | internal/sqlparser/parser.go:235-240 | a file whose Down section is unfinished, which the Up parse accepts |
| RoundTrip.CleanupIsJoin | internal/sqlparser/parser.go:369-371 | the text of a statement is its lines joined by newlines |
| RoundTrip.FeedBare | internal/sqlparser/parser.go:246-255 | a bare statement, with skipped lines before it, becomes one statement |
| RoundTrip.FeedBlock | internal/sqlparser/parser.go:160-181 | a statement in a block becomes one statement, whatever semicolons it has |
| RoundTrip.PassOnPrinted | internal/sqlparser/parser.go:115-272 | the single pass over a printed migration holds exactly its two lists of statements |
| RoundTrip.PrintedParsesBack | internal/sqlparser/parser.go:93-102 | printing any well-formed up and down statements and parsing per direction returns exactly those lists and the transaction flag |
| Conservation.RunHolds | internal/sqlparser/parser.go:197-268 | for lines taken as they are, with substitution off or without effect: what a run has stored and buffered is, in order, the SQL of its section that was not swallowed |
| Conservation.BlankHasNoContent | internal/sqlparser/parser.go:282-284 | a leftover that trims to nothing holds no SQL |
| Conservation.SqlIsConserved | internal/sqlparser/parser.go:197-268 | for lines taken as they are: each SQL line of the section is in the returned statements once and in file order, if and only if no run meets a line of SQL at the end of an empty block |
| Conservation.ExpandedSqlIsConserved | internal/sqlparser/parser.go:197-268 | with substitution on, if expansion lets every line of the file keep its role: the same for the lines with their variables expanded |
| Conservation.LineIsSwallowed | internal/sqlparser/parser.go:200-209 | any SQL line after an empty block is lost and an empty statement returned |
| Conservation.SpaceKeepsComment | internal/sqlparser/parser.go:200-206 | a whitespace-only line before a leading comment puts the comment into the statement |
| StatementStarts.LineDoes | internal/sqlparser/parser.go:197-268 | what any line does to buffer and statements, and on which occasion |
| StatementStarts.StatementsBeginWithSqlIff | internal/sqlparser/parser.go:197-209 | for lines taken as they are: all returned statements begin with SQL if and only if no text follows an empty block and no whitespace-only line meets an empty buffer before SQL, or the end of a block, of the same section |
| Standings.RunStands | internal/sqlparser/parser.go:197-268 | the lines alone tell whether a run has an unfinished statement, a block, or a finished empty block |
| Standings.SqlIsConservedByLines | internal/sqlparser/parser.go:200-209 | for lines taken as they are: SQL is conserved if and only if no line of SQL is the first text after a block with nothing in it |
| Standings.StatementsBeginWithSqlByLines | internal/sqlparser/parser.go:197-209 | for lines taken as they are: the condition for statements that begin with SQL, told by the lines alone |
| Standings.CommentIsKeptByLines | internal/sqlparser/parser.go:197-206 | for lines taken as they are: a comment or empty line of a file becomes statement text if and only if something has been read of that statement before |
| NonInterference.ErasedRunsAlike | internal/sqlparser/parser.go:228-241 | dropping the text of the other section changes nothing in a run but leftover whitespace |
| NonInterference.OtherSectionIsIgnored | internal/sqlparser/parser.go:228-241 | with substitution off, the result for a direction is the same with the text of the other section dropped, errors included |
| NonInterference.SameSectionSameResult | internal/sqlparser/parser.go:228-241 | files with the same annotations and the same requested section parse alike |
| NonInterference.ErasedExpanded | internal/sqlparser/parser.go:185-241 | dropping the other section and expanding variables may be done in either order |
| NonInterference.OtherSectionIsIgnoredExpanded | internal/sqlparser/parser.go:185-241 | with substitution on, if expansion lets every line of the file keep its role: the text of the other section has no influence, errors included |
| Substitution.RunsExpand | internal/sqlparser/parser.go:185-217 | if expansion lets every line of text of the file that stands where substitution is on keep its role, a run with substitution goes through the states of a run over the expanded file |
| Substitution.SubstitutionIsExpansion | internal/sqlparser/parser.go:185-217 | and parsing with ENVSUB regions is parsing the file with those regions expanded, errors included |
| Collect.Merge | provider_collect.go:116-175 | SQL files alone come back as given; otherwise the call fails exactly for unregistered files or a version taken twice, and returns all migrations; the result ascends if and only if there is something of Go or the files ascend |
| Collect.PaddedNamesAscend | provider_collect.go:42-64 | names in directory order whose version numbers have the same length have ascending versions |
| Collect.UnpaddedNamesDescend | provider_collect.go:116-128 | two names in directory order whose versions descend |
| Versions.SortIsOrdered | internal/gooseutil/resolve.go:25-27 | sorting gives an ascending rearrangement |
| Versions.AscendingIsUnique | internal/gooseutil/resolve.go:25-27 | and there is only one |
| Versions.SortInPlace | internal/gooseutil/resolve.go:27 | the caller's list is sorted in place |
| Versions.SortedIsFixed | internal/gooseutil/resolve.go:80-81 | sorting an ascending list changes nothing |
| UpVersions.DbMax | internal/gooseutil/resolve.go:31-37 | the largest applied version, at least zero |
| UpVersions.LookupApplied | internal/gooseutil/resolve.go:29-37 | the map holds exactly the applied versions, and the maximum is theirs |
| UpVersions.CollectMissing | internal/gooseutil/resolve.go:45-53 | the first loop collects the unapplied versions below the maximum and up to the target, in order |
| UpVersions.AppendNewer | internal/gooseutil/resolve.go:71-79 | the second loop appends those above the maximum |
| UpVersions.ResolveUpVersions | internal/gooseutil/resolve.go:19-84 | the whole function returns the plan or the missing versions, and leaves its argument sorted |
| UpVersions.MissingThenNewer | internal/gooseutil/resolve.go:66-81 | missing before new is already ascending, so the last sort has nothing to do |
| UpVersions.UpPlanMeaning | internal/gooseutil/resolve.go:19-84 | for positive versions in any order: failure exactly if out-of-order is off and an unapplied version up to the target lies below an applied one; else the unapplied versions up to the target, ascending, each as often as given |
| UpVersions.PlanMeaning | internal/gooseutil/resolve.go:19-84 | for distinct versions the plan is the ascending list of the unapplied versions up to the target |
| UpVersions.RefusalListsMissing | internal/gooseutil/resolve.go:45-64 | a refused call lists exactly the out-of-order versions, ascending |
| UpVersions.PlanTail | internal/gooseutil/resolve.go:19-84 | once the first versions of a plan are recorded, the plan is the rest of it |
| LegacyUp.CollectMigrations | migrate.go:129-173 | the migrations between zero and the target, sorted |
| LegacyUp.FindMissingMigrations | up.go:206-221 | the unknown versions below the maximum, sorted |
| LegacyUp.PlanUpTo | up.go:46-106 | the older planner returns the plan of UpVersions and fails for the same missing versions |
| LegacyUp.PlansAgree | up.go:74-106 | filtering before or after sorting and looking for missing versions gives the same lists |
| LegacyUp.SortCommutesWithFilter | migrate.go:196-204 | filtering by version commutes with sorting |
| Migrator.Unprepared | provider_run.go:129-133 | none is reported exactly if every migration of the batch can be prepared |
| Batches.AppliedIsPrefix | provider_run.go:150-188 | the versions listed as applied are the beginning of the batch, and the failed one is the next |
| Batches.BatchRecordsApplied | provider_run.go:243-257 | the version table changes by exactly the versions listed as applied |
| Batches.FailureLeavesNoTrace | provider_run.go:213-219 | a transactional migration that fails changes neither schema nor table |
| Batches.FailureLeavesNoTraceIff | provider_run.go:203-241 | a failure leaves no trace, on every database and for every fault, if and only if the migration runs in a transaction, cannot be run at all, or changes nothing anyway |
| Batches.UnrecordedEffectsStay | provider_run.go:221-239 | outside a transaction a migration that cannot be recorded has taken effect |
| Batches.BatchStopsAtLastSuccess | provider_run.go:150-188 | a batch of transactional migrations stops in the state that its last successful one left |
| Batches.PartialFailure | provider_run.go:127-188 | a migration that cannot be prepared stops everything; a PartialError lists exactly the migrations before the failed one, and the database is as they left it |
| Batches.CompleteBatchFailsIff | provider_run.go:96-201 | which error follows which outcome; a batch applied to its end is reported as an error if and only if it is no single step and the largest version cannot be read afterwards |
| Batches.UpBatchRows | provider_run.go:243-257 | an upward batch appends its applied versions |
| Batches.DownBatchRows | provider_run.go:243-257 | a batch that rolls back the newest rows removes exactly those |
| Batches.DownPlanMeaning | provider.go:454-464 | the downward plan is the newest rows, newest first, down to the first at or below the target |
| Batches.FindAllMeaning | provider_run.go:416-423 | the migrations found for a plan carry its versions; none is found only if some version is unknown |
| StatementRuns.PathExists | provider_run.go:520-532 | from every state the statements of a migration go through a path of states |
| StatementRuns.RunMeaning | provider_run.go:203-275 | one migration, for every fault: its statements or its one function run in order, each on what the one before has left; when the run succeeds, and what a failure leaves in a transaction and outside of one |
| StatementRuns.RunsOrFails | provider_run.go:427-445 | a migration that does not parse or has no mode fails and changes nothing |
| StatementRuns.PreparesIffRuns | provider_run.go:26-70 | a migration can be prepared exactly if it can be run, and in a transaction if it is a Go migration where the session lock has the only connection |
| StatementRuns.RemovedAlone | provider_run.go:243-257 | deleting a version takes out its row and keeps the order of the others |
| StatementRuns.RunMigrationsMeaning | provider_run.go:96-201 | a call runs its migrations in order, each on what the one before has left, and reports those that succeeded |
| Traces.CallIsTrace | provider.go:244-516 | every call, faults included, is a sequence of small allowed steps; all but ApplyVersion go in order |
| Traces.TraceKeepsTable | provider_run.go:203-257 | such sequences keep version 0 first, once, and all versions distinct |
| Traces.TableStaysGood | provider_run.go:358-412 | for one provider, over all calls and faults, the table is absent or begins with version 0, which is never removed, and records no version twice |
| SchemaReplay.StepReplays | provider_run.go:203-257 | each small step keeps the schema equal to the replay of the rows |
| SchemaReplay.SchemaIsReplay | provider.go:412-466 | after any run of Up, UpTo, UpByOne, Down and DownTo, failures and out-of-order included, the schema is the ups of the recorded rows in insertion order |
| SchemaReplay.DownToZeroRestores | provider.go:338-343 | from an untouched database, any such run and then a DownTo(0) that succeeds restores the schema |
| SchemaReplay.DownToSucceedsIff | provider.go:412-466 | a DownTo without faults succeeds if and only if the version table is there or can still be created |
| SchemaReplay.RunThenDownToZero | provider.go:338-343 | so from an untouched database, after any such run, a DownTo(0) without faults succeeds unless the only attempt at the table has failed, and then restores the schema |
| SchemaReplay.RunMigrationsDown | provider_run.go:96-201 | a downward batch that succeeds has removed exactly its rows |
| NoGaps.TableIsGapless | provider.go:347-410 | after any calls but ApplyVersion the table is version 0 and an ascending prefix of the sorted migrations |
| NoGaps.DownToLeaves | provider.go:454-465 | what a successful DownTo rolls back and leaves |
| NoGaps.DownToLeavesExactlyIff | provider.go:454-465 | it leaves exactly the versions at or below its target if and only if none above stands before one at or below |
| NoGaps.GaplessBuriesNothing | provider.go:454-465 | which is so in every table without gaps |
| NoGaps.DownToAfterAnyCalls | provider.go:338-343 | after any calls but ApplyVersion, partial failures included, a successful DownTo leaves exactly the applied versions at or below its target |
| NoGaps.DownToCanLeaveHigherVersions | provider.go:454-465 | an out-of-order run that DownTo does not take back |
| SingleCalls.RefusedAtOnce | provider.go:223-345 | calls with an impossible version, without a connection or without the lock fail as such and change nothing |
| SingleCalls.RefusedAfterCheck | provider.go:347-410 | the same for an upward call once something has been found pending |
| SingleCalls.RefusedOnTable | provider.go:412-487 | what a downward or single call reports on a table that it cannot read or that has no rows, without any change |
| SingleCalls.MissingAreListed | provider.go:391-399 | an upward call refused for missing migrations lists exactly the out-of-order versions, those above its target included |
| SingleCalls.DownMeaning | provider.go:308-330 | on a good table, for every environment: a Down that succeeds returns exactly the version of the newest row, removes that row alone and runs its migration alone; one that fails keeps the rows |
| SingleCalls.CleanDown | provider.go:412-466 | Down without faults in full: NoNextVersion exactly if the newest row is 0, and a refusal exactly if any recorded version has no migration |
| SingleCalls.ApplyMeaning | provider.go:223-241 | for every environment: an ApplyVersion that succeeds returns that version, has run all its statements in order, and has appended its row or taken it out; one that fails keeps the rows |
| SingleCalls.CleanApply | provider.go:468-516 | ApplyVersion without faults in full: AlreadyApplied exactly if the version is recorded, NotApplied exactly if it is not |
| SingleCalls.UpToMeaning | provider.go:291-300 | for every environment: an UpTo that succeeds returns and appends exactly the unrecorded versions up to its target, ascending; one that fails has appended the least of them |
| SingleCalls.UpMeaning | provider.go:244-253 | an Up that succeeds has appended all unrecorded versions, ascending |
| SingleCalls.UpByOneMeaning | provider.go:257-285 | an UpByOne that succeeds has appended the least unrecorded version alone; NoNextVersion only if there is none, and without faults exactly then |
| Fleet.FleetKeepsTable | provider_run.go:277-336 | for any number of providers with migrations of their own, taking turns under the lock and checking for pending migrations without it: the same invariant over all turns and faults |
| Fleet.FleetIsGapless | provider.go:347-410 | with the same migrations and without ApplyVersion, their table has no gaps |
| Fleet.FleetReplays | provider.go:412-466 | and if downs undo ups, the schema is the replay of the recorded rows |
| Interleaving.EventIsStep | provider_run.go:277-336 | each event of any provider, unlocked creation of the table included, leaves the database alone or is an allowed step, and the lock holder's remaining work goes on to fit the table |
| Interleaving.InterleavingKeepsTable | provider_run.go:338-356 | over every interleaving of single transactions of any number of providers with migrations of their own, faults included: version 0 stays first and no version is recorded twice |
| Interleaving.InterleavingIsGapless | provider.go:347-410 | with the same migrations and without ApplyVersion, no gaps at any moment |
| Interleaving.InterleavingReplays | provider.go:412-466 | and if downs undo ups, the schema is the replay of the rows at any moment |
| Interleaving.RunNextsAreBatch | provider_run.go:150-188 | a lock holder that runs its work runs the batch of the engine |
| Stepwise.CleanUp | provider.go:244-253 | from any state: what a successful Up without faults has done, the table created first if need be |
| Stepwise.OneMore | provider.go:257-284 | the i-th UpByOne applies the i-th migration of the plan |
| Stepwise.UpByOnesAreUp | provider.go:257-284 | if Up succeeds, from any state, the first call of a provider included, repeating UpByOne applies what Up applies in the same order, then reports that there is no next version and leaves the state that Up leaves |
| Gates.PendingIffStatusPending | provider.go:545-589 | for any state and environment: how the check fails before it can plan; then it fails exactly for an out-of-order version that is refused, and otherwise is true exactly if the status shows a pending migration |
| Gates.UpToGate | provider.go:291-300 | from any state: UpTo is refused exactly for a missing version anywhere, its own plan only for one up to the target |
| Gates.UpToRefusedAboveTarget | provider.go:291-300 | a table on which the two differ |
| Gates.StoreFailureIsAllOrNothing | provider.go:347-410 | an upward call on a table that is there and that reports a store failure has applied all of its plan or nothing |
| Gates.StoreFailureAfterAll | provider_run.go:190-199 | and both happen with the same error |
| Gates.RunsWhatItNamesIff | provider_run.go:478-503 | a migration runs the functions it names unless DDL is isolated and it has one for a transaction |
| Gates.RecordedWithoutRunning | provider_run.go:221-233 | such a migration is recorded and nothing of it runs |
| Gates.NoSecondAttempt | provider_run.go:352-355 | once its only attempt at the table has failed, no call of a provider succeeds or changes anything |
| Gates.TableIsCreatedIff | provider_run.go:338-356 | a call can create the missing table if and only if the provider has not tried before |
| Gates.FailedAttemptIsFinal | provider_run.go:338-356 | a failed first attempt leaves no table, after any further calls |
| Gates.FourAttempts | provider_run.go:338-414 | at most four attempts at the table: it is created exactly if all statements of one succeed and no check up to it fails; one that is there is accepted exactly if an attempt finds it |
| Gates.EnsuredHasZero | provider_run.go:394-406 | without isolated DDL, success leaves version 0 in the table |
| Gates.SuccessMeansZeroIff | provider_run.go:385-406 | and that is so for all faults if and only if DDL is not isolated |
| VersionTableRace.ExactlyOneZero | provider_run.go:342-355 | however creators race and fail, the table is absent or has one row, for version 0 |
| VersionTableRace.LosersRetry | provider_run.go:342-355 | racing alone makes no creator fail |
| VersionTableRace.IsolationBreaksIt | provider_run.go:385-393 | with isolated DDL a creator can report success on an empty table |
| VersionTableRace.AloneIsTryEnsure | provider_run.go:358-412 | a creator that nobody gets in the way of does what the engine's attempts do |
| ConcurrentProviders.NextKeepsExclusive | provider_run.go:277-336 | each step keeps one provider at most past the lock and its work unrecorded |
| ConcurrentProviders.NeverTwice | provider.go:347-410 | over every interleaving of any number of providers, failures included, no version is recorded twice |
| ConcurrentProviders.AlwaysOnPlan | provider.go:385-409 | the lock holder's remaining work is the current plan, because it was made under the lock |
| ConcurrentProviders.OneUpDoesAll | provider.go:244-253 | an Up that comes to its end leaves nothing pending |
| ConcurrentProviders.LaterHoldersDoNothing | provider.go:385-409 | once nothing is pending no later lock holder records anything |
| ConcurrentProviders.AloneIsUp | provider.go:244-253 | a provider that nobody gets in the way of does the Up of the engine |
| LegacyDown.LegacyStore.EnsureDBVersion | migrate.go:237-250 | the scan returns the newest applied row whose version has no newer row, and fails exactly if there is none |
| LegacyDown.LegacyStore.DeleteVersion | migration.go:345-357 | all rows of a version are deleted |
| LegacyDown.RunDown | migration.go:214-290 | one migration run downwards by the flag that the older code reads, and its version deleted, is a run of the engine |
| LegacyDown.RollBackOnce | down.go:64-88 | one round stops at the target, or at version 0, or rolls back the newest row |
| LegacyDown.DownToContext | down.go:51-89 | the loop ends, and is the provider's precomputed plan with each migration run as the older code runs it, up to the first failure |
| DownAgreement.AlikeAgrees | provider.go:412-466 | without isolated DDL, if the provider can prepare every migration and both codes choose alike, the older and the newer DownTo report the same and leave the same database |
| DownAgreement.OlderAgreesIff | provider.go:412-466 | without isolated DDL and for Go migrations as NewGoMigration checks them, they do so on every table of distinct applied rows with migrations, for every target and fault, only then |
| DownAgreement.MixedIff | migration.go:37-80 | with a function for each direction, the choices for the down function differ exactly if the up function alone is for a transaction |
| DownAgreement.MixedIsNotRun | migration.go:240-280 | such a migration is rolled back by the older code without running its down function, which the provider runs |
| DownAgreement.DownOnlyFile | migration.go:214-229 | a file that parses downwards alone is rolled back by the older code and refused by the provider |
| Provider.Provider.RunCleanup | provider_run.go:283-328 | cleaning up frees the mutex and the connection, and tries one unlock if a lock was taken |
| Provider.Provider.TryEnsureVersionTable | provider_run.go:358-412 | at most four attempts, ending at the first that settles or cannot be retried |
| Provider.Provider.Initialize | provider_run.go:277-336 | on success mutex, connection and lock are held once; on failure nothing is |
| Provider.Provider.RunIndividually | provider_run.go:203-275 | all or nothing in a transaction, effects that stay outside of one |
| Provider.Provider.PrepareAll | provider_run.go:129-133 | the first migration that cannot be prepared |
| Provider.Provider.RunMigrations | provider_run.go:96-201 | prepares the whole batch, runs it up to the first failure, and reports what was applied |
| Provider.Provider.HasPending | provider.go:545-589 | the pending check takes no lock and gives everything back |
| Provider.Provider.UpInternal | provider.go:347-410 | plans on the table as it is under the lock |
| Provider.Provider.PlanDown | provider.go:454-464 | the loop over the newest rows returns the migrations of the downward plan, or fails at the first unknown version |
| Provider.Provider.DownInternal | provider.go:412-466 | rolls back that plan, and never version 0 |
| Provider.Provider.ApplyInternal | provider.go:468-516 | applies or rolls back one version, or refuses what is already or not yet applied |
| Provider.Provider.Call | provider.go:223-343 | every call does to database and provider what its specification says, and on every path ends with the mutex free, the connection closed and one unlock tried per lock taken |
| Provider.Provider.StatusAll | provider.go:609-643 | the statuses of all migrations, or the failure of the first lookup that fails, with the same balance |
| PostgresStore.PostgresStore.AcquireLock | lock/internal/store/postgres.go:84-132 | the lock is granted exactly if the row is absent, unlocked or expired; the row and the returned expiry; a lost reply |
| PostgresStore.PostgresStore.ReleaseLock | lock/internal/store/postgres.go:134-173 | exactly the holder clears the row |
| PostgresStore.PostgresStore.UpdateLease | lock/internal/store/postgres.go:175-210 | exactly the holder of a locked row renews it, expired or not |
| PostgresStore.PostgresStore.CleanupStaleLocks | lock/internal/store/postgres.go:238-269 | exactly the stale rows are cleared and their IDs returned, each once |
| MySQLStore.MySQLStore.AcquireLock | lock/internal/store/mysql.go:86-165 | insert-ignore, guarded update and read-back give the row and outcome of the single statement at the time of the writing one; a failed transaction leaves the row |
| MySQLStore.MySQLStore.ReleaseLock | lock/internal/store/mysql.go:167-211 | the row and outcome of the single statement, or no change |
| MySQLStore.MySQLStore.UpdateLease | lock/internal/store/mysql.go:213-262 | the row and outcome of the single statement, or no change |
| MySQLStore.MySQLStore.CleanupStaleLocks | lock/internal/store/mysql.go:290-346 | select-for-update and clear-by-IDs clear exactly the rows of the single update and return exactly their IDs |
| TableLocker.DecisionMeaning | lock/internal/table/locker.go:92-109 | the deciding attempt is the first that succeeds or is not retried, or the last |
| TableLocker.AcquiringWrites | lock/internal/table/locker.go:92-94 | a successful attempt has written this instance's row, with the expiry it was told, at the time of the writing statement |
| TableLocker.Locker.AcquireOnce | lock/internal/table/locker.go:93 | one attempt on either store, with its rows, result and time |
| TableLocker.Locker.ReleaseOnce | lock/internal/table/locker.go:147 | one release on either store |
| TableLocker.Locker.CleanupOnce | lock/internal/table/locker.go:96 | one clean-up on either store, whatever comes of it |
| TableLocker.Locker.StopHeartbeat | lock/internal/table/locker.go:213-220 | afterwards no heartbeat runs |
| TableLocker.Locker.StartHeartbeat | lock/internal/table/locker.go:173-210 | afterwards exactly one heartbeat runs |
| TableLocker.Locker.Beat | lock/internal/table/locker.go:190-208 | a tick renews the lease if it can, and nothing else |
| TableLocker.Locker.Lock | lock/internal/table/locker.go:81-130 | on either store: success exactly if the deciding attempt acquires: then the row is this instance's, the mutex is held and one heartbeat runs; after a failure neither, and the rows are as the deciding attempt and its clean-up left them |
| TableLocker.Locker.Unlock | lock/internal/table/locker.go:134-170 | the heartbeat is stopped and the mutex freed on every path; success exactly if the deciding attempt finds the row held by this instance and hears of its release; the rows are as that attempt leaves them |
| FailedLocks.FailedAttemptHoldsIff | lock/internal/table/locker.go:92-109 | after a failed attempt the row is this instance's if and only if the attempt took it unheard or it was before, and the clean-up has not cleared it |
| FailedLocks.FailedLockHoldsIff | lock/internal/table/locker.go:92-118 | after a failed Lock it is so if and only if some attempt took it unheard, or it was this instance's from the start, and nobody has taken or cleared it since |
| FailedLocks.FailedLockTakesIff | lock/internal/table/locker.go:92-118 | for a call over within one lease by an instance without the row: if and only if some attempt took it unheard, and then under the lease of that attempt |
| FailedLocks.OwnRowRefusesLock | lock/internal/table/locker.go:92-118 | two attempts: the second is refused by the row that the first took unheard, although its own reply is not lost |
| FailedLocks.OthersAreUndisturbing | lock/internal/store/postgres.go:84-269 | whatever other instances, clean-ups and the clock do in between, they write nothing under this instance's name and leave its unexpired lease |
| FailedLocks.FailedUnlockHoldsIff | lock/internal/table/locker.go:147-163 | after a failed Unlock the row is this instance's if and only if it was before the deciding attempt and that did not take place |
| FailedLocks.FailedUnlockKeepsIff | lock/internal/table/locker.go:147-163 | and so from the first attempt on: if and only if no attempt took place and nobody else has taken or cleared the row |
| FailedLocks.ReleasedButFailed | lock/internal/table/locker.go:147-163 | two attempts: the first releases unheard, the second finds the row not held, and the call fails |
| LeaseProtocol.LeaseIsKept | lock/internal/store/postgres.go:84-269 | no step of any instance or of the clock breaks a lease that is relied on |
| LeaseProtocol.LeaseSafety | lock/internal/store/postgres.go:84-269 | over every interleaving of the statements of one store and the two-time transactions of the other, lost replies included, a granted lease that has neither passed nor been given up is in the table under its holder's name with an expiry no earlier |
| LeaseProtocol.MutualExclusion | lock/internal/table/locker.go:81-130 | no two instances ever rely on a lease of one lock |
| LeaseProtocol.GrantedIsExact | lock/internal/table/locker.go:91-94 | if no reply is lost, the expiry in the table is the granted one |
| LeaseProtocol.HeartbeatHolds | lock/internal/table/locker.go:173-210 | while renewals land in time the row stays locked until a lease after the last of them |
| LeaseProtocol.HeartbeatGuarantee | lock/internal/table/locker.go:173-210 | between Lock and Unlock, if each renewal lands within the lease in whole seconds of the one before, nobody else acquires, releases or clears the row, on every trace |
| LeaseProtocol.TakenOverIff | lock/internal/store/postgres.go:91-100 | without renewal another instance can take the lock exactly when the lease in whole seconds has passed |
| LeaseProtocol.LeaseProtectsIff | lock/internal/store/postgres.go:271-274 | a lease protects for all of its duration if and only if that has no fraction of a second |
| Handover.GrantedIff | lock/internal/store/mysql.go:86-165 | an instance that asks gets the lock exactly if there is no row, the row is unlocked or its lease has passed; what the row and the grant then are, and that nothing changes otherwise |
| Handover.StaysFree | lock/internal/store/postgres.go:185-195 | a free row stays free until somebody takes it |
| Handover.ReleaseFreesIff | lock/internal/store/postgres.go:134-173 | a release frees the row exactly if it takes place and the instance holds it |
| Handover.CleanupFreesIff | lock/internal/store/postgres.go:238-269 | a clean-up frees a locked row exactly if it takes place and the lease has passed, and leaves all others |
| Handover.HandedOver | lock/internal/store/postgres.go:84-173 | a lock that is released, or whose stale row is cleaned up, is granted to the next who asks, over every interleaving |
| Handover.LostHolderIsReplaced | lock/internal/store/postgres.go:91-100 | without a renewal a lock is granted to whoever asks once its lease has passed, over every interleaving |
| Handover.RenewedIff | lock/internal/store/postgres.go:175-210 | a renewal is granted exactly if the row is locked by the instance |
| Handover.CallSucceedsIff | lock/internal/table/locker.go:81-171 | Lock and Unlock succeed exactly if one attempt finds what it needs in the rows and is heard of, and the policy retries the errors before it |
| Handover.LockAfterUnlock | lock/internal/table/locker.go:81-171 | after a successful Unlock, with the rows left alone, the first attempt of a Lock that is heard of succeeds, for every instance on either store |
| DockerStream.BigEndianInjective | pkg/dockermanage/manager.go:389 | the size field is read in big-endian order, without loss |
| DockerStream.SplitsIntoFrames | pkg/dockermanage/manager.go:370-372 | every stream is a list of whole frames and a rest that begins with none |
| DockerStream.SplitIsUnique | pkg/dockermanage/manager.go:370-372 | in one way only |
| DockerStream.AcceptedIffWholeFrames | pkg/dockermanage/manager.go:380-403 | nothing is left of a stream exactly if it is a concatenation of whole frames |
| DockerStream.RoundDelivers | pkg/dockermanage/manager.go:382-402 | what one round delivers and what the rest of the stream delivers make up what the stream delivers |
| DockerStream.Reader.ReadFull | pkg/dockermanage/manager.go:383-388 | reading a header: no byte is the end, some bytes an error |
| DockerStream.Reader.CopyN | pkg/dockermanage/manager.go:399-401 | copying a payload, or what there is of it and then an error |
| DockerStream.DemuxFrame | pkg/dockermanage/manager.go:382-402 | one round of the loop takes one frame and hands its payload to the right writer |
| DockerStream.DemuxDockerStream | pkg/dockermanage/manager.go:378-403 | success exactly if the stream is whole frames; each writer, also one that serves as both, has received the payloads of its frames in order, and on failure what arrived of the last |
| FrameHeaders.SizesCompare | pkg/dockermanage/manager.go:389 | one header announces a smaller payload than another exactly if its size bytes come first |
| FrameHeaders.SizeIsUnique | pkg/dockermanage/manager.go:389 | with its bounds that order leaves one reading of the four bytes only |
| FrameHeaders.FrameIsDelivered | pkg/dockermanage/manager.go:382-402 | for any header bytes: the payload goes to the writers of its kind and to no others, and the stream goes on behind it |
| FrameHeaders.CutFrameIsDelivered | pkg/dockermanage/manager.go:399-401 | a payload that is cut off is delivered as far as it goes, and the stream is not accepted |
| FrameHeaders.KindsOfWriters | pkg/dockermanage/manager.go:390-398 | kind 1 goes to stdout, kind 2 to stderr, every other kind nowhere |
| FrameHeaders.OutputAndError | pkg/dockermanage/manager.go:378-403 | what two frames, written out, deliver |

## Left out

- SQL text, drivers and dialect queries: the store is a list of rows with insertion at the end, deletion by version, listing, lookup and maximum.
- ClickHouse and Spanner, which list by version and not by insertion, and the dialects that create a table only if it does not exist: reverse application and the race for the table are stated for the others.
- Logging, durations, result texts, error wording, context cancellation and panics of Go migrations; a heartbeat that is cancelled is one that ticks no more.
- Errors of the clean-up itself (a rollback, an unlock, closing a connection): they are added to the result and change no state here.
- The insides of go-retry: a call makes at most one attempt more than its threshold; the waiting and the jitter are passing time.
- Versioning switched off, in both APIs: there is no table then and nothing to agree with.
- Finding files and registering Go migrations, and of file names all but the number before the first underscore.
- `getVersions` and `GetDBVersion`: reads without a result that the other operations use.
- The parse result that `prepareMigration` keeps in a migration: whether a file parses is a constant of the migration.
- The 4 MB limit on lines and the carriage return that the line scanner strips: lines are given.
- Simple case folding beyond what ASCII names can meet.
- A lock that is taken by both a session locker and a general one: the options allow one of them.
- PostgreSQL advisory locks: foreign behaviour, present only as a lock that excludes.
- `CreateLockTable` beyond its success or failure, `TableExists` and `CheckLockStatus` of the lock stores.
- The locker's mutex as something to wait for: calling `Lock` requires it to be free.
- Rounding of `Duration.Seconds` to a double for leases of many weeks: seconds are the exact quotient.
- LegacyUp.PlanUpTo: plans only; the older API then applies the plan one migration after the other, which is not modelled.
- LegacyDown.DownToContext: for tables of distinct applied rows whose migrations exist, as the provider writes them; a row without a migration stops the older loop and refuses the provider's call.
- The older registering functions, which set the flag of a Go migration themselves: the flag is a field of its own, and `MixedIff` is about the one that `NewGoMigration` sets.
- ConcurrentProviders.OneUpDoesAll: for providers with the same migrations and options; with different ones there is no common plan to finish.
- MySQLStore.MySQLStore.CleanupStaleLocks: the rows it has selected are taken to stay as they are until it clears them, as the row locks of its transaction ensure.
- Substitution.SubstitutionIsExpansion: for files in which expansion fails on no text and turns none into an annotation or a line to skip, nor back; what happens to other lines is in the rules for single lines.
- The rest of the repository: the command line, `create`, `fix`, container management and examples.

# dbmigrate in Dafny

dbmigrate copies MySQL and MariaDB databases and keeps the copy up to date. This project models
the algorithms and crash-recovery protocols around its SQL driver and proves what they promise:
the checks and orders on the foreign-key graph, the replay of the binary log, the paged copy of a
baseline and its worker pool, the replay of trigger-logged changes, the comparison of tables by
chunked hashes, the rate limiter, the rewriting of schema statements and the checkpoint codec.

`dafny verify dfyconfig.toml` checks everything.

## How it is built

| modules | what they model |
|---|---|
| `ForeignKeyGraph`, `ForeignKeyCycles`, `DependencySort`, `CycleAgreement` | the precheck for cyclic foreign keys (Tarjan), the copy order (Kahn), and their agreement |
| `RowReplay`, `BinlogBatches`, `CommittedTransactions`, `BuildOutcome` | compiling row events to keyed statements, a binlog stream to committed transactions, and when that succeeds |
| `Spelling`, `StreamMeaning`, `ConflictMeaning` | which query text commits, rolls back or is refused, told on the characters; what compiled statements do to a table in any state under each conflict policy |
| `BinlogApply`, `BinlogRun`, `ExactlyOnce`, `ReplayGoals`, `CleanRuns`, `GtidRun`, `BinlogPosition` | applying a window, resuming from the destination's checkpoint row, the guarantees over any runs, what runs without faults reach, and runs that start from a GTID set |
| `Keyset`, `BaselineCopy`, `BaselinePool`, `PoolRuns` | keyset pages, the copy of one table over crashes, the worker pool as a state machine, and any number of its runs |
| `CdcReplay`, `CdcKeyChange`, `CdcRun`, `CdcSafety`, `CdcConvergence`, `CdcProgress`, `CdcBlocked` | replaying logged changes, logs that move rows to other keys, the apply, save, purge run, what it never loses, convergence under at-least-once delivery, when runs get on, and when they fail for good |
| `CdcSource`, `CdcFaults` | the source as its logged rows describe it, without the replay's own functions, and the replay measured against it; what failed reads and purges and a missing checkpoint amount to |
| `TableHash` | the chunked table hash and the report of differing tables |
| `Limiter`, `SqlRewrite`, `RewriteMeaning`, `Base64`, `CursorCodec`, `ConflictReport` | the token bucket, the schema-statement rewriter and what it does to quotes, comments and references, the typed cursor, stale conflict reports |
| `Ordering`, `Decimal`, `SqlText`, `Wrappers` | byte order on names, decimal text, the string functions used, options and results |

Code that changes things step by step is a method or a class whose `ensures` equate the new state
with a function of the old one; the properties are lemmas about those functions. Failures are
inputs: a method takes what becomes of each statement, commit and save, so that a crash may fall
before or after every one of them, and the theorems hold for all of them.

What is assumed of the surroundings:

- A destination transaction is atomic, and a checkpoint file is replaced atomically.
- A column's values are modelled by their rank in its sort order, so key comparison is a strict
  total order. A table that is paged keeps its rows and key columns between resumed runs, except
  where a lemma says otherwise.
- Every table that binlog or CDC changes are replayed into has one unique key, and foreign keys are
  not enforced while replaying. The number of affected rows is that of changed rows.
- SHA-256 and the JSON form of a normalised row are injective: a digest is modelled by what was
  hashed.
- CDC ids become visible in order, and the limiter's clock is monotone.
- The binlog files of one server carry canonical names with one base name.

## What the proofs brought out

- The metadata cache of the batch builder is keyed by the lower-cased table name
  (`internal/replicate/binlog/load.go:747-749`). It serves every row event its own table's columns
  exactly when tables that share such a key have the same metadata (`CacheRightIff`, for every
  stream); `CaseTwinsFail` gives a stream of two valid transactions that cannot be built together.
- A first run without an explicit start file and without a checkpoint asks the source where to
  start. If it dies before saving, the next run asks again and starts later, and what committed in
  between is never applied (`UnknownStartLoses`). A base that was level with the source stays in
  step in every history exactly when its first start is known (`InStepIffStartKnown`).
- A baseline copy that stops between the commit of a page and the save of the checkpoint cannot be
  resumed: every later resumed run meets a duplicate key and changes nothing (`ResumeCompletesIff`,
  `LostSaveBlocks`, and for the whole pool `LeftBehindForGood`). A run of the pool can end with every
  table copied exactly when no destination table is ahead of its entry (`FinishesIff`).
- When the key columns changed, a resumed copy continues behind the greatest destination key. It
  reports success in any case, and misses every row that is absent but not beyond that key
  (`FallbackCompletesIff`, `KeyChangeSkips`).
- A CDC batch moves the checkpoint exactly when it holds an event that the filters keep and no event in
  it collides with the destination's rows; a batch of filtered events, also one that MaxEvents
  cuts short, is read again by every later run (`ProgressIff`). Repeated runs therefore get all kept events
  applied exactly when the log has no page of filtered events in front of a kept one (`CatchUpIff`).
- At-least-once delivery of CDC events is harmless under source-wins and dest-wins for logs whose updates
  keep keys (`ReplayAbsorbs`). Under policy fail, the default, a stretch of such a log can be replayed
  exactly when no address whose first statement is an INSERT holds a row (`FailReplayIff`); a run that fails
  leaves the destination blocked at such an INSERT, and no later resumed run passes it
  (`FailsForGoodIff`, `BlockedForGood`).
- A stretch that moves rows to other keys can be applied again exactly when no move goes from one
  occupied key to another (under policy fail, also no insert goes to one), and then it adds and alters
  nothing, but it loses the rows whose keys it leaves vacant (`ReapplyIff`). `MoveAndRefillFails` is a stretch
  that fails with a duplicate key, `DeleteAndMoveLosesRow` one that succeeds and silently drops a row.
- Two spellings of one sequence number, such as `b.1` and `b.01`, each compare greater than the
  other (`RespelledExample`, `CompareAntisymmetricIff`), and `b.9`, `b.10`, `b.2x` compare in a circle
  (`CompareNotTransitive`).
- The project's documentation promises that the checkpoint advances only to the applied end
  (`README.md:328`). This holds for the file position. In GTID mode the code stores the set that the source
  has when the run ends (`internal/replicate/binlog/run.go:256-261`). Over any sequence of such runs the set
  covers exactly what the destination holds if and only if every run either applied all that it
  loaded, with nothing committed between the end of its window and the reading of the set, or ended
  before its save without a durable transaction (`HistoryInStepIff`). `CommitBetweenQueriesIsLost` is a
  run after which a committed transaction is never applied.

## Model

| member | source | states |
|---|---|---|
| ForeignKeyCycles.CycleDetector.StrongConnect | internal/commands/foreign_key_cycle_precheck.go:200-242 | the recursive closure on an unvisited table does to the shared maps and stack what the specification `Visit` says, for every graph, and terminates |
| ForeignKeyCycles.CycleDetector.PopThrough | internal/commands/foreign_key_cycle_precheck.go:228-237 | the pop loop removes the table and all above it from the stack, clears exactly their flags and returns them |
| ForeignKeyCycles.CycleDetector.FollowReference | internal/commands/foreign_key_cycle_precheck.go:213-222 | one round of the loop over references visits an unseen table or lowers the link through one on the stack |
| ForeignKeyCycles.CycleDetector.CloseComponent | internal/commands/foreign_key_cycle_precheck.go:224-241 | the table stays on the stack, or it and all above it leave as one sorted component, listed if it has more than one table |
| ForeignKeyCycles.CycleDetector.Detect | internal/commands/foreign_key_cycle_precheck.go:191-259 | the search over all tables, in name order, returns the sorted components, `DetectedCycles` |
| ForeignKeyCycles.VisitKeeps | internal/commands/foreign_key_cycle_precheck.go:200-242 | Tarjan's invariant over every exploration: numbering, reachability along the stack, low links, and exactness of the components decided so far |
| ForeignKeyCycles.SearchListsAll | internal/commands/foreign_key_cycle_precheck.go:244-253 | after the search the list holds exactly the components of more than one table, disjoint and without repetition |
| ForeignKeyCycles.DetectsExactlyTheCycles | internal/commands/foreign_key_cycle_precheck.go:191-259 | the result is the sorted list of exactly the mutual-reachability classes of more than one table: none wrong, none can be enlarged, none missed, none twice, each sorted |
| DependencySort.IndexDependencies | internal/data/copy.go:555-579 | the two maps hold each table's references and, sorted, the tables that reference it |
| DependencySort.DeleteReferences | internal/data/copy.go:588-597 | the inner loop deletes the placed table from its dependents' references and makes exactly the freed ones ready |
| DependencySort.PlaceTables | internal/data/copy.go:580-598 | the main loop places, each time, the least table whose references are placed, until none is left |
| DependencySort.SortTablesByDependencies | internal/schema/copy.go:592-646 | the sort returns a greedy order and the leftovers by name, for every list of tables and every reference map |
| DependencySort.KahnPermutation | internal/schema/copy.go:592-646 | no table is lost, added or repeated |
| DependencySort.KahnTopological | internal/schema/copy.go:592-646 | without leftovers every table comes after all that it references |
| DependencySort.KahnLexLeast | internal/data/copy.go:555-609 | among all orders that respect the references the sort picks the lexicographically least |
| DependencySort.KahnRemainingExactly | internal/data/copy.go:555-609 | the leftovers are exactly the tables from which a cycle, or a table that is not listed, can be reached, in name order |
| CycleAgreement.LeftoversLeadToCycles | internal/commands/foreign_key_cycle_precheck.go:120-189 | on the graph that the loaders build, Kahn's leftovers are exactly the tables that lead into a component reported by Tarjan |
| CycleAgreement.DetectorsAgree | internal/data/copy.go:555-609 | Kahn leaves nothing over exactly when Tarjan reports nothing, and never places a table that Tarjan reports |
| RowReplay.SqlEventsForRows | internal/replicate/binlog/load.go:489-591 | the loops over one event's rows compile it row by row or pair by pair, with the errors for keyless replay, odd updates and wrong column counts |
| RowReplay.WhereSelectsKey | internal/replicate/binlog/load.go:690-709 | the generated condition selects the row with the old image's key, and only that one |
| RowReplay.CompileOneMeaning | internal/replicate/binlog/load.go:593-688 | one compiled statement does to the before-image what the source's change did, under every policy, and touches a row |
| RowReplay.CompileMeaning | internal/replicate/binlog/load.go:489-591 | executing all statements of a row event on the before-image yields the after-image without error and without a zero-row conflict, including multi-row and key-changing updates |
| RowReplay.ZeroRowsIff | internal/replicate/binlog/run.go:723-727 | an update or delete touches no row exactly when the key is absent, or the new image is there already |
| ConflictMeaning.CompilesIff | internal/replicate/binlog/load.go:489-709 | a row event compiles exactly when its table has a key or rows are only inserted, update images come in pairs, and every image has all columns |
| ConflictMeaning.EventResolves | internal/replicate/binlog/load.go:489-688 | on any valid table, also one that is not the before-image: an insert onto a held key is refused, overwrites or is dropped, and an update or delete that meets nothing is a conflict or nothing, as the policy says |
| ConflictMeaning.RowEventResolves | internal/replicate/binlog/run.go:686-760 | the same on the whole destination: the event's statements in one transaction give what its changes mean, or fail on the first that conflicts |
| ConflictMeaning.HeldInsert | internal/replicate/binlog/load.go:614-633 | by the policies' names: an insert onto a held row overwrites it under source-wins, leaves it under dest-wins, and is a duplicate key otherwise |
| ConflictMeaning.ConflictIsNotDurable | internal/replicate/binlog/run.go:723-760 | a batch whose statements conflict is never durable, nor is any behind it; tables and checkpoint row stay as the batches in front of it left them |
| BinlogBatches.BuildApplyBatches | internal/replicate/binlog/load.go:300-468 | the loop over the stream, with pending rows, cache and first DDL and row events, is the fold `Build`, errors included |
| CommittedTransactions.BuildIsCommitted | internal/replicate/binlog/load.go:300-468 | a successful build is exactly the committed transactions of the stream, in commit order, and leaves none open |
| CommittedTransactions.RowBatchIsTransaction | internal/replicate/binlog/load.go:326-371 | every row batch is one whole committed transaction with all its statements and no others: rolled-back rows never appear and no batch is empty |
| CommittedTransactions.TransactionHasBatch | internal/replicate/binlog/load.go:326-371 | every committed transaction with a statement has its batch |
| CommittedTransactions.BuildOneKind | internal/replicate/binlog/load.go:372-468 | a successful build is all DDL or all rows |
| CommittedTransactions.BatchEndIsCut | internal/replicate/binlog/load.go:326-468 | no transaction is open behind any batch of a successful build, of rows or of DDL |
| Spelling.KeywordIff | internal/replicate/binlog/load.go:316-341 | a query begins, commits or rolls back exactly when it is blanks, the keyword in any case, and blanks; it is skipped exactly when it is blanks alone |
| Spelling.DdlIff | internal/replicate/binlog/load.go:861-901 | which first words and which words inside make a query a schema statement, and a safe one, told on the text in any case |
| StreamMeaning.RollbackDrops | internal/replicate/binlog/load.go:335-339 | behind a query that spells ROLLBACK nothing is open and no batch was added, for every stream |
| StreamMeaning.CommitKeeps | internal/replicate/binlog/load.go:321-421 | a query that spells COMMIT, or an XID, makes what is open the one new batch, with its own position as end |
| StreamMeaning.BeginKeeps | internal/replicate/binlog/load.go:316-320 | BEGIN and blank queries change nothing |
| StreamMeaning.RowsAreOpen | internal/replicate/binlog/load.go:422-453 | a row event adds its statements to what is open, unless its table is excluded, in whatever case it is written |
| StreamMeaning.DdlKeeps | internal/replicate/binlog/load.go:342-405 | a schema statement is one new batch under --apply-ddl apply, and none otherwise; it leaves what is open alone |
| StreamMeaning.QueriesOfABuild | internal/replicate/binlog/load.go:316-408 | a successful build has no query besides keywords, blanks and schema statements, the latter only if they are ignored, or applied and spelled as safe ones |
| StreamMeaning.RefusalNames | internal/replicate/binlog/load.go:300-487 | every refusal names an event of the stream that is what the refusal calls it; an unfinished transaction is named by the position of its last row event |
| BuildOutcome.BuildCut | internal/replicate/binlog/load.go:300-468 | cutting the stream wherever no transaction is open, so behind every batch, makes the build of the rest equal the remaining batches: restarts compose |
| BuildOutcome.BuildSucceedsIff | internal/replicate/binlog/load.go:300-468 | with equal metadata per cache key a stream can be built exactly when each event is acceptable alone, rows and DDL are not mixed and nothing is left open; the result is then the committed transactions |
| BuildOutcome.ServedIsUsed | internal/replicate/binlog/load.go:593-688 | whenever the builder comes to a row event it compiles it with what the loader answered for the first row event with its cache key |
| BuildOutcome.CacheRightIff | internal/replicate/binlog/load.go:747-749 | for every stream, also one that cannot be built: each row event is served its own table's metadata exactly when tables that share the lower-cased key have the same metadata |
| BuildOutcome.CaseTwinsFail | internal/replicate/binlog/load.go:747-749 | two tables that differ in case: each transaction builds alone, both together do not |
| BinlogApply.Destination.ApplyTransaction | internal/replicate/binlog/run.go:686-794 | one transaction commits all statements together with the checkpoint row, or nothing |
| BinlogApply.Destination.ApplyWindow | internal/replicate/binlog/run.go:607-808 | whatever ends a run, exactly the first k batches are durable, each with its end as checkpoint row; a run that ends by itself has applied the longest prefix within the limit, or stopped at a batch that the limit, its end position or the destination itself refuses |
| BinlogApply.TooLargeExactly | internal/replicate/binlog/run.go:635-656 | a run without faults refuses before applying anything exactly when the first non-empty batch alone exceeds the limit |
| BinlogApply.RowHasPosition | internal/replicate/binlog/run.go:657-680 | no run writes a checkpoint row that lacks its file or position |
| BinlogRun.StreamWindow | internal/replicate/binlog/load.go:84-173 | the reading loop keeps exactly the leading part of the stream that lies within the window |
| BinlogRun.LoadedStretch | internal/replicate/binlog/load.go:61-82 | whatever a run loads is a stretch of the log that begins right behind its start |
| BinlogRun.Replicator.Run | internal/replicate/binlog/run.go:163-289 | a resumed run starts from the destination's row, else the file, else the explicit start, else the source's position, and changes the world by one window run and at most one save; without a fault it succeeds exactly when the window was applied, and the file then has its end |
| BinlogRun.CutBehind | internal/replicate/binlog/load.go:84-173 | in an ordered log an event's own position cuts the log right behind it |
| BinlogRun.FileStartReadsAll | internal/replicate/binlog/run.go:189-197 | a start file without a position: the run reads exactly the events of that file and later ones |
| CleanRuns.WindowIs | internal/replicate/binlog/load.go:84-173 | a window is all events from its start that do not end beyond its end |
| ExactlyOnce.LeadingBatches | internal/replicate/binlog/run.go:607-808 | any number of leading batches is what a prefix of the stream commits that ends where no transaction is open |
| ExactlyOnce.RunAdvances | internal/replicate/binlog/run.go:163-289 | every run, however it ends, keeps the destination in step with its own checkpoint and never moves back |
| ExactlyOnce.ExactlyOnceOverRuns | internal/replicate/binlog/run.go:564-808 | over any sequence of resumed runs and crashes the tables are the base with exactly the committed transactions up to the destination's own checkpoint applied, each once, in order |
| ReplayGoals.ReplayIsSource | internal/replicate/binlog/load.go:300-468 | replaying what a stream commits gives the source's committed tables, and with the open rows on top what the open transaction sees |
| ReplayGoals.DestinationIsSourceImage | internal/replicate/binlog/run.go:564-808 | in every reachable state the destination equals the source's committed tables, of those that are not excluded, at the destination's checkpoint, whatever the policy |
| ReplayGoals.UnknownStartLoses | internal/replicate/binlog/run.go:203-210 | without a known start, a first run that starts at e1 and dies before saving is followed by one that starts at e2: what committed between e1 and e2 is never applied, and no cut of the log explains the tables as of e1 |
| ReplayGoals.InStepIffStartKnown | internal/replicate/binlog/run.go:189-210 | a base level with the source, with a change still to come, stays in step over all histories exactly when there is a checkpoint or an explicit start file |
| CleanRuns.LongestUnique | internal/replicate/binlog/run.go:635-656 | the limit admits only one longest prefix of batches |
| CleanRuns.RunTakesPrefix | internal/replicate/binlog/run.go:163-289 | a run without faults applies the longest prefix within its limit, and the next one, resumed at the destination's checkpoint row, reloads exactly the remaining batches |
| CleanRuns.LimitedRunsReachTheSame | internal/replicate/binlog/run.go:796-806 | if one run without a limit succeeds, then resumed runs up to the same end with limits that admit every transaction all succeed, and as many of them as there are transactions leave the same tables and checkpoint row |
| CleanRuns.CatchesUp | internal/replicate/binlog/run.go:163-289 | up to a point where no transaction is open, with neither DDL nor unsupported statements on the way, a run without faults and limit succeeds and makes the destination equal to the source's committed tables there |
| GtidRun.GtidReplicator.Run | internal/replicate/binlog/run.go:182-289 | a resumed run in GTID mode reads what lies behind the stored set, else behind the given one, changes the destination by one window run, and stores the source's set of that moment if it applied the window, could read the set and could save |
| GtidRun.SetLoads | internal/replicate/binlog/load.go:61-101 | what such a run loads is what a stretch of the log right behind its set commits |
| GtidRun.StreamedIs | internal/replicate/binlog/load.go:61-101 | such a run reads nothing unless the given start lies before the end of the window, and then all events behind its set that do not end beyond that |
| GtidRun.StepKeepsIff | internal/replicate/binlog/run.go:245-271 | one run keeps the set equal to what the destination holds exactly when it is whole: everything loaded was applied and nothing committed up to the set that it saved, or nothing was applied and saved |
| GtidRun.HistoryInStepIff | internal/replicate/binlog/run.go:245-271 | over any sequence of GTID runs and crashes the set always covers exactly the applied transactions if and only if every run was whole |
| GtidRun.HistoryHoldsApplied | internal/replicate/binlog/run.go:245-271 | the tables are the base with exactly the listed transactions, and with those up to the set as long as it is in step |
| GtidRun.SavedTablesIff | internal/replicate/binlog/run.go:245-271 | behind a saved run the tables are level with some point d of the log, and with the saved set exactly when the batches left over and what committed later change nothing |
| GtidRun.CommitBetweenQueriesIsLost | internal/replicate/binlog/run.go:224-261 | a commit between the two queries: the run applies nothing, its set covers the transaction, and no later run changes the destination |
| BinlogPosition.SplitLogName | internal/replicate/binlog/load.go:1047-1059 | the split gives back base name and number of every name that a server writes |
| BinlogPosition.SplitIff | internal/replicate/binlog/load.go:1047-1059 | a name splits exactly when it is a non-empty prefix, a dot and digits below 2^64 |
| BinlogPosition.CompareLogNames | internal/replicate/binlog/load.go:1031-1045 | on one base name the comparison is the order of the numbers, also from 999999 to 1000000 |
| BinlogPosition.CompareAntisymmetricIff | internal/replicate/binlog/load.go:1031-1045 | the comparison is antisymmetric exactly when the names are not two spellings of one number |
| BinlogPosition.RespelledExample | internal/replicate/binlog/load.go:1031-1045 | `b.1` and `b.01` each compare greater than the other |
| BinlogPosition.CompareNotTransitive | internal/replicate/binlog/load.go:1031-1045 | `b.9`, `b.10` and `b.2x` each compare smaller than the next, in a circle |
| BinlogPosition.PositionTests | internal/replicate/binlog/load.go:998-1029 | before, after and reached are the strict order on positions, its converse and the weak order |
| Keyset.AboveIsSuffix | internal/data/copy.go:664-673 | in key order the rows beyond any cursor are a suffix of the table |
| Keyset.PageAhead | internal/data/copy.go:695-761 | a page continues exactly where the cursor stands, and the cursor of its last row stands where the page ends |
| Keyset.ReadPages | internal/data/copy.go:325-368 | for every page size and every starting cursor the pages together are exactly the rows beyond it, in key order, all but the last full, and the loop ends |
| Keyset.PageCount | internal/data/copy.go:325-368 | the number of pages is the row count divided by the page size, rounded up |
| Keyset.ChunksRoundUp | internal/verify/data/verify.go:693-697 | the chunk counter is the row count divided by the chunk size, rounded up |
| Keyset.KeyOrderUnique | internal/verify/data/verify.go:838-854 | two tables with the same rows are read in the same order, however they are stored |
| BaselineCopy.TableCopy.ApplyBatch | internal/data/copy.go:767-784 | a page goes in whole, or a duplicate key leaves the table as it was |
| BaselineCopy.DestinationResumeCursor | internal/data/copy.go:968-1002 | the fallback cursor is the greatest key in the destination, none for an empty table |
| BaselineCopy.TableCopy.CopyOneTable | internal/data/copy.go:222-383 | a run with any failures takes destination and file to the state that `Run` gives: skip when done, start from file or fallback cursor, commit then save page by page, mark done at the end |
| BaselineCopy.PageInserts | internal/data/copy.go:343-356 | with k rows in the destination and j in the file the next page inserts exactly when j equals k |
| BaselineCopy.PagesCount | internal/data/copy.go:325-368 | whatever fails, the loop leaves a key-order prefix in the destination and the file at or behind it, with the row counts of the abstract loop |
| BaselineCopy.AlwaysPrefix | internal/data/copy.go:291-382 | after any number of runs the destination is a key-order prefix of the source and the file is at or behind it, level when no save was lost |
| BaselineCopy.FinishedIsEqual | internal/data/copy.go:370-382 | a run that reports success has made the destination equal to the source |
| BaselineCopy.ResumeCompletesIff | internal/data/copy.go:343-366 | an undisturbed resumed run completes exactly when the file is level with the destination; otherwise it meets a duplicate key and changes nothing, for every chunk size |
| BaselineCopy.LostSaveBlocks | internal/data/copy.go:343-366 | once a save is lost, no sequence of resumed runs changes anything |
| BaselineCopy.FallbackCompletesIff | internal/data/copy.go:295-311 | with an entry whose cursor does not apply to the present key columns, a resumed run reports success in any case and the destination is complete exactly when every missing row lies beyond the greatest destination key |
| BaselineCopy.CursorCompletesIff | internal/data/copy.go:947-966 | with any cursor that applies and that no destination row is beyond, a resumed run reports success and is complete exactly when every missing row lies beyond the cursor |
| BaselineCopy.NoKeyNoCopy | internal/data/copy.go:283-289 | a table without a stable key is refused, unless its entry is done, and its destination is left alone |
| BaselineCopy.KeyChangeSkips | internal/data/copy.go:947-966 | a two-row table whose key columns change between two runs ends marked done with a row missing |
| BaselinePool.StepKeeps | internal/data/copy.go:236-382 | every step of any worker keeps the invariant of the whole pool and loses no table's saved progress |
| BaselinePool.EveryScheduleKeeps | internal/data/copy.go:182-219 | in every state that any interleaving reaches, with errors at any point, also from destinations ahead of their entries: destinations are prefixes, saved entries at or behind them, no progress lost by another table's save, counters equal to sums over tables |
| BaselinePool.CrashLeavesPrefix | internal/data/copy.go:354-376 | a crash of the pool at any point leaves each table in a state from which the single-table theorems go on |
| BaselinePool.SchedulesAgree | internal/data/copy.go:182-219 | from level tables any two interleavings that run to the end without errors reach the same destination, checkpoint and summary, with every table equal to its source and marked done |
| PoolRuns.FinishesIff | internal/data/copy.go:182-219 | some schedule of the workers copies every table exactly when no destination table is ahead of its entry |
| PoolRuns.RunsKeep | internal/data/copy.go:182-219 | over any number of pool runs, each crashing or failing anywhere, destinations stay prefixes, entries in the file at or behind them, and no saved progress is lost |
| PoolRuns.LeftBehindForGood | internal/data/copy.go:343-366 | a table whose entry fell behind its destination is never changed again by any number of later pool runs |
| TableHash.HashChunkedTable | internal/verify/data/verify.go:588-709 | the loops over chunks and rows compute the specified digest, for every chunk size and both modes |
| TableHash.DigestEqualIff | internal/verify/data/verify.go:588-722 | two tables hash equal exactly when their canonical rows in key order are equal |
| TableHash.ModesAgree | internal/verify/data/verify.go:150-308 | hash and full-hash give the same verdict, each with its own chunk size |
| TableHash.OrderIndependent | internal/verify/data/verify.go:838-854 | the physical order of the rows does not matter |
| TableHash.DiffTableHashes | internal/verify/data/verify.go:1068-1125 | the report lists exactly the missing and differing tables, once each, and the counters are their numbers |
| TableHash.ReportMeans | internal/verify/data/verify.go:1068-1125 | a table is listed as missing on a side exactly when only the other has it, as mismatch exactly when both have it with different digests, and each entry has the digests that there are |
| TableHash.ReportUnique | internal/verify/data/verify.go:1269-1281 | within one database, sorting makes the report independent of the order in which maps are ranged over |
| TableHash.NoDiffsIff | internal/verify/data/verify.go:1068-1125 | nothing is reported exactly when both databases have the same tables with the same canonical rows |
| CdcReplay.BuildWhereFromRow | internal/replicate/cdc/run.go:381-397 | the condition selects exactly the rows with the same key, null values included |
| CdcReplay.ReplayFollows | internal/replicate/cdc/run.go:252-379 | on a destination that equals the source, replaying a valid log follows the source exactly, under every policy and with key-changing updates |
| CdcReplay.ReplayActs | internal/replicate/cdc/run.go:295-379 | on key-preserving logs, what replaying a stretch does to a row depends on that stretch alone and is one of five actions |
| CdcReplay.ReplayAbsorbs | internal/replicate/cdc/run.go:206-235 | on key-preserving logs under source-wins and dest-wins, on any tables: replaying a stretch and then a longer one around it gives what the longer one alone gives, without error |
| CdcReplay.ReplayAgain | internal/replicate/cdc/run.go:206-235 | on key-preserving logs under source-wins and dest-wins, a stretch that ends at the destination's position can be applied again without changing it |
| CdcReplay.FailReplayIff | internal/replicate/cdc/run.go:326-330 | on key-preserving logs under policy fail a stretch can be replayed exactly when no address whose first statement is an INSERT holds a row |
| CdcSource.ValidIffRecorded | internal/replicate/cdc/run.go:295-379 | a log is valid exactly when there are source states, one for each event, between which INSERT adds the new row with every column's value, UPDATE replaces the row with the old row's key, and DELETE removes it |
| CdcSource.ReplayFollowsSource | internal/replicate/cdc/run.go:206-235 | replaying any stretch on the source's state at its start gives the source's state at its end, column by column |
| CdcSource.CompleteIff | internal/replicate/cdc/run.go:252-285 | an event fails on every destination when its table or operation is unknown or the row it needs is absent, and otherwise only on a held key |
| CdcSource.InsertMeans | internal/replicate/cdc/run.go:295-331 | an INSERT on any destination: the new row at its key with every column's value, or, onto a held key, refused, overwritten or dropped as the policy says |
| CdcSource.UpdateMeans | internal/replicate/cdc/run.go:333-363 | an UPDATE on any destination moves and rewrites the row with the old row's key, does nothing without it, and is refused when another row holds the new key |
| CdcSource.DeleteMeans | internal/replicate/cdc/run.go:365-379 | a DELETE on any destination leaves no row at the old row's key and changes no other |
| CdcSource.KeptIff | internal/replicate/cdc/run.go:208-217 | an event is applied exactly when its table is listed for inclusion, or nothing is, and it is not excluded, in any case of letters |
| CdcKeyChange.ReplayOkIff | internal/replicate/cdc/run.go:252-379 | on any tables and under every policy a stretch of a valid log, key-changing or not, replays without error exactly when no event collides, which the occupied keys alone decide |
| CdcKeyChange.ReapplyIff | internal/replicate/cdc/run.go:206-235 | a stretch applied again to the tables at its end fails exactly on a collision; otherwise the result is those tables cut down to the keys that stay occupied, so it is harmless exactly when that is all of them |
| CdcKeyChange.MoveAndRefillFails | internal/replicate/cdc/run.go:333-363 | an update that moves a row and an insert that refills its key: the stretch ends in a duplicate key when it is applied again |
| CdcKeyChange.DeleteAndMoveLosesRow | internal/replicate/cdc/run.go:333-363 | a delete and an update that moves another row there: applied again the stretch succeeds and the row is gone |
| CdcRun.Replicator.Run | internal/replicate/cdc/run.go:158-250 | the loops over databases and batches, with apply, save, purge, filters and MaxEvents, change destination, file and logs as `RunOf` says, wherever the run ends |
| CdcRun.Replicator.ApplyEvents | internal/replicate/cdc/run.go:206-229 | the loop over a batch applies the kept events in order up to the first failure and notes the id of the last one |
| CdcConvergence.BatchReached | internal/replicate/cdc/run.go:206-229 | what a batch did is a replay of a leading part of it, and the noted id is that of its last kept event |
| CdcConvergence.UnsavedReaches | internal/replicate/cdc/run.go:206-233 | a batch that ends before its save leaves the destination on course for a replay from the old checkpoint |
| CdcConvergence.AlwaysOnCourse | internal/replicate/cdc/run.go:187-242 | over any resumed runs, failures, crashes and writes, for key-preserving logs under source-wins and dest-wins: nothing behind the checkpoint is purged, and replaying from it leads to the source |
| CdcSafety.BatchBehind | internal/replicate/cdc/run.go:206-233 | behind a batch the noted id is that of an applied event, and every kept event up to it was applied |
| CdcSafety.NothingLost | internal/replicate/cdc/run.go:158-242 | for every log and policy, over any runs, failures, crashes and writes: each checkpoint is zero or the id of an applied event, every purged or passed event was applied or filtered, and if all runs resume the purge stays at or behind the checkpoint |
| CdcConvergence.CaughtUp | internal/replicate/cdc/run.go:187-235 | a batch that reads to the end of the log makes the destination equal to the source |
| CdcSource.CaughtUpWithSource | internal/replicate/cdc/run.go:187-235 | the same with the source given by its logged rows alone |
| CdcProgress.ProgressIff | internal/replicate/cdc/run.go:187-242 | for every valid log, policy and limit, an undisturbed batch, also one cut by MaxEvents, moves the checkpoint exactly when it holds a kept event and none of its events collides; without a kept event the next run reads it again |
| CdcProgress.CatchUpIff | internal/replicate/cdc/run.go:158-250 | on key-preserving logs under source-wins and dest-wins, repeated undisturbed runs over one database leave no kept event behind exactly when no page of filtered events lies in front of a kept one; the destination then equals the source, otherwise the checkpoint never passes that page |
| CdcBlocked.BlockedForGood | internal/replicate/cdc/run.go:187-242 | under policy fail: once a pending INSERT meets a row that no earlier pending event touches, no resumed run with any limits, failures and writes passes it |
| CdcBlocked.FailsForGoodIff | internal/replicate/cdc/run.go:206-229 | on key-preserving logs under policy fail an undisturbed run fails exactly when it leaves the destination blocked at an event of its batch |
| CdcConvergence.NeverAboveMax | internal/replicate/cdc/run.go:198-204 | no run applies more than MaxEvents, and the subtraction and the slice stay in range |
| CdcProgress.BatchIs | internal/replicate/cdc/run.go:187-204 | a batch holds the entries left behind the checkpoint, cut to the batch size or 1000, and to what MaxEvents leaves; one of the three is reached |
| CdcFaults.PurgedIff | internal/replicate/cdc/reader.go:51-64 | a purge deletes exactly the entries up to its id |
| CdcFaults.FailedPurgeIsHarmless | internal/replicate/cdc/run.go:237-242 | a run whose purges fail ends as it would otherwise, and differs only in the log tables |
| CdcFaults.SuccessMeans | internal/replicate/cdc/run.go:184-249 | a resumed run without error could read every database, unless it applied MaxEvents events, and the checkpoint file has all that it noted |
| CdcFaults.LastIsGreatest | internal/replicate/cdc/run.go:223-249 | the reported id is the greatest of the checkpoints that the run moved, or zero |
| CdcFaults.NoResumeIsFresh | internal/replicate/cdc/run.go:168-176 | a run without --resume does what a resumed run does that finds no checkpoint; the old file stays until the first save |
| Limiter.Limiter.Refill | internal/throttle/limiter.go:51-65 | the bucket is filled by the whole tokens of the elapsed time, and keeps its time when there is none |
| Limiter.RefillFills | internal/throttle/limiter.go:51-65 | a refill that does not fill the bucket adds all whole tokens of the elapsed time |
| Limiter.GrantsAtLeast | internal/throttle/limiter.go:26-65 | the lower bound: while the bucket is never full, grants and its growth come to more than rate times time, less one token for each refill and one |
| Limiter.FullAtFirst | internal/throttle/limiter.go:15-24 | a new bucket grants up to its size at once |
| Limiter.Limiter.Wait | internal/throttle/limiter.go:26-49 | a caller on its own takes exactly the tokens it asked for and returns after at most two sleeps per token, however much longer than asked each sleep takes, and without a sleep if the refilled bucket holds them |
| Limiter.TwoSleepsSuffice | internal/throttle/limiter.go:41-46 | two sleeps always make up one token although the division truncates |
| Limiter.GrantsSinceCreation | internal/throttle/limiter.go:15-65 | for every interleaving the tokens stay between zero and the bucket size, and grants since creation are at most one bucket plus rate times elapsed time |
| Limiter.GrantsInWindow | internal/throttle/limiter.go:26-65 | in any window, grants stay below one bucket plus rate times its length plus one token |
| SqlRewrite.RewriteQualifiedDatabaseReference | internal/schema/copy.go:774-833 | the byte loop over four mode flags is the lexer-based rewrite: references in code replaced, every other byte kept |
| SqlRewrite.PiecesAreTheStatement | internal/schema/copy.go:774-833 | the pieces that the lexer finds make up the statement |
| RewriteMeaning.QuotedIsCopied | internal/schema/copy.go:824-829 | a text in single or double quotes is copied, and the rest is rewritten as on its own |
| RewriteMeaning.OpenQuoteIsCopied | internal/schema/copy.go:824-829 | so is a quoted text that never ends |
| RewriteMeaning.LineIsCopied | internal/schema/copy.go:783-811 | a comment that `#` or two dashes open is copied up to its newline |
| RewriteMeaning.LastLineIsCopied | internal/schema/copy.go:783-811 | so is a comment that the end of the statement ends |
| RewriteMeaning.BlockIsCopied | internal/schema/copy.go:790-817 | a block comment is copied up to its first end mark |
| RewriteMeaning.OpenBlockIsCopied | internal/schema/copy.go:790-817 | so is a block comment that never ends |
| RewriteMeaning.ReferenceIsReplaced | internal/schema/copy.go:818-822 | a reference in code becomes the sandbox's, and scanning goes on behind it |
| RewriteMeaning.OtherIsCopied | internal/schema/copy.go:800-829 | a character in code that begins no quote, comment or reference is copied |
| RewriteMeaning.QualifiedReads | internal/schema/copy.go:754-766 | the quoted prefix reads back as the database's name and a dot, whatever the name |
| SqlRewrite.NoneLeft | internal/schema/copy.go:774-833 | the scanner finds no reference to the source database in the rewritten statement, for any two different names of letters, digits and underscores |
| SqlRewrite.RewritingBackRestores | internal/schema/copy.go:758-766 | rewriting to a sandbox named by letters, digits and underscores and back restores the statement when the sandbox prefix did not already stand in its code, and, unless the source's name begins with a dot, only then |
| Base64.DecodeEncode | internal/state/checkpoint_cursor.go:87-91 | decoding what was encoded gives the octets back (section 4 of RFC 4648) |
| Base64.Alphabet | internal/state/checkpoint_cursor.go:87-91 | the standard alphabet with plus and slash (section 4 of RFC 4648) |
| Base64.TestVectors | internal/state/checkpoint_cursor.go:87-91 | the padding, on test vectors of section 10 of RFC 4648 |
| CursorCodec.DecodeEncoded | internal/state/checkpoint_cursor.go:83-217 | every supported value except times and floats reads back as itself in the widest type of its kind |
| CursorCodec.TableCheckpoint.SetCursorValues | internal/state/checkpoint_cursor.go:52-70 | the encoded values replace both cursor fields; an unsupported value leaves the entry as it was, and what was set reads back |
| CursorCodec.TableCheckpoint.CursorValues | internal/state/checkpoint_cursor.go:28-49 | the loop returns the typed cursor, or the old strings, or the first decoding error |
| CursorCodec.SetThenRead | internal/state/checkpoint_cursor.go:28-70 | a cursor can be set exactly when all its values are supported, and reads back as itself, widened, whatever old strings stand beside it; without values there is none |
| CursorCodec.UpgradeEntries | internal/state/checkpoint.go:58-63 | the loop upgrades exactly the entries that have only old strings |
| CursorCodec.UpgradeKeepsCursor | internal/state/checkpoint.go:58-63 | the upgrade changes no cursor and keeps the old strings, and a second one changes nothing |
| ConflictReport.StaysStale | internal/commands/report.go:384-404 | a report that is out of date stays so as the checkpoint moves on |

## Left out

- SQL drivers, connections, information_schema queries, configuration, logging, report text: I/O around the modelled code. Statements are modelled as parsed forms, not as text.
- Runs with resume switched off, in the theorems over several runs except CdcSafety.NothingLost (a single CDC run without resume is covered by CdcFaults.NoResumeIsFresh); the run functions themselves have them for the baseline copy and CDC.
- DDL batches in the theorems on runs; they are part of the batch-building theorems.
- Transaction-shape counters, lag estimation as such (a lag stop is one of the ways in which a run may end).
- BinlogRun.StreamWindow: does not model rotate events, the conversion of raw events, or the limits on buffered events and bytes; it reads events that carry their file and position.
- BinlogRun.Replicator.Run: does not model --apply-ddl apply, GTID mode, which GtidRun has, runs without --resume, or failures of the queries in front of the run, which change nothing.
- BinlogApply.Destination.ApplyWindow: does not model DDL batches, which the server commits implicitly and whose effect on table definitions is not modelled.
- ExactlyOnce.ExactlyOnceOverRuns: requires a known start, row batches and equal metadata for tables that share a cache key; the lemmas on the unknown start and on the cache show why.
- GtidRun.GtidReplicator.Run: does not model sets that are not a beginning of one server's log, the parsing of sets, or --apply-ddl apply.
- BinlogPosition.CompareLogNames: no order law for arbitrary names; CompareNotTransitive shows why.
- BaselineCopy.TableCopy.CopyOneTable: does not model a table without insertable columns, which the code marks done at once.
- CdcReplay.ReplayAbsorbs: does not model tables without a key, for which the code refuses updates and deletes, nor key columns that hold null.
- CursorCodec.DecodeValue: does not model times and floats; the corresponding kinds yield an error of their own.
- Limiter.Limiter.Refill: does not model float rounding in the product of elapsed seconds and rate, which is exact here.
- Limiter.Limiter.Wait: rests on the exact product of Refill.
- Limiter.GrantsSinceCreation: bounds the grants of a bucket that is filled by the exact product.
- Limiter.GrantsInWindow: bounds the grants of a bucket that is filled by the exact product.
- TableHash.ReportUnique: does not model several databases in one report, nor the sort by kind, of which a table has one.
- SqlRewrite.RewritingBackRestores: does not model the wrapper that returns blank statements unchanged; no converse for source names that begin with a dot.
- SqlRewrite.NoneLeft: speaks of code as the scanner sees it; a backslash before a quote, or a quote inside a backticked name, sets the scanner's flags otherwise than a server would, and MySQL's own lexing is not modelled.
- TableHash.DigestEqualIff: rests on digests being atomic items of the hashed stream; a digest of fixed length cannot be injective, so the framing of its bytes is not modelled.
- CdcBlocked.FailsForGoodIff: requires a key-preserving log; in others a run can also stop on a move onto an occupied key.
- CdcProgress.CatchUpIff: one database per run, since MaxEvents is shared between databases.
- BaselinePool.SchedulesAgree: does not model the semaphore that bounds the number of active workers nor the mutex around the map; steps are atomic and any worker may take the next one.
- CdcConvergence.AlwaysOnCourse: requires key-preserving logs; for others the exact conditions of a replay are in CdcKeyChange.
- The sample mode of verify, row counts, noise-risk annotations, and the normalisation of single values, which is a parameter of the hash.
- The sandbox dry run of data validation, whose query is built without a cursor but called with one on later chunks.
- Prechecks, compatibility matrices, hybrid routing, user copying, schema diff signatures, redaction and lock files: branch tables that would add easy members.

# Verified models of the Peri-Fuse server, gateway and database layer

A Dafny 4.11 project that models the protocols and algorithms with the most state in
the repository and proves what they promise. `dafny verify dfyconfig.toml` checks all
of it.

JavaScript runs without interruption between two `await`s. The asynchronous files are
therefore modelled as step systems with one step per await-free stretch of code, and
what is proved holds after every interleaving of the steps. Where the source updates
state in place there is also a class whose methods are those stretches of code, each
proved to make exactly the step of the system.

| File | Models |
|---|---|
| `FifoGate.dfy` | the promise-chained gate that serializes native access, as a chain of links and as the FIFO lock it refines |
| `SqliteTransaction.dfy` | the BEGIN / callback / drain / COMMIT-or-ROLLBACK bracket, and an engine of many runs, statements and the gate |
| `TransactionDrain.dfy` | cancelling iterations and draining operations at the end of a transaction's callback |
| `BusyRetry.dfy` | the budgeted retry around BEGIN |
| `ReadSnapshot.dfy` | the snapshot lifetime (revoke, drain, return iterators, close statements) and the write-keyword scanner |
| `SessionList.dfy`, `SessionRows.dfy`, `SessionArrays.dfy`, `Orders.dfy` | the page-first session query against the frozen one, what a row of it shows, its response arrays, and sorting |
| `KeysetWalk.dfy` | the two keyset-paginated routes, followed cursor by cursor |
| `PromptResolution.dfy` | prompt dependency resolution over possibly cyclic references |
| `SseStream.dfy`, `Texts.dfy` | the provider stream reader and line splitting |
| `SpendRecord.dfy`, `Utf8Text.dfy` | byte-bounded log bodies over UTF-16 and UTF-8 (section 3 of RFC 3629) |
| `SpendLedger.dfy` | the log, the daily aggregates and the budget counters of the spend records |
| `BoundedResponse.dfy` | the bounded response buffer and its truncating twin |
| `ResponseCache.dfy` | the response cache with one request in flight per key |
| `RequestLimits.dfy` | slot accounting of active requests |
| `RateWindow.dfy` | the in-memory rate counter |
| `Hooks.dfy` | hook dispatch and the parallel-request limiter |
| `DashboardWindow.dfy` | splitting a window into materialized days and live edges |
| `TtlMap.dfy` | the bounded map with expiring entries |

## What turned out false, and exactly when it holds

* A transaction whose callback (or a drained operation) rejects with `undefined` is
  committed and reports success: `SqliteTransaction.UndefinedRejectionCommits`, with the
  exact condition in `SqliteTransaction.CommitRule`.
* A run that throws can leave writes behind. It leaves nothing exactly if it neither executes a
  COMMIT of its own after writing nor writes after its transaction has ended, be it by a COMMIT
  or ROLLBACK of its own or by the engine: `SqliteTransaction.ThrownLeavesNothingIff`, with
  histories in `SqliteTransaction.SelfCommitLeavesWrite`, `SqliteTransaction.SelfRollbackLeavesWrite`
  and `SqliteTransaction.BrokenRunLeavesWrite`.
* A usable connection can be in a transaction with nobody inside, and a plain write that has
  returned is then not durable. It is so exactly while plain statements have left a BEGIN of
  theirs open: `SqliteTransaction.BracketExclusive`, `SqliteTransaction.PlainWriteIsDurableIff`,
  with a history in `SqliteTransaction.PlainBeginStaysOpen`.
* A transaction's drain need not end: an operation can wait for the transaction's gate behind an
  iteration that stands at a row and that cancelling does not reach, because its statement was
  iterated again, because an earlier iteration of it ended meanwhile, or because it was still
  being prepared. The drain ends, whatever the iterations yield, exactly if no such iteration is
  or gets in front of an operation: `TransactionDrain.DrainEndsIff`, with runs in
  `TransactionDrain.IteratedTwice`, `TransactionDrain.ClearedByAnother` and
  `TransactionDrain.PreparedTooLate`.
* The snapshot cleanup releases everything exactly if no wrapper's own `return()` is still
  under way and no `return()` or `close()` rejects while there is something left that the
  callback has not closed itself: `ReadSnapshot.ExitReleasesIff`, with a run in
  `ReadSnapshot.FailingExit`. What a rejection leaves open is in
  `ReadSnapshot.RejectingReturnLeaks` and `ReadSnapshot.RejectingCloseLeaks`.
* A revoked snapshot handle still lets `iterate` of a prepared statement through, and reads of
  its properties, because they are evaluated before anything is checked. No other use gets
  through, and these do exactly while the statement is not closed: `ReadSnapshot.RevokedButForBypass`.
* The snapshot's drain need not end, not even after an abort: a call that waits for the
  transaction's gate behind an iterator at a row is waited for, and the iterator is only returned
  after the drain. It ends, whatever rows there are, exactly if there is no such call or the
  iterator's wrapper waits for a next() or is on its way out: `ReadSnapshot.DrainEndsIff`, with a
  run in `ReadSnapshot.AbortedRunHangs`.
* `boundedBody` loses a leading U+FEFF when it has to cut, because a text decoder drops the
  mark: `SpendRecord.BoundedBodyIsLongestPrefix` is an if-and-only-if.
* The v2 observations walk repeats rows, and can send the same page for ever, when a page
  ends with a start time stored without fractional seconds or empty, because the cursor carries
  the time as the response shows it: `KeysetWalk.ObservationsWalkIff`, `KeysetWalk.SameSecondRepeats`.
  The errors walk has no such case: `KeysetWalk.ErrorsPageIff`.
* Different prompt references can share a dependency key, as `a|b` with label `c` and `a` with
  label `b|c` do, and then one gets the content of the other. It happens to exactly the references
  whose key has another separator that can be read as the one between name and label:
  `PromptResolution.DepKeyIsUniqueIff`, `PromptResolution.TagGetsItsOwnIff`.
* A tag's replacement is looked up by the tag as written and its dependency by the trimmed one, so
  a tag whose label or name is nothing but white space stays literal although it is resolved;
  exactly those tags do not find themselves among the dependencies:
  `PromptResolution.ExtractCoversIff`, `PromptResolution.BlankTagStays`.
* User ids that contain CHAR(31) come back from GROUP_CONCAT in pieces:
  `SessionArrays.UsersComeBackIff`.
* The "sliding window" counter uses fixed windows opened by a first call, so an interval as
  long as a window can hold almost two limits of calls. The sharp bounds are
  `RateWindow.AtMostTwoWindowsLessOne` and, once `incrementBy` is used,
  `RateWindow.AtMostTwoWindows`; both are reached. Its cleanup is harmless exactly for windows
  of at most 120001 ms: `RateWindow.CleaningIsHarmlessIff`. Beyond that the bound is lost too:
  `RateWindow.TwoWindowsIff`.
* A settled context can stay counted by the parallel limiter for good. A settle leaves the slot
  behind exactly if the limiter has accepted the context and `runPreCall` has not yet resumed
  (`Hooks.SettleKeepsSlotIff`); settled even earlier, the context is counted afterwards
  (`Hooks.CountedAfterSettling`). No caller in the repository settles before `runPreCall` has
  ended (packages/gateway/src/routes/proxy/chat.ts:68-80, 151, 219 and 234, messages.ts:118, 225,
  296 and 311, stream-lifecycle.ts:45 and 59), and then no slot is lost: `Hooks.CounterIsHolders`.
* A dashboard window that ends before it begins, on another day and inside a day, reads rows
  outside the window: `DashboardWindow.SplitWindow` says exactly when.

## Model

| member | source | states |
|---|---|---|
| `FifoGate.Gate.Join` | packages/shared/src/db/sqlite-transaction.ts:22-40 | arriving is one acquire (or aborted acquire) of the chain; the ticket is the arrival number and `waiting` counts it |
| `FifoGate.Gate.Cancel` | packages/shared/src/db/sqlite-transaction.ts:35-40 | an abort marks the waiter and changes nothing else |
| `FifoGate.Gate.TakeTurn` | packages/shared/src/db/sqlite-transaction.ts:41-51 | a turn grants a live waiter and passes straight on for a cancelled one |
| `FifoGate.Gate.LetGo` | packages/shared/src/db/sqlite-transaction.ts:45-50 | only the first release of a grant has an effect |
| `FifoGate.GateSafety` | packages/shared/src/db/sqlite-transaction.ts:13-54 | over every interleaving: at most one holder, nobody overtakes, and `waiting` counts the callers whose turn has not come |
| `FifoGate.GrantOrder` | packages/shared/src/db/sqlite-transaction.ts:13-54 | grants happen in arrival order, each caller at most once, and are exactly the uncancelled turns |
| `FifoGate.TurnIsEnabled` | packages/shared/src/db/sqlite-transaction.ts:28-44 | with no holder the next link can always take its turn |
| `FifoGate.CancelledBlockNobody` | packages/shared/src/db/sqlite-transaction.ts:35-44 | from any state without a holder, the turns of cancelled waiters alone lead to a grant of the first live one |
| `FifoGate.ChainRefinesLock` | packages/shared/src/db/sqlite-transaction.ts:13-54 | the promise chain with cancellation refines a lock with a FIFO queue of live waiters |
| `SqliteTransaction.Connection.Commit` | packages/shared/src/db/read-snapshot-sqlite.ts:78-84 | COMMIT is tried only without a failure and makes the working content durable iff it succeeds |
| `SqliteTransaction.Connection.Rollback` | packages/shared/src/db/sqlite.ts:374-385 | an open transaction is undone or the connection is marked unusable |
| `SqliteTransaction.Connection.Finish` | packages/shared/src/db/read-snapshot-sqlite.ts:73-89 | the last segment of a run computes the specified outcome and connection |
| `SqliteTransaction.ReturnsIffCommitted` | packages/shared/src/db/read-snapshot-sqlite.ts:73-89 | the last segment of a begun run returns a value iff its COMMIT was tried and succeeded, and without BEGIN only if what kept it from beginning was `undefined`; a run that throws makes nothing durable at its end, and the connection is out of the transaction or unusable |
| `SqliteTransaction.ReturnedIff` | packages/shared/src/db/read-snapshot-sqlite.ts:64-92 | over every history a transaction stands at `Returned` iff its bracket ended by a COMMIT that succeeded, with no failure heard from its callback and operations or only `undefined`, or its BEGIN failed with `undefined` |
| `SqliteTransaction.BeginFailureIsThrown` | packages/shared/src/db/read-snapshot-sqlite.ts:64-71 | a run whose BEGIN failed stands ever after at the error it failed with, or at `Returned` if that is `undefined` |
| `SqliteTransaction.FinishEnds` | packages/shared/src/db/read-snapshot-sqlite.ts:69-89 | how a begun run stands ever after, from its own rejections, whether its transaction is still open and the engine's answers: returned, the failed ROLLBACK, the failed COMMIT, or its callback's failure before that of its operations |
| `SqliteTransaction.FinishWaits` | packages/shared/src/db/read-snapshot-sqlite.ts:73-77 | a bracket ends only when every operation issued in it has settled |
| `SqliteTransaction.TaintedIff` | packages/shared/src/db/sqlite.ts:374-385 | over every history the connection has been given up iff some ROLLBACK of a transaction that was still open failed |
| `SqliteTransaction.LateRequest` | packages/shared/src/db/sqlite.ts:242-246 | a caller that comes after that is refused for good, any other queues at the gate |
| `SqliteTransaction.CommitRule` | packages/shared/src/db/read-snapshot-sqlite.ts:70-85 | COMMIT is tried iff BEGIN succeeded and neither the callback nor a drained operation rejected, unless one rejects with `undefined` |
| `SqliteTransaction.UndefinedRejectionCommits` | packages/shared/src/db/read-snapshot-sqlite.ts:70-85 | a rejection with `undefined` is committed and reported as success |
| `SqliteTransaction.AllOrNothing` | packages/shared/src/db/read-snapshot-sqlite.ts:43-96 | over every interleaving, whatever SQL the callers execute: what is durable of a run, or of the plain statements together, depends on its own actions only: what it committed by itself or wrote with no transaction open, and at the end of a run that returned everything in the transaction it had open |
| `SqliteTransaction.UndisturbedIsAtomic` | packages/shared/src/db/read-snapshot-sqlite.ts:43-96 | a run whose operations execute no BEGIN, COMMIT or ROLLBACK and whose transaction the engine does not end: all its writes became durable at one instant if it began and returned, and none otherwise |
| `SqliteTransaction.ThrownLeavesNothingIff` | packages/shared/src/db/read-snapshot-sqlite.ts:43-96 | a run that its bracket did not commit left nothing durable iff, by its own actions, it neither committed writes itself nor wrote with no transaction open |
| `SqliteTransaction.BrokenRunLeavesWrite` | packages/shared/src/db/read-snapshot-sqlite.ts:43-96 | a throwing run leaves a write that it executed after the engine had ended its transaction |
| `SqliteTransaction.SelfCommitLeavesWrite` | packages/shared/src/db/sqlite.ts:74-93 | a throwing run leaves what it had committed with a COMMIT of its own |
| `SqliteTransaction.SelfRollbackLeavesWrite` | packages/shared/src/db/sqlite.ts:74-93 | a run that rolls back by itself leaves what it wrote afterwards, and fails at COMMIT although nothing rejected |
| `SqliteTransaction.BracketExclusive` | packages/shared/src/db/read-snapshot-sqlite.ts:50-93 | over every interleaving: one run at most is inside the bracket, ended runs hold no slot, and with nobody in a bracket a usable connection is in a transaction iff the plain statements have left one open |
| `SqliteTransaction.PlainNeverOpens` | packages/shared/src/db/sqlite.ts:74-93 | they have none open as long as none of them executes BEGIN |
| `SqliteTransaction.PlainWriteIsDurableIff` | packages/shared/src/db/sqlite.ts:74-93 | a plain write is durable at once iff they have none open |
| `SqliteTransaction.PlainBeginStaysOpen` | packages/shared/src/db/sqlite.ts:74-93 | a plain BEGIN leaves the usable connection in a transaction with nobody inside |
| `SqliteTransaction.GateDiscipline` | packages/shared/src/db/read-snapshot-sqlite.ts:90-93 | every action is at most one legal step of the FIFO lock, and each run releases exactly the slot it holds |
| `TransactionDrain.DrainEndsIff` | packages/shared/src/db/sqlite.ts:168-174 | the drain after a callback ends whatever the iterations yield, after a bounded number of steps, iff no iteration that `settle` does not cancel is or gets in front of an operation, on its first or second visit to the gate |
| `TransactionDrain.DrainHangs` | packages/shared/src/db/sqlite.ts:168-174 | once an operation waits behind an iteration at a row, the drain waits until somebody resumes or ends that iteration or closes its statement |
| `TransactionDrain.ResumedGoesOn` | packages/shared/src/db/sqlite-statement.ts:395-413 | a resumed iteration goes on: it ends and lets go of the gate, or stands at its next row |
| `TransactionDrain.IteratedTwice` | packages/shared/src/db/sqlite-statement.ts:245-254 | a run after which the drain can hang: a statement is iterated again while its first iteration runs |
| `TransactionDrain.ClearedByAnother` | packages/shared/src/db/sqlite-statement.ts:405-413 | another: the end of the first iteration clears what stood for the second |
| `TransactionDrain.PreparedTooLate` | packages/shared/src/db/sqlite.ts:105-115 | another: an `iterate(sql)` of the handle is still being prepared when the callback ends, and a `get` is behind it |
| `TransactionDrain.OneAtATimeDrains` | packages/shared/src/db/sqlite-statement.ts:245-261 | callbacks that iterate each statement once at a time, and end with no `iterate(sql)` still being prepared, have a drain that ends whatever the iterations yield |
| `TransactionDrain.TransactionContext.LeaveGate` | packages/shared/src/db/sqlite.ts:54-78 | the first visit of `run`, `get` or `all` is followed by a second, and the preparation of an iteration by the iteration |
| `TransactionDrain.TransactionContext.CancelIteration` | packages/shared/src/db/sqlite-statement.ts:256-261 | cancels the one iteration the statement stands for, and frees the gate if that stands at a row |
| `TransactionDrain.TransactionContext.SettleAll` | packages/shared/src/db/sqlite.ts:168-171 | the loop over the statements makes exactly the settling step |
| `BusyRetry.BusyAndSnapshot` | packages/shared/src/db/sqlite-transaction.ts:101-114 | BUSY is retryable and BUSY_SNAPSHOT is not, by number or by code text |
| `BusyRetry.RetryableIff` | packages/shared/src/db/sqlite-transaction.ts:107-114 | an error is retryable iff its number has low byte 5 and is not 517, or it has no number and its code text starts with SQLITE_BUSY and does not mention SNAPSHOT |
| `BusyRetry.BackoffIs` | packages/shared/src/db/sqlite-transaction.ts:154-156 | the waits are 10, 20, 40, 80, 160 and then 200 ms, before the jitter |
| `BusyRetry.RetryWhileBusy` | packages/shared/src/db/sqlite-transaction.ts:137-161 | an attempt that throws an error with another number than BUSY, or without a number and with another code, is the last one and is rethrown without a further sleep; one with low byte 5 other than 517 is tried again as long as budget is left and else ends as timed out; every sleep is the wait with its jitter, or the rest of the budget if that is less |
| `BusyRetry.SleepsWithinBudget` | packages/shared/src/db/sqlite-transaction.ts:152-157 | such sleeps add up to no more than the budget, each of them positive and below 225 ms |
| `BusyRetry.SleepsAreFew` | packages/shared/src/db/sqlite-transaction.ts:152-157 | and there are at most n of them once n waits add up to the budget |
| `BusyRetry.TotalBackoffClosed` | packages/shared/src/db/sqlite-transaction.ts:154-156 | n backoffs take at least 310 + 200 (n - 5) ms |
| `BusyRetry.RetryOnDefaultBudget` | packages/shared/src/db/sqlite-transaction.ts:90-93 | on the default budget at most 5000 ms of sleep and 30 attempts |
| `ReadSnapshot.SnapshotLifetime.Track` | packages/shared/src/db/read-snapshot-executor.ts:88-106 | a call runs iff the handle is open; it is pending either way |
| `ReadSnapshot.SnapshotLifetime.Prepared` | packages/shared/src/db/read-snapshot-executor.ts:156-161 | a prepared statement is registered for closing when its prepare settles |
| `ReadSnapshot.SnapshotLifetime.Iterate` | packages/shared/src/db/read-snapshot-executor.ts:126-131 | an iterator is registered before its first row is asked for |
| `ReadSnapshot.SnapshotLifetime.End` | packages/shared/src/db/read-snapshot-executor.ts:135-138 | a wrapper that ends returns its iterator |
| `ReadSnapshot.SnapshotLifetime.ReturnIterator` | packages/shared/src/db/read-snapshot-executor.ts:197-197 | one turn of the return loop; a rejection ends the cleanup |
| `ReadSnapshot.SnapshotLifetime.CloseStatement` | packages/shared/src/db/read-snapshot-executor.ts:198-198 | one turn of the close loop; a rejection ends the cleanup |
| `ReadSnapshot.ExitReleasesIff` | packages/shared/src/db/read-snapshot-executor.ts:176-200 | however `run` exits the handle is closed and nothing accepted is pending; every iterator is returned and every statement closed iff no wrapper's own `return()` is still under way and a rejecting `return()` or `close()` left the cleanup nothing to do that the callback had not done itself |
| `ReadSnapshot.OrderlyExit` | packages/shared/src/db/read-snapshot-executor.ts:176-200 | without a cleanup rejection every statement is closed and every iterator returned, or being returned by its own wrapper |
| `ReadSnapshot.FailingExit` | packages/shared/src/db/read-snapshot-executor.ts:197-198 | a run in which a rejecting `return()` leaves a statement open |
| `ReadSnapshot.SnapshotLifetime.CallClose` | packages/shared/src/db/read-snapshot-executor.ts:117-121 | a callback closes its own statement by a checked call |
| `ReadSnapshot.SnapshotLifetime.CallIterate` | packages/shared/src/db/read-snapshot-executor.ts:115-116 | `iterate` of a prepared statement reaches the statement without a check; only a closed statement refuses |
| `ReadSnapshot.RevokedForGood` | packages/shared/src/db/read-snapshot-executor.ts:88-106 | after an abort or the end of the callback no tracked call and no `next()` reaches the transaction any more |
| `ReadSnapshot.DeedsAre` | packages/shared/src/db/read-snapshot-executor.ts:84-139 | over every run the handle is open until the first abort or end of the callback, and what is prepared, closed, iterated, returned and let through is what the steps say, what is checked counting only until then |
| `ReadSnapshot.RevokedButForBypass` | packages/shared/src/db/read-snapshot-executor.ts:108-124 | of a revoked handle only the unchecked uses of a prepared statement that is not yet closed get through, `iterate` and property reads, and those do |
| `ReadSnapshot.SealedAfterExit` | packages/shared/src/db/read-snapshot-executor.ts:176-200 | after an exit without a cleanup rejection not even those get through |
| `ReadSnapshot.BypassAfterRevocation` | packages/shared/src/db/read-snapshot-executor.ts:115-116 | a run in which one gets through after the revocation |
| `ReadSnapshot.ExitIsFinal` | packages/shared/src/db/read-snapshot-executor.ts:192-199 | after the exit the cleanup closes no statement and returns no iterator any more |
| `ReadSnapshot.RejectingReturnLeaks` | packages/shared/src/db/read-snapshot-executor.ts:197-198 | a rejecting `return()` leaves every statement open for good that the callback had not closed itself, and every iterator that the loop had not come to |
| `ReadSnapshot.RejectingCloseLeaks` | packages/shared/src/db/read-snapshot-executor.ts:198-198 | a rejecting `close()` leaves every statement open that neither the callback nor the loop had closed |
| `ReadSnapshot.DrainHangs` | packages/shared/src/db/read-snapshot-executor.ts:196-197 | a drain with a call that waits for the transaction's gate behind a suspended iterator waits until that iterator's consumer ends it |
| `ReadSnapshot.DrainEndsIff` | packages/shared/src/db/read-snapshot-executor.ts:126-138 | the drain ends whatever rows there are, after a bounded number of steps, iff no call waits behind an iterator that stands at a row and is neither awaited nor on its way out |
| `ReadSnapshot.AbortedRunHangs` | packages/shared/src/db/read-snapshot-executor.ts:176-200 | an aborted run whose drain does not end by itself |
| `ReadSnapshot.HasTopLevelWriteKeyword` | packages/shared/src/db/read-snapshot-executor.ts:18-46 | the one-pass scanner says yes iff some whole word at parenthesis depth zero is a write keyword not used as a call |
| `ReadSnapshot.KeywordIff` | packages/shared/src/db/read-snapshot-executor.ts:8-8 | a write keyword is INSERT, UPDATE, DELETE or REPLACE with its letters in either case |
| `ReadSnapshot.DepthIs` | packages/shared/src/db/read-snapshot-executor.ts:21-30 | the depth is the greatest surplus of opening parentheses in the text before, wherever that is taken to begin |
| `SessionList.PageFirstMatchesLegacy` | packages/server/src/routes/sessions.ts:184-265 | for every table, metrics, filter, sort key, direction, limit, offset and scan orders the page-first query gives the rows of the frozen one; what they show is in `SessionRows.PageShowsTotals` |
| `SessionList.TraceRankedMatchesLegacy` | packages/server/src/routes/sessions.ts:184-265 | the same for the shape that ranks by a trace column |
| `SessionList.MetricRankedMatchesLegacy` | packages/server/src/routes/sessions.ts:184-265 | the same for the shape that ranks by a metric column |
| `SessionList.PageTracesAgree` | packages/server/src/routes/sessions.ts:140-146 | re-reading the traces of the page's sessions finds exactly those sessions' matching traces |
| `SessionList.PageIsInOrder` | packages/server/src/routes/sessions.ts:184-265 | a page is in the requested order by the values it shows, ties by id ascending |
| `SessionList.PagesEnumerateSessions` | packages/server/src/routes/sessions.ts:327-343 | pages 1 to ceil(total / limit) list every matching session exactly once, and total is the count query's answer, whatever order each statement of each page scans in |
| `SessionList.PagesWithSessions` | packages/server/src/routes/sessions.ts:366-368 | exactly the pages up to totalPages have sessions on them |
| `SessionList.AllSessionsOnce` | packages/server/src/__tests__/sessions-bench-baseline.ts:48-105 | the frozen statement lists exactly the sessions with a matching trace, once each, as many as the frozen count |
| `SessionList.SumOfPermutation` | packages/server/src/__tests__/sessions-bench-baseline.ts:48-105 | SUM over a LEFT JOIN with NULLs does not depend on the scan order; that it is a sum is in `SessionRows.SumIsTotal` |
| `SessionList.MinTimeIsLeast` | packages/server/src/routes/sessions.ts:148-175 | created_at is the least timestamp of the session |
| `SessionList.MaxTimeIsGreatest` | packages/server/src/routes/sessions.ts:148-175 | the end of the session is its greatest timestamp |
| `SessionList.MaxEnvironmentIsGreatest` | packages/server/src/routes/sessions.ts:148-175 | the environment is the greatest one of the session in text order |
| `SessionRows.PageShowsTotals` | packages/server/src/routes/sessions.ts:140-168 | every row of a page shows the figures of exactly the traces of its session that are of the project, not deleted and let through by the filters: first and last time, number, tags, environment, users, and for each measure the total, or NULL or 0 iff none of them has the measure |
| `SessionRows.TotalFalls` | packages/server/src/routes/sessions.ts:162-168 | whichever trace is taken out of a group, each total falls by exactly that trace's measure, by 0 if it has none |
| `SessionRows.SumIsTotal` | packages/server/src/routes/sessions.ts:162-168 | the SUM over a scan is that total |
| `SessionRows.SumIsNull` | packages/server/src/routes/sessions.ts:162-168 | it is NULL iff no trace of the scan has the measure |
| `SessionRows.PageIsSorted` | packages/server/src/routes/sessions.ts:190-215 | of two rows the one before has the smaller figure in the sort column, or the greater one when descending, NULL below every number, and the smaller id where they are equal |
| `SessionRows.PageSessions` | packages/server/src/routes/sessions.ts:190-215 | a page has the sessions at its places of the whole list, and the list is that of the sessions with a matching trace |
| `Orders.TextLessIff` | packages/server/src/routes/sessions.ts:190-215 | text is ordered by the first place where two texts differ, a prefix first |
| `SessionArrays.ParseTagsConcat` | packages/server/src/routes/sessions.ts:90-105 | the tags are the union over the well-formed blobs, once each, sorted |
| `SessionArrays.TagsIgnoreOrder` | packages/server/src/routes/sessions.ts:81-105 | scans that deliver the same blobs in other orders or repetitions give the same tags |
| `SessionArrays.UsersComeBackIff` | packages/server/src/routes/sessions.ts:107-110 | concatenating and splitting the users gives them back iff none contains the separator |
| `KeysetWalk.NthIsPage` | packages/server/src/routes/errors.ts:118-125 | as long as cursors come back as sent, reply k is page k of the whole sorted listing |
| `KeysetWalk.WalkListsAllOnce` | packages/server/src/routes/errors.ts:163-206 | following cursors ends, with every matching row once in (start_time, id) descending order, for any limit of at least 1 |
| `KeysetWalk.WalkIsNewestFirst` | packages/server/src/routes/errors.ts:163-165 | of two rows the walk shows the later one first, and of rows with the same time the one with the greater id |
| `KeysetWalk.FullPageIs` | packages/server/src/routes/errors.ts:170-206 | every page that is followed by another has `limit` rows, and its cursor carries time and id of the last one |
| `KeysetWalk.PagesNeeded` | packages/server/src/routes/errors.ts:163-206 | for every listing there is the number of requests after which the walk ends |
| `KeysetWalk.ErrorsWalk` | packages/server/src/routes/errors.ts:40-53 | rows with times and ids never lead to a refused cursor |
| `KeysetWalk.ErrorsPageIff` | packages/server/src/routes/errors.ts:40-53 | a following request is right iff the page before ended with a row that has a time and an id; otherwise it is refused |
| `KeysetWalk.ObservationsWalk` | packages/server/src/routes/observations-v2.ts:100-176 | the v2 walk is faithful over rows with ids and fractional seconds |
| `KeysetWalk.ObservationsPageIff` | packages/server/src/routes/observations-v2.ts:100-176 | a following v2 request is right iff the page before ended with such a row |
| `KeysetWalk.ObservationsWalkIff` | packages/server/src/routes/observations-v2.ts:100-176 | the whole v2 walk is right iff every page followed by another ends with such a row |
| `KeysetWalk.SameSecondRepeats` | packages/server/src/shaping/observations-v2.ts:52-58 | a first page at one start time, without fraction or empty, is sent again for ever |
| `PromptResolution.ScanDependencies` | packages/server/src/shaping/prompts-v2.ts:155-174 | the tags of a text, each key once, in order of first appearance, trimmed |
| `PromptResolution.ScanFindsTags` | packages/server/src/shaping/prompts-v2.ts:155-174 | the tags that are scanned have each key that some tag has, and no key twice |
| `PromptResolution.TrimmedTextIs` | packages/server/src/shaping/prompts-v2.ts:164-168 | what is trimmed off a name or label is white space at its two ends |
| `PromptResolution.ExtractCoversIff` | packages/server/src/shaping/prompts-v2.ts:155-192 | the extracted dependencies cover the tags of the content iff no tag has a blank name or label |
| `PromptResolution.BlankTagStays` | packages/server/src/shaping/prompts-v2.ts:155-174 | a tag with a blank name or label stays literal, although what it is scanned as is resolved |
| `PromptResolution.Resolver.ResolveReference` | packages/server/src/shaping/prompts-v2.ts:283-319 | one round of the loop: the value is the child's expansion under the longer path, the graph node has the child's version, labels and tree, and `visiting` is restored |
| `PromptResolution.Resolver.ResolveDependencyMap` | packages/server/src/shaping/prompts-v2.ts:277-323 | terminates on every store; gives exactly the denotation's values and tree, restores `visiting`, and a failure comes with the chain of references that leads to it |
| `PromptResolution.Resolver.Resolve` | packages/server/src/shaping/prompts-v2.ts:334-345 | it succeeds iff no chain of references, each what the prompt before it refers to, leads to a missing prompt, and else names the end of such a chain; then what the prompt refers to is replaced by its own expansion, under its key, and nothing else; the graph is the tree of what is followed, and absent iff the prompt refers to nothing |
| `PromptResolution.RefersToIff` | packages/server/src/shaping/prompts-v2.ts:195-214 | what is followed under a key is the first row of the dependency table with that key, and in a prompt without rows the first tag of its content that is scanned with it |
| `PromptResolution.FollowsAllBelow` | packages/server/src/shaping/prompts-v2.ts:278-323 | what is resolved is resolved all the way down: at every prompt that a chain of references leads to, everything it refers to off the path is in the store and has its expansion as replacement, and nothing else has one |
| `PromptResolution.RowsAndTagsHaveValues` | packages/server/src/shaping/prompts-v2.ts:195-214 | so every row of a dependency table, and every tag of a prompt without rows, has a replacement under its key unless that is on the path |
| `PromptResolution.GraphNamesReplaced` | packages/server/src/shaping/prompts-v2.ts:303-317 | at every place the graph shows exactly the names of the dependencies that have a value for their tags |
| `PromptResolution.GraphIsShallow` | packages/server/src/shaping/prompts-v2.ts:272-287 | cycles are cut: no way down the graph is longer than the store has keys |
| `PromptResolution.GraphNodeIs` | packages/server/src/shaping/prompts-v2.ts:315-319 | a name in the graph stands for the last dependency followed under it, with its version, its labels and the graph of what that one refers to |
| `PromptResolution.ReplaceIsExpand` | packages/server/src/shaping/prompts-v2.ts:243-270 | replacing tags by the resolved values is one level of the recursive substitution, in text and in chat messages |
| `PromptResolution.TokenBecomes` | packages/server/src/shaping/prompts-v2.ts:243-250 | wherever it stands, a tag with a text for its key becomes that text, one with anything else for its key that as JSON, and all other text stays |
| `PromptResolution.MessagesBecome` | packages/server/src/shaping/prompts-v2.ts:252-270 | every message keeps its place and role, and only text content is replaced in |
| `PromptResolution.TagStaysOnPath` | packages/server/src/shaping/prompts-v2.ts:283-286 | a listed tag stays literal iff its key is on the current expansion path |
| `PromptResolution.TagGetsItsOwnIff` | packages/server/src/shaping/prompts-v2.ts:283-319 | a reference that a tag can spell gets the content it names in every store and list of such references iff its key can be read in one way only |
| `PromptResolution.TagGetsAnother` | packages/server/src/shaping/prompts-v2.ts:283-319 | for any other reference there is a store and a prompt in which it gets another prompt's content |
| `PromptResolution.AcyclicLeavesNoTag` | packages/server/src/shaping/prompts-v2.ts:243-345 | on an acyclic store a resolvable prompt keeps no tag anywhere |
| `PromptResolution.DepKeyIsUniqueIff` | packages/server/src/shaping/prompts-v2.ts:143-153 | among references that tags can spell, one shares its key with no other iff no other separator in its key can be read as the one between a name and a label |
| `PromptResolution.NoSeparatorIsUnambiguous` | packages/server/src/shaping/prompts-v2.ts:143-153 | a reference without the separator in name and label is such |
| `PromptResolution.SharedKey` | packages/server/src/shaping/prompts-v2.ts:143-153 | any other one shares its key with another reference that a tag can spell |
| `SseStream.Reader.HandleLine` | packages/gateway/src/provider/base.ts:156-186 | one complete line: over the limit, ignored, end marker, or a chunk with its usage |
| `SseStream.PayloadIff` | packages/gateway/src/provider/base.ts:163-165 | a line has a payload iff it is `data: ` and the payload, which neither is empty nor ends in white space, with only white space around |
| `SseStream.ByteLengthIsUtf8` | packages/gateway/src/provider/base.ts:156-161 | the length a line is measured by is that of its UTF-8 bytes |
| `Texts.SpaceIff` | packages/gateway/src/provider/base.ts:163-163 | white space is what `trim` takes away: 25 code points |
| `SseStream.Reader.Feed` | packages/gateway/src/provider/base.ts:149-186 | after every read the chunks are those of the complete lines so far, the residue is the unterminated rest and within the limit |
| `SseStream.ReadStream` | packages/gateway/src/provider/base.ts:135-186 | however the text is cut, the chunks are those of the terminated `data: ` lines up to the first `[DONE]`, unless some line is over the limit |
| `SseStream.ReadTwoCuttings` | packages/gateway/src/provider/base.ts:135-186 | with no line over the limit two cuttings of the same text give the same chunks |
| `Utf8Text.DecodeScalar` | packages/gateway/src/spend/record.ts:8-14 | a streaming decoder turns a scalar's UTF-8 bytes back into it |
| `Utf8Text.DecodeCutScalar` | packages/gateway/src/spend/record.ts:8-14 | a cut sequence at the end gives nothing in streaming mode |
| `Utf8Text.EncodeIsUtf8` | packages/gateway/src/spend/record.ts:8-14 | encoding well-formed UTF-16 gives the UTF-8 bytes of its scalars, one after the other |
| `Utf8Text.DecodeOfEncode` | packages/gateway/src/spend/record.ts:8-14 | decoding what was encoded gives the text back |
| `SpendRecord.BoundedBodyIsLongestPrefix` | packages/gateway/src/spend/record.ts:7-14 | the body is the longest whole-scalar prefix that fits in the limit, or in 10240 bytes if that is negative or no safe integer, iff no leading byte order mark is lost |
| `SpendRecord.BoundedBodyFits` | packages/gateway/src/spend/record.ts:7-14 | the stored body never exceeds that many bytes, and no body is stored for none |
| `SpendLedger.Database.RecordSpend` | packages/gateway/src/spend/record.ts:20-107 | the writes of one transaction: a log row if wanted, the bucket of the event grown by it, and the counter of its key if there is one |
| `SpendLedger.DailyIsTotal` | packages/gateway/src/spend/record.ts:57-98 | after every run of attempts each aggregate is the total over the committed events of its bucket, and the log is those events |
| `SpendLedger.TotalsAreSums` | packages/gateway/src/spend/record.ts:63-96 | every figure of a total is the sum of that figure over the events: tokens of either kind, spend, and one request each, a success or a failure |
| `SpendLedger.SameBucketIff` | packages/gateway/src/spend/record.ts:66-88 | two events go into one aggregate iff they agree in project, key, day, model and provider, a missing name counting as the empty one |
| `SpendLedger.BudgetIsTotal` | packages/gateway/src/spend/record.ts:100-105 | a key's counter has grown by what its committed events spent |
| `SpendLedger.OtherBudgetsStay` | packages/gateway/src/spend/record.ts:100-105 | no run adds or removes a counter, and those of which no committed event names the key stay as they were |
| `SpendLedger.BooksAgree` | packages/gateway/src/spend/record.ts:16-20 | a key's counter has grown by exactly what its daily rows add up to |
| `BoundedResponse.Append` | packages/server/src/bounded-response.ts:46-56 | appending keeps the bytes; capacity never exceeds the limit and growth has copied fewer than twice the limit |
| `BoundedResponse.ReadPrefix` | packages/server/src/bounded-response.ts:29-61 | the loop ends with all bytes, or with the prefix and the chunk that did not fit, or because of an abort or a failed read |
| `BoundedResponse.Bounded.BufferSmallResponse` | packages/server/src/bounded-response.ts:2-103 | a body is present iff the bytes fit; otherwise everything is still to be streamed; thrown iff aborted or a read failed |
| `BoundedResponse.Bounded.Pull` | packages/server/src/bounded-response.ts:65-91 | a pull hands on the next bytes and loses none; the end releases the reader |
| `BoundedResponse.Bounded.Drain` | packages/server/src/bounded-response.ts:64-101 | reading the stream to its end gives exactly the pending bytes and releases the reader once |
| `BoundedResponse.Bounded.CancelSettles` | packages/server/src/bounded-response.ts:20-27 | a settled cancellation releases the reader, at most once in all |
| `BoundedResponse.ReadThrough` | packages/server/src/bounded-response.ts:1-103 | buffering and then reading gives the source's bytes for every chunking |
| `BoundedResponse.ReadBoundedText` | packages/gateway/src/provider/lifecycle.ts:21-64 | the first `limit` bytes, or an error iff there are more and truncation is off |
| `ResponseCache.RoomFacts` | packages/server/src/response-cache.ts:50-55 | makeRoom drops the least recently used entries, no more than needed, and then the new one fits |
| `ResponseCache.TimerDropsExpired` | packages/server/src/response-cache.ts:40-43 | the timer leaves exactly the unexpired entries |
| `ResponseCache.RunIsSafe` | packages/server/src/response-cache.ts:86-154 | at every await point: the byte count is the sum of cached sizes and within 32 MiB, at most 1024 entries, cached and in-flight keys disjoint, flights manned, nobody stranded |
| `ResponseCache.OneOwnerPerKey` | packages/server/src/response-cache.ts:102-127 | two running owners never have the same key |
| `ResponseCache.WaiterHasOwner` | packages/server/src/response-cache.ts:56-80 | a waiter always has a running owner for its key |
| `ResponseCache.SettledOnce` | packages/server/src/response-cache.ts:56-80 | a settled request is never settled again |
| `ResponseCache.OwnerSettlesWaiters` | packages/server/src/response-cache.ts:119-154 | however an owner ends every waiter of its key is settled at that moment, with the shared body if there is one; the owner is finished, and nobody else is concerned |
| `ResponseCache.LeavesAlone` | packages/server/src/response-cache.ts:56-80 | a waiter that is cancelled or times out settles itself alone; the timer and a clearing settle nobody |
| `ResponseCache.StandsIff` | packages/server/src/response-cache.ts:23-55 | over every run an entry is in the cache iff an owner cached it and since then the cache was not cleared, no timer and no arrival for its key found its time to be up, and no caching had to evict it |
| `ResponseCache.ArrivalIs` | packages/server/src/response-cache.ts:86-127 | over every run an arrival is served a body iff that stands so for its key and `now < expiresAt`; otherwise it waits for the running owner of the key or becomes the owner, unless 64 wait for it or 128 keys have owners; nobody else is concerned |
| `ResponseCache.RoomKeepsIff` | packages/server/src/response-cache.ts:50-55 | making room keeps an entry iff it and the more recently used ones are fewer than 1024 and leave room for the new body |
| `ResponseCache.InOrderOfUse` | packages/server/src/response-cache.ts:93-96 | over every run the entries stand in the order of their last use, by a hit or by being cached |
| `ResponseCache.InsertedIsSafe` | packages/server/src/response-cache.ts:142-147 | caching keeps the byte count right because the key in flight is not cached |
| `ResponseCache.Responses.MakeRoom` | packages/server/src/response-cache.ts:50-55 | the eviction loop computes the specified cache |
| `ResponseCache.Responses.OnRequest` | packages/server/src/response-cache.ts:92-127 | a request up to its first await makes exactly the arrival step |
| `ResponseCache.Responses.OnOwnerEnds` | packages/server/src/response-cache.ts:128-154 | an owner from its last await on makes exactly the ending step |
| `ResponseCache.Responses.OnTimer` | packages/server/src/response-cache.ts:40-43 | the timer makes exactly the expiry step |
| `RequestLimits.RunIsSafe` | packages/server/src/request-limits.ts:21-128 | over every interleaving `active` is the number of admitted requests that have not given their slot back, within the limit |
| `RequestLimits.ReleasedIffOver` | packages/server/src/request-limits.ts:33-128 | a slot has been given back iff the events say that the response is over: refused, thrown, without a body, ended or failed before anyone gave up, or its cancellation finished |
| `RequestLimits.ActiveIsOpen` | packages/server/src/request-limits.ts:21-128 | so `active` is the number of admitted requests whose response is not over |
| `RequestLimits.SlotsMoveOnce` | packages/server/src/request-limits.ts:35-41 | a slot is given back at most once, and only then does `active` fall |
| `RequestLimits.TurnedAwayWhenFull` | packages/server/src/request-limits.ts:24-28 | an arrival is turned away iff as many responses as the limit are not over |
| `RequestLimits.CancellationKeepsSlot` | packages/server/src/request-limits.ts:45-60 | a cancelling response keeps its slot until the cancellation has finished |
| `RequestLimits.AbortCancels` | packages/server/src/request-limits.ts:53-60 | an aborted streaming response that holds its slot is being cancelled |
| `RequestLimits.ToldIs` | packages/server/src/request-limits.ts:61-128 | over every interleaving the answer a request has been given, whether its outgoing stream is closed, and whether a read is under way are what its own events say |
| `RequestLimits.Middleware.OnArrive` | packages/server/src/request-limits.ts:23-71 | admission makes exactly the arrival step |
| `RequestLimits.Middleware.OnHandlerReturns` | packages/server/src/request-limits.ts:95-127 | the end of the handler makes exactly its step |
| `RequestLimits.Middleware.OnRead` | packages/server/src/request-limits.ts:105-115 | a pull after its await makes exactly its step |
| `RateWindow.Counter.CheckAndIncrement` | packages/gateway/src/utils/sliding-window.ts:27-43 | admits and counts as specified |
| `RateWindow.Counter.Cleanup` | packages/gateway/src/utils/sliding-window.ts:87-95 | removes exactly the windows older than two minutes |
| `RateWindow.RemainingIsHowMany` | packages/gateway/src/utils/sliding-window.ts:62-71 | `getRemaining` is the number of calls that would be admitted now |
| `RateWindow.ResetTimeIsWhen` | packages/gateway/src/utils/sliding-window.ts:76-82 | `getResetTime` is the moment from which a refused key is admitted again |
| `RateWindow.ResetTimeIsEndIff` | packages/gateway/src/utils/sliding-window.ts:76-82 | it is the end of the window a call now would be counted in iff the key's last window has not run out; else it lies in the past |
| `RateWindow.CountIsSpent` | packages/gateway/src/utils/sliding-window.ts:27-57 | a key's window starts at the last event that found none live, and its count is one for each call admitted from then on plus every amount added |
| `RateWindow.AdmittedIff` | packages/gateway/src/utils/sliding-window.ts:27-43 | a call is admitted iff the last window has run out or less than the limit has been spent in it |
| `RateWindow.RunTracks` | packages/gateway/src/utils/sliding-window.ts:27-95 | every window admits at most the limit, and windows are at least their length apart, or 120001 ms once the cleanup has run |
| `RateWindow.AtMostTwoWindows` | packages/gateway/src/utils/sliding-window.ts:27-95 | any half-open interval up to window length has at most twice the limit of admitted calls, for any window length without cleanup and up to 120001 ms with it |
| `RateWindow.TwoWindowsIff` | packages/gateway/src/utils/sliding-window.ts:87-95 | with the cleanup running, every interval of window length keeps that bound iff windows are at most 120001 ms long |
| `RateWindow.AtMostTwoWindowsLessOne` | packages/gateway/src/utils/sliding-window.ts:27-43 | under the same conditions keys counted by calls alone have at most twice the limit less one |
| `RateWindow.CallsReachBound` | packages/gateway/src/utils/sliding-window.ts:27-43 | that bound is reached |
| `RateWindow.AddsReachBound` | packages/gateway/src/utils/sliding-window.ts:48-57 | with incrementBy twice the limit is reached |
| `RateWindow.CleaningChangesNothing` | packages/gateway/src/utils/sliding-window.ts:87-95 | cleanup at any moments changes no decision for windows up to 120001 ms |
| `RateWindow.CleaningIsHarmlessIff` | packages/gateway/src/utils/sliding-window.ts:87-95 | and only for those |
| `Hooks.RunIsSafe` | packages/gateway/src/hooks/registry.ts:18-55 | over every interleaving of fresh contexts, settled at any time, a context is counted iff it passed the limiter and the limiter was not told of its completion |
| `Hooks.CounterIsOwners` | packages/gateway/src/hooks/parallel-limiter.ts:15-54 | in every run a key's counter is the number of its contexts that are counted in that sense |
| `Hooks.CounterIsHolders` | packages/gateway/src/hooks/parallel-limiter.ts:15-54 | if callers settle only after `runPreCall`, that is the number of its contexts that were counted and have not settled |
| `Hooks.AdmittedWithinLimit` | packages/gateway/src/hooks/parallel-limiter.ts:15-34 | a context passes iff fewer than its limit are counted, itself within the limit afterwards |
| `Hooks.CallIs` | packages/gateway/src/hooks/parallel-limiter.ts:15-34 | the limiter accepts a context without a limit or below it and counts exactly the limited ones it accepts; any other hook decides by itself and counts nothing |
| `Hooks.ResumeIs` | packages/gateway/src/hooks/registry.ts:18-32 | after an accepting preCall its hook is acquired; a rejecting one, or the last, ends `runPreCall`, and a rejection settles the context |
| `Hooks.CompletionsAre` | packages/gateway/src/hooks/registry.ts:34-55 | exactly the first completion, or a rejecting preCall before it, settles a context; a success tells all it has acquired by then in their order, a failure in reverse, and nothing else tells any |
| `Hooks.EachHookToldOnce` | packages/gateway/src/hooks/registry.ts:34-55 | only settling tells hooks, only acquired ones and each at most once; if callers settle only after `runPreCall`, every acquired hook is told and a rejecting hook is not |
| `Hooks.SettleKeepsSlotIff` | packages/gateway/src/hooks/registry.ts:18-32 | a first settle leaves a limited context counted iff the limiter has accepted it and `runPreCall` has not resumed after that |
| `Hooks.CountedAfterSettling` | packages/gateway/src/hooks/registry.ts:18-32 | a context settled before the limiter is called is still counted when it is called, unless the key is at its limit |
| `Hooks.LostForGoodIff` | packages/gateway/src/hooks/registry.ts:34-55 | a settled context is counted iff it passed the limiter and the limiter was not among the hooks told, and then whatever happens later leaves it counted |
| `Hooks.EarlySettleLoses` | packages/gateway/src/hooks/registry.ts:18-32 | such a run |
| `Hooks.Registry.Acquire` | packages/gateway/src/hooks/parallel-limiter.ts:15-34 | the limiter's preCall makes exactly the acquisition |
| `Hooks.Registry.Decrement` | packages/gateway/src/hooks/parallel-limiter.ts:45-54 | a context that owns no slot gives none back |
| `Hooks.Registry.Post` | packages/gateway/src/hooks/registry.ts:34-55 | settling tells the acquired hooks in order, or in reverse after a failure, and only the first time |
| `DashboardWindow.SplitWindow` | packages/server/src/routes/dashboard-compute.ts:47-97 | edges and days are disjoint and exactly the window, iff the window does not cross days backwards; each edge lies in its own day |
| `DashboardWindow.PlanReads` | packages/server/src/routes/dashboard-compute.ts:202-222 | the same for what buildDashboard reads, with today live and days up to yesterday for an open window |
| `DashboardWindow.FigureIsWindowSum` | packages/server/src/routes/dashboard-compute.ts:217-260 | every figure added up from days and edges is the sum over exactly the window's rows |
| `TtlMap.BoundedTtlMap.Get` | packages/gateway/src/utils/bounded-ttl-map.ts:15-19 | returns the value iff the key is there and has not expired, and forgets it if it has |
| `TtlMap.BoundedTtlMap.Set` | packages/gateway/src/utils/bounded-ttl-map.ts:21-30 | both maps keep the same keys in the same order with nondecreasing expiry and within capacity |
| `TtlMap.BoundedTtlMap.MakeRoom` | packages/gateway/src/utils/bounded-ttl-map.ts:23-27 | the eviction loop drops the oldest keys, as many as needed |
| `TtlMap.BoundedTtlMap.Sweep` | packages/gateway/src/utils/bounded-ttl-map.ts:42-47 | removes exactly the expired keys from both maps |
| `TtlMap.OldestExpireFirst` | packages/gateway/src/utils/bounded-ttl-map.ts:23-27 | evicted keys are those that expire first, no more than needed |
| `TtlMap.RunIsSound` | packages/gateway/src/utils/bounded-ttl-map.ts:15-47 | every state of every run is sound |
| `TtlMap.SetIsKept` | packages/gateway/src/utils/bounded-ttl-map.ts:15-30 | a set value is returned while younger than its time to live, left alone, and with fewer than `capacity` other keys set since; and not after its time |
| `TtlMap.DeletedIsGone` | packages/gateway/src/utils/bounded-ttl-map.ts:32-35 | a deleted key is not found until it is set again |

## Left out

- SqliteTransaction.BracketExclusive: the `activateWal` call and the snapshot abort test before BEGIN are taken together as "BEGIN fails", because they only add ways of not beginning; a successful ROLLBACK is taken to leave no open transaction.
- SqliteTransaction.AllOrNothing: savepoints and other connections to the same file are not modelled; whether an operation issued after the drain but before COMMIT is rejected is not claimed.
- Nested transactions: `assertNoTransactionReentry` refuses them before any state changes.
- Closing a connection, connecting, and the WAL pragma are not part of this model.
- ReadSnapshot.RevokedButForBypass: says which unchecked calls reach a statement, not what the statement's own bookkeeping loses by them.
- TransactionDrain.DrainEndsIff: what an operation or iteration does natively is not modelled, only that it settles, yields a row or ends; a second visit queues up in the same step as the first one ends, because nobody else can leave the gate before; calls that code left running by the callback makes during the drain are steps that the drain does not make of itself.
- ReadSnapshot.DrainEndsIff: a call takes the gate once, and an `iterate(sql)` that goes on after the revocation is not counted among the drain's own steps, since its next() is refused; a native call that has the gate is taken to be able to settle; one that never does keeps the drain waiting, as in the source.
- ReadSnapshot.HasTopLevelWriteKeyword: works on the tokens left after comments and quoted text are blanked; that blanking is regular-expression work and not modelled.
- SessionList.PageFirstMatchesLegacy: SQL text is not modelled, only the relations the CTEs denote; sums are integers, tag blobs are compared as sets, and user filters enter as an arbitrary condition on traces.
- `parseOrderBy` and the ISO formatting of the response are not modelled: one-branch facts.
- SessionArrays.ParseTagsConcat: sorts by code points; UTF-16 code unit order differs for characters beyond U+FFFF against those from U+E000 to U+FFFF.
- KeysetWalk.ObservationsWalkIff: one value of the clock stands for the clock of a whole walk; it is only read for a row without a start time.
- KeysetWalk.WalkListsAllOnce: the table is fixed during the walk, and the JSON and base64 wrapping of a cursor is taken to give back its strings.
- PromptResolution.Resolver.Resolve: version lookup is a map from references to stored prompts; label matching, parsing of stored JSON and rendering a chat prompt inside text (kept as one token) are not modelled.
- SseStream.ReadStream: text decoding, JSON parsing, the adapter and releasing the reader are not modelled (the parse and the adapter are a parameter); if some line is over the limit, which events came before depends on the cutting and is not claimed. Text is a sequence of scalar values, so the residue is measured without lone surrogates.
- SpendRecord.BoundedBodyIsLongestPrefix: for well-formed UTF-16; a text with lone surrogates of its own is not claimed.
- SpendLedger.Database.RecordSpend: that a transaction which does not commit leaves none of its writes is not derived here but taken from the engine, as a fact about each attempt of a run.
- SpendLedger.BooksAgree: amounts are integers; rounding of floating-point sums is not modelled, nor is the time of last activity.
- BoundedResponse.Bounded.Abort: `length` is set back together with the prefix; the source leaves the stale number, which no later pull reads.
- ResponseCache.RunIsSafe: cached bytes are represented by their size and the request they came from; headers and status are not modelled, and setting up the timer is not.
- RequestLimits.RunIsSafe: the upload pipe appears only as the event that it became too long; reading configuration is not modelled.
- RateWindow.AtMostTwoWindows: one limit and one window length for all events of a run, and a clock that never runs backwards.
- Hooks.RunIsSafe: hooks are registered before the first request and the limiter once; other hooks accept or reject as they like.
- DashboardWindow.SplitWindow: timestamps are integer milliseconds and days integers; text timestamps that do not parse are not modelled.
- TtlMap.SetIsKept: a clock that never runs backwards; `clear` and the timer's period are not modelled.
- Histograms and percentiles of the metrics route, log snapshots, HTTP routing, authentication, schemas, provider payload mapping and the web UI are not part of this model.

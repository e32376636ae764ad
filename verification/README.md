# Verified model of a gossip and anti-entropy node

The repository runs a peer-to-peer node that spreads signed records by gossip, repairs what gossip missed with an
anti-entropy protocol, and keeps the records in SQLite. This project models the parts whose correctness spans
functions, threads or whole runs, and proves what they promise.

- **Values and their runs.** `Sync`, `Replay`, `Store`, `Queries`, `Pipeline`, `PipelineRuns` and `QueueDepth` say
  what each operation does to a value and what a run of operations is. Everything proved about histories, such as
  replay safety, coverage, conservation or the generation stamp, is proved there for all runs.
- **The source's own form.** `SyncEngine.Actor`, `Intake.Actor`, `ReplayEngine.ReplayState`,
  `ReplayEngine.ActiveRecordFilter`, `Database.SignatureDatabase`, `Persistence.PersistenceWorker`,
  `TokenBuckets.TokenBucket`, `RateLimiting.RateLimiter`, `WindowCounters.WindowCounter` and
  `InventoryScan.GroupRows` are the objects, loops and bit arrays of the source. Each method's postcondition equates
  the new state with the value-level function of the old one, so the theorems apply to them.

The hypotheses of the coverage theorems can be met: `SyncQuiet.SoughtIsPossible` gives a digest, a table and a record.

Reading order: `Common`, `Lru`; then `Replay`, `ReplayPositions`, `ReplayRuns`, `ReplayEvictions`, `ReplayState`;
`Store`, `Writes`, `Capacity`, `Queries`, `InventoryScan`, `Database`; `Restart`; `Sync`, `SyncTimeouts`, `SyncAnswers`
and the other `Sync*` files, `SyncExtent` and `SyncQuiet` last; `Persistence`, `Pipeline`, `Intake`, `PipelineRuns`,
`PipelineIntake`, `PipelineSequences`, `PipelineOutcomes`, `PipelineMemory`, `PipelineWitness`, `QueueDepth`;
`RateLimits`, `WindowCounters`.

## What the proofs found

Some natural readings of the code are not true of it. Each is kept as the code has it, with the input that shows it,
and the property is proved under the exact condition.

- An accepted sequence can be `New` again under another id: once as many other origins as the cache holds have been
  accepted, the origin's window is gone (`TrackedExactly`), its next record makes it anew, and what lies below is
  forgotten (`EvictedSequenceIsNewAgain` for a filter of any size, `ForgettingIsPossible` for the engine's own of 16 MiB
  and 10,000 origins). `DecisionIsExact` says for every run exactly when a check answers `New`.
- One record that does not fit SQLite's signed integers fails its whole batch: a batch succeeds exactly when it has
  capacity, SQLite refuses nothing, and every one of its first 100 rows has `sequence` and `file_size` within `i64`
  (`InsertBatchSucceedsExactly`). A good record in one batch with such a record, which alone would have been stored, is
  answered `Failed`, its message is ignored, and safety mode goes on (`GoodRecordFailsBesideBad`).
- The request for missing records is inserted into a session unchecked. A step keeps every session within two
  outstanding requests exactly when it does not bring missing ids to a session without room (`BoundKeptExactly`); a
  comparison that outlives its session reaches three (`StaleComparisonOverfills`).
- Nothing bounds the pages of a bucket, so a peer that keeps sending cursors keeps a session alive until the first tick
  more than a minute after its opening (`EndlessSession`, `CursorsNeverEnd`, `MinuteFromOpening`). Each cursor costs four steps and two requests at most, so a session goes on
  for ever only with cursors for ever (`SessionTerminates`). A cursor that finds the session full is dropped, and the
  bucket starts over (`CursorIsFollowedExactly`).
- A page of more than 256 ids makes the lookup of held records fail, the answer counts as empty, and only the first 256
  ids are asked for (`PageIsCoveredExactly`, `LongPageLosesOne`). So of a day of at most 2,000 ids a session fetches
  exactly the first 256 (`FinishedSessionCoversExactly`).
- `insert_batch` tests a row against the rows written before it, not against every earlier row: a refused row does not
  block a later one (`RefusedRowDoesNotBlock`). With ids that fix origin and sequence the two readings agree
  (`ContentAddressedFlags`).
- Day zero of the inventory also takes the records of the day before 1970, because SQLite divides toward zero, while
  paging does not (`RangeIsDay`, `DayZeroIsTooWide`). The all-zero id is never paged (`PagingIsComplete`).
- The window counter grants up to `(k + 1) * limit` in `k` periods, and reaches it (`StretchBound`, `BoundIsReached`).

Three witnesses show why a hypothesis is stated; the running node does not reach them.

- `RefusedRowDoesNotBlock` uses two rows with one id and different sequences. Validation recomputes an id as a hash
  over the sequence, which is the hypothesis of `ContentAddressedFlags`.
- `BackwardClockOverspends` uses a clock that goes back; the node reads a monotonic one.
- `TrackedDecisionIsExact` excludes a highest sequence of `u64::MAX`, at which every unseen sequence is too old, and
  `SaturatedGenerationRepeats` a generation of `u64::MAX`. No sequence above `i64::MAX` is ever stored, and so none is
  accepted.

## Model

| member | source | states |
|---|---|---|
| `Replay.AcceptedIsNeverNewAgain` | src/network/replay.rs:61-166 | once `accept` has run for an id, every later `check` of it is `Duplicate`, through any calls, evictions, expiries and reloads, under any origin and sequence |
| `Replay.LoadedIsNeverNewAgain` | src/network/replay.rs:123-133 | the same for every id loaded from the database at start-up |
| `Replay.BitsOnlyGrow` | src/network/replay.rs:146-150 | no call ever clears a bit of the filter |
| `Replay.FilterIsExactlyTheInserted` | src/network/replay.rs:135-166 | after any run the set bits are exactly the four positions of each id accepted or loaded: no false negatives, and a false positive is a collision on all four |
| `ReplayPositions.PositionIsResidue` | src/network/replay.rs:158-166 | in a filter of any size, position k is below the number of bits and differs from the id's k-th little-endian number by a multiple of it |
| `ReplayPositions.PositionsAgreeExactly` | src/network/replay.rs:158-166 | two ids agree in position k if and only if their k-th numbers differ by a multiple of the number of bits |
| `ReplayPositions.EveryPositionIsReached` | src/network/replay.rs:158-166 | the four positions are independent: in a filter of up to 2^64 bits any four positions are those of some id |
| `ReplayPositions.EveryBitIsUsed` | src/network/replay.rs:135-150 | in the engine's filter of 134,217,728 bits, for any four positions there is an id whose acceptance sets exactly those |
| `Replay.CachesStayBounded` | src/network/replay.rs:24-58 | both caches stay within their capacities in every run |
| `Replay.WindowIsExact` | src/network/replay.rs:94-109 | while an origin stays tracked its window holds exactly the accepted sequences at or above `highest - W` (saturating), at most `W + 1` of them, and `highest` is the greatest |
| `Replay.TrackedDecisionIsExact` | src/network/replay.rs:61-92 | while the origin stays tracked a check answers `New` if and only if the id is unknown, the sequence was never accepted, it is less than `W` below the highest, and the highest is not `u64::MAX` |
| `ReplayRuns.WindowOverAnyRun` | src/network/replay.rs:94-109 | in every run, tracked or not, an origin that has a window has it filled exactly by what was accepted since that window was last made |
| `ReplayRuns.DecisionIsExact` | src/network/replay.rs:61-92 | after every run from the fresh filter a check answers `New` if and only if the id is unknown, the origin's window, if it has one, has not taken the sequence, and every sequence it is measured against is less than `W` below, saturating: those accepted since the window was made or, without a window, those accepted since or loaded at the last load |
| `ReplayRuns.ExpiredIsDecidedByOrigin` | src/network/replay.rs:61-92 | after any run from a new filter, an id that the bits do not cover and whose marks are all more than the time to live ago is decided by its origin alone, and its check drops the expired entry |
| `ReplayRuns.MarkLastsItsTime` | src/network/replay.rs:61-92 | an id just marked is `Duplicate` for as long as the time to live lasts, to its last instant; from then on bits and origin decide |
| `ReplayEvictions.TrackedExactly` | src/network/replay.rs:94-109 | after an accept, through any calls that do not use the origin again, it is still tracked if and only if fewer origins have been used since than the cache holds |
| `ReplayEvictions.RememberedExactly` | src/network/replay.rs:61-117 | a marked id, or one that a check has found again, is remembered with its instant if and only if fewer other ids are marked afterwards than the cache holds |
| `ReplayEvictions.FreshHolds` | src/network/replay.rs:24-58 | a new filter is empty, has no bits set, and its caches hold what was asked for, at least one entry each |
| `ReplayEvictions.EvictedSequenceIsNewAgain` | src/network/replay.rs:94-109 | in a filter of any size an accepted sequence is refused while its origin is tracked, the window is gone once as many other origins as the cache holds have been accepted, and when it has been made anew one higher the same sequence under another id is `New` |
| `ReplayEvictions.ForgettingIsPossible` | src/network/replay.rs:24-58 | the same in the default filter, with concrete ids and 10,000 concrete origins, and no hypothesis |
| `Replay.WindowAfterAccept` | src/network/replay.rs:94-109 | `accept` slides the origin's window, made at the sequence if absent, and changes no other window except by evicting it |
| `ReplayEngine.ActiveRecordFilter.Set` | src/network/replay.rs:146-150 | or-ing a mask into one word sets that position and no other of the whole array |
| `ReplayEngine.ActiveRecordFilter.Insert` | src/network/replay.rs:146-150 | the array's set positions grow by exactly the id's four |
| `ReplayEngine.ActiveRecordFilter.Contains` | src/network/replay.rs:152-156 | true if and only if all four positions of the id are set |
| `ReplayEngine.ReplayState.Check` | src/network/replay.rs:61-92 | the decision, the promotions and the removal of an expired entry are those of the value-level filter |
| `ReplayEngine.ReplayState.Accept` | src/network/replay.rs:94-109 | updates recent cache, bits, persistent mark and window in place to the value-level result, and no other object |
| `ReplayEngine.ReplayState.MarkPending` | src/network/replay.rs:111-113 | puts the id into the recent cache only |
| `ReplayEngine.ReplayState.Forget` | src/network/replay.rs:115-117 | removes the id from the recent cache only |
| `ReplayEngine.ReplayState.LoadPersistentState` | src/network/replay.rs:123-133 | replaces the marks, the last pair of an origin winning, and adds every id's positions to the bits |
| `Restart.SelectsAllExactly` | src/storage/database.rs:476-510 | a limited query answers with every matching row if and only if they fit the limit |
| `Restart.OriginHighestSequences` | src/storage/database.rs:476-493 | one pair for each selected row whose origin names a peer, in row order, with its mark |
| `Restart.RecentReplaySeeds` | src/storage/database.rs:577-608 | one seed for each selected row whose origin names a peer, in row order |
| `Restart.NewestAreSeeded` | src/storage/database.rs:577-608 | newest first under a limit: an active record with at most that many active records not older than it, itself included, is among the seeds |
| `Restart.SeededSequenceIsNotNew` | src/network/swarm.rs:107-124 | what the seeds buy: such a record's origin and sequence are not `New` under any other id after the restart, for as long as the origin stays tracked |
| `Restart.SeedReplay` | src/network/swarm.rs:107-124 | the filter the engine starts with is the default one, loaded with marks and ids, with every recent seed accepted; a query that fails counts as an empty answer |
| `Restart.StoredIsDuplicateAfterRestart` | src/network/swarm.rs:107-124 | within the row limits every stored unexpired record is `Duplicate` after a restart and through every later run |
| `Restart.EveryStoredIsDuplicate` | src/network/swarm.rs:107-124 | the same for every database the node itself has written, with a clock that does not go back: the limit on active records is then kept, and needs no hypothesis |
| `Restart.OldSequenceIsNeverNew` | src/network/swarm.rs:107-124 | within the row limits an origin without a window never has a sequence at or below its database mark less `W` judged `New` |
| `Restart.DeletedStaysRefused` | src/storage/database.rs:476-493 | the same for any record the database ever held, even if deleted or cleaned up before the restart |
| `Store.InsertRowsIsExact` | src/storage/database.rs:184-207 | row by row, the rows written, their flags and the constraints, for a batch of any length |
| `Writes.InsertBatchSucceedsExactly` | src/storage/database.rs:184-207 | a batch succeeds if and only if the capacity check passes on the tables as they are, SQLite refuses none of its statements, and each of its first 100 rows has sequence and size within `i64` |
| `Capacity.ActiveNeverExceeds` | src/storage/database.rs:512-574 | in every run of writes whose clock does not go back, at most 1,000,000 records are active from its last reading on, although the check counts before the transaction |
| `Capacity.DailyNeverExceeds` | src/storage/database.rs:512-574 | no day ever takes more than 100,000 new rows, whatever is removed or pruned and although the day may end between check and stamp; the count kept for a day is exact until it is pruned |
| `Capacity.RefusedExactly` | src/storage/database.rs:512-574 | over every run whose clock does not go back, a batch is refused for storage safety if and only if the active records and the batch's rows (at most 100) are over 1,000,000, there is no room, or the rows written on the day and the batch's are over 100,000 |
| `Capacity.TwoBatchesOfADay` | src/storage/database.rs:512-574 | two batches of at most 100 storable rows both succeed on an empty database with room, on one day as on two |
| `Writes.InsertBatchIsExact` | src/storage/database.rs:184-207 | the batch answers for its first 100 rows; a flag is true if and only if the row clashes with no row of the table and no earlier written row; exactly the flagged rows are added; both constraints hold after |
| `Writes.InsertBatchCounts` | src/storage/database.rs:184-207 | table and daily count grow by the number of true flags, the generation moves by one if and only if a row was written, no mark falls |
| `Writes.ContentAddressedFlags` | src/storage/migrations.rs:8-24 | with ids that fix origin and sequence, a row is written if and only if it clashes with nothing in the table and with no earlier row, written or not |
| `Writes.RefusedRowDoesNotBlock` | src/storage/database.rs:656-692 | without that, a row can be written although an earlier refused row carries its id |
| `Writes.RepeatedBatchChangesNothing` | src/storage/database.rs:184-207 | a batch offered again answers false for every row and leaves every table as it was |
| `Writes.WriteKeepsValid` | src/storage/migrations.rs:8-39 | every write keeps both uniqueness constraints and the marks above the stored sequences, lowers no mark, and moves the generation by one if and only if the record table changed |
| `Writes.RunKeepsValid` | src/storage/migrations.rs:8-39 | the same over every run of writes |
| `Writes.HighestCoversHistory` | src/storage/database.rs:656-692 | an origin's mark is at least every sequence ever stored for it, whatever was deleted since |
| `Writes.HighestWasStored` | src/storage/database.rs:656-692 | an origin's mark is the sequence of a row that was once stored for it: with the row above, the greatest ever stored |
| `Writes.RemovalIsExact` | src/storage/database.rs:209-218 | a removal takes exactly the rows with the hash, answers whether there was one, moves no mark and no daily count, and takes nothing for a malformed hash or a refused statement |
| `Writes.CleanupStamps` | src/storage/database.rs:438-452 | cleanup removes exactly the expired rows, touches no mark, stamps once if any went, and returns their number if and only if no statement failed; after a failure in the transaction the tables are as before, after one past its commit the rows are gone all the same |
| `Writes.RetentionIsExact` | src/storage/database.rs:438-452 | a cleanup keeps, unchanged, exactly the daily counts of at most 31 days before its day |
| `Writes.GenerationCountsChanges` | src/storage/database.rs:694-697 | the generation is the first one plus the number of changing writes, saturating |
| `Writes.GenerationIsAVersionStamp` | src/storage/database.rs:184-218 | below `u64::MAX`, two readings agree if and only if the record table was the same at every moment between them |
| `Writes.SaturatedGenerationRepeats` | src/storage/database.rs:694-697 | at `u64::MAX` a change leaves the generation as it was |
| `Database.SignatureDatabase.WriteRows` | src/storage/database.rs:184-207 | the loop's results, change flag and count are those of the row-by-row fold, and nothing is committed |
| `Database.SignatureDatabase.InsertBatch` | src/storage/database.rs:184-207 | commits the whole batch or, on any error, leaves the tables alone |
| `Database.SignatureDatabase.RemoveBlake3` | src/storage/database.rs:209-218 | removes every row with the hash and stamps once if there was one; a malformed hash or a refused statement is an error that leaves the tables alone |
| `Database.SignatureDatabase.CleanupExpired` | src/storage/database.rs:438-452 | exactly the unexpired rows stay and the count returned is the number that went; an error in the transaction changes nothing, an error after the commit leaves the rows deleted |
| `Database.SignatureDatabase.Inventory` | src/storage/database.rs:303-356 | the summary of the reference grouping: generation, total, first start, last end, buckets |
| `Database.SummarySpans` | src/storage/database.rs:303-356 | `oldest` is the start of the earliest bucket and `newest` the end of the latest; every bucket lies between, and both are zero without buckets |
| `Database.SpanHoldsRecords` | src/storage/database.rs:303-356 | within 366 days every active record created since 1970 is created in that span |
| `Database.SignatureDatabase.RecordIds` | src/storage/database.rs:358-398 | the page of sorted ids after the cursor, with a next cursor if and only if more remain |
| `Database.SignatureDatabase.RecordsByIds` | src/storage/database.rs:400-420 | the active records asked for, in order, or an error over 256 ids |
| `InventoryScan.GroupRows` | src/storage/database.rs:303-356 | the loop with its early break computes the fold over the rows |
| `InventoryScan.ScanGroupsRows` | src/storage/database.rs:303-356 | for any rows in day order the pass yields one digest of each of the first 366 days, none lost, none twice, also when the break fires |
| `InventoryScan.ScanIsInventory` | src/storage/database.rs:303-356 | on the query's rows the pass equals grouping by day and digesting each day's sorted ids |
| `InventoryScan.InventoryCountsRecords` | src/storage/database.rs:303-356 | the record count is the number of active records if and only if they span at most 366 days |
| `Queries.ConcatIsInjective` | src/storage/database.rs:303-356 | concatenating 32-byte ids loses nothing |
| `Queries.DifferingBucketsIsExact` | src/network/swarm.rs:1618-1632 | with an injective digest a remote bucket is left out if and only if the local inventory has that day with the very same active ids |
| `Queries.PageIsExact` | src/storage/database.rs:358-398 | every id of a page lies strictly after its cursor; a page without a next cursor lists all that is left, in order, and one with a next cursor is full, ends at it, and lists the first of what is left, of which it leaves strictly less |
| `Queries.PagingIsComplete` | src/storage/database.rs:358-398 | a client that asks for a page with no cursor and then with the cursor of each answer gets, with any limit of at least one, every active id of the bucket in order, once, and comes to an end, if and only if the all-zero id is not in the bucket; otherwise all but that one |
| `Queries.RangeIsDay` | src/storage/database.rs:303-398 | paging and inventory agree on a bucket of a positive day; on day zero if and only if no active record dates from the day before 1970 |
| `Queries.DayZeroIsTooWide` | src/storage/database.rs:303-398 | an active record of the last millisecond before 1970 is in the inventory's day zero and on none of its pages |
| `Queries.PresentIsExact` | src/storage/database.rs:400-420 | a lookup answers with exactly the active records whose ids were asked for |
| `SyncEngine.Actor.StartSync` | src/network/swarm.rs:1321-1346 | one inventory request and one new session, or nothing if the peer has one or four run |
| `SyncEngine.Actor.PumpSync` | src/network/swarm.rs:1409-1444 | the loop reaches the value-level pump: first pages until two are outstanding, or the session finished |
| `SyncEngine.Actor.FinishSync` | src/network/swarm.rs:1446-1457 | removes the peer's session only |
| `SyncEngine.Actor.HandleOutboundFailure` | src/network/swarm.rs:1010-1018 | settles the request and pumps |
| `SyncEngine.Actor.HandleSyncResponse` | src/network/swarm.rs:1082-1167 | every branch: unknown request, oversized response, comparison handed over, records offered, unexpected response |
| `SyncEngine.Actor.RunComparison` | src/network/swarm.rs:1116-1151 | what the blocking task finds: differing buckets, or at most 256 missing ids of a page |
| `SyncEngine.Actor.HandleDbAction` | src/network/swarm.rs:1190-1248 | both comparison actions, with the unchecked request for missing records and the cursor that is followed or lost |
| `SyncEngine.Actor.ExpireSessions` | src/network/swarm.rs:1496-1512 | the loop abandons exactly the sessions older than a minute, with their pending entries |
| `SyncEngine.Actor.ConnectionClosed` | src/network/swarm.rs:671-686 | abandons the peer's session and pending entries |
| `SyncTimeouts.TickIsExact` | src/network/swarm.rs:1496-1512 | a tick leaves a session, untouched, if and only if it was started at most 60,000,000,000 nanoseconds before, and drops what is waited for from exactly the peers whose sessions go |
| `SyncTimeouts.MinuteFromOpening` | src/network/swarm.rs:1321-1346 | in every reachable state each live session has lived since a `start_sync` event at its start, with no later tick more than a minute after it, and the next tick ends it if and only if it comes more than a minute after that event |
| `SyncAnswers.EveryRequestIsLawful` | src/network/swarm.rs:1082-1167 | in every reachable state every request ever sent is within the limits a peer enforces: pages of 1 to 2,000 ids, lookups of 1 to 256 records |
| `SyncAnswers.DisconnectsExactly` | src/network/swarm.rs:1082-1167 | over every run, a peer is to be disconnected if and only if it gave an answer of more than 366 buckets, 2,000 ids or 256 records to a request still waited for, and its last connection has not closed since |
| `SyncInvariants.StepKeepsInv` | src/network/swarm.rs:998-1248 | every step keeps: live sessions wait for something, every outstanding request is answered by a request in flight or carried by a running comparison, requests validate, at most four sessions |
| `SyncInvariants.ReachableStatesDoNotStall` | src/network/swarm.rs:998-1248 | the same, spelled out, for every reachable state |
| `SyncBounds.BoundKeptExactly` | src/network/swarm.rs:1204-1248 | a step keeps every session within two outstanding requests if and only if it does not bring missing ids to a session without room |
| `SyncBounds.ReachableSessionsAreBounded` | src/network/swarm.rs:1128-1223 | when comparisons reach the sessions that asked, no session ever has more than two outstanding requests |
| `SyncStale.StaleComparisonOverfills` | src/network/swarm.rs:1204-1223 | a run from the idle state that ends with three outstanding requests, because a comparison outlived its session |
| `SyncViews.OtherStepSameView` | src/network/swarm.rs:998-1248 | a step about another peer leaves this peer's session, requests and history exactly as they were |
| `SyncProgress.StepProgress` | src/network/swarm.rs:1409-1444 | the weighted measure of a session falls with every reply, failure and comparison of it, and rises with nothing but a cursor, by the weight of one queued bucket |
| `SyncProgress.SessionTerminates` | src/network/swarm.rs:1409-1444 | a session to which c cursors are brought takes at most 1467 + 4c such steps and sends at most 733 + 2c requests, under any interleaving with others |
| `SyncCursors.CursorIsFollowedExactly` | src/network/swarm.rs:1224-1246 | a page's cursor is followed if and only if there is room after the page's own request is settled and the missing records are asked for; otherwise the bucket is queued again from its first page |
| `SyncCursors.CursorsNeverEnd` | src/network/swarm.rs:1224-1246 | from any state in which a session waits for one page, for every n, n cursors draw n more requests from it and leave it alive |
| `SyncCursors.EndlessSession` | src/network/swarm.rs:1224-1246 | the idle engine reaches a session that waits for one page, and for every n that session goes on, in its own events alone and with every comparison reaching it, through exactly n cursors and n more requests; it is still alive, and what ends it is a tick more than 60 seconds after the event that opened it, and no earlier one |
| `SyncCoverage.FinishedSessionCovers` | src/network/swarm.rs:1082-1248 | end-to-end coverage: when an undisturbed session with an honest peer over a fixed table is over, under any interleaving, each record among the first 256 ids of an inventoried day of the peer, however many its other days hold, is held locally or was passed to `accept_sync_records` since the session was opened |
| `SyncCoverage.SmallDayLeads` | src/network/swarm.rs:1128-1143 | on a day of at most 256 active records those are all its ids, the all-zero one apart |
| `SyncExtent.TrailingIsNeverOffered` | src/network/swarm.rs:1128-1151 | an id past the 256th of a bucket whose ids fit one page is never offered in an undisturbed session, also when the bucket is read again, if nothing stale is left of an earlier session |
| `SyncExtent.FinishedSessionCoversExactly` | src/network/swarm.rs:1082-1248 | for an inventoried day of at most 2,000 ids: once such a session is over, a record is held or was offered if and only if it is held or is among the first 256 ids of the day |
| `SyncQuiet.QuietPeerIsCovered` | src/network/swarm.rs:1082-1248 | the same at rest: once nothing is in flight to the peer or being compared for it, the session is over and each such record is held or was passed on |
| `SyncQuiet.QuietMeansFinished` | src/network/swarm.rs:1409-1444 | a live session always has a reply or a comparison still to come |
| `SyncCoverage.MissingIsExact` | src/network/swarm.rs:1128-1143 | of a page of at most 256 ids exactly those not held are asked for |
| `SyncCoverage.EveryDayInventoried` | src/storage/database.rs:303-356 | with at most 366 days every active record is inventoried |
| `SyncCoverage.PageIsCoveredExactly` | src/network/swarm.rs:1128-1151 | every id of a page is held or asked for if and only if the page has at most 256 ids or what lies past its 256th id is held |
| `SyncCoverage.LongPageLosesOne` | src/network/swarm.rs:1128-1151 | of any page of more than 256 ids, compared with an empty table, the 257th is not asked for |
| `Persistence.PairingDropsNothingExactly` | src/storage/worker.rs:97-124 | pairing requests with results drops none if and only if the batch has at most 100 requests |
| `Persistence.FailedExactly` | src/storage/worker.rs:92-124 | each request of a batch is answered `Failed` if and only if the capacity check fails, SQLite refuses a statement, or some record of the batch does not fit; and then the tables are as before |
| `Persistence.StoredExactly` | src/storage/worker.rs:92-124 | a request is answered `Stored` if and only if its batch succeeds and its record clashes with no row and no earlier written request; its row is then in the table and was not before |
| `Persistence.PersistenceWorker.FillBatch` | src/storage/worker.rs:74-91 | the batch is the head of the queue, in order, at least one and at most 100, and the depth counter follows |
| `Persistence.PersistenceWorker.DrainResults` | src/storage/worker.rs:97-124 | one event for each request and result, in order |
| `Persistence.PersistenceWorker.Turn` | src/storage/worker.rs:74-146 | one transaction over the head of the queue and exactly one event for each of its requests, in order, on success and on failure |
| `Persistence.PersistenceWorker.TryEnqueue` | src/storage/worker.rs:160-170 | appends the request if and only if the queue has room |
| `Intake.Actor.ValidateGossip` | src/network/swarm.rs:897-984 | for each answer of the screening, the branch: refused, invalid, no origin, duplicate, too old, source limited, queued and marked, queue full |
| `Intake.Actor.AcceptSyncRecords` | src/network/swarm.rs:1275-1319 | the loop over at most 256 records, skipping and stopping where the source does |
| `Intake.Actor.HandleSignedRecord` | src/network/swarm.rs:435-456 | queues a locally signed record without asking the replay filter, unless in safety mode or full |
| `Intake.Actor.HandlePersisted` | src/network/swarm.rs:458-540 | stored, duplicate and failed answers: what the filter accepts or forgets, the verdict, safety mode |
| `PipelineIntake.GossipIsQueuedExactly` | src/network/swarm.rs:897-984 | a delivery is queued, as one request with its source and token, if and only if safety mode is off, it is well formed and names its origin, the filter finds it new, its source is within its limit and fewer than 10,000 wait |
| `PipelineIntake.RefusedGossipIsAnswered` | src/network/swarm.rs:897-984 | what is not queued gets exactly one verdict: ignored if it is known or the queue is full, rejected otherwise |
| `PipelineIntake.ItemIsQueuedExactly` | src/network/swarm.rs:1275-1319 | a record of a list is queued if and only if it is valid, names its origin, is new and source and queue have room; the list ends early if and only if one of those two has not |
| `PipelineIntake.SyncQueuesAllNew` | src/network/swarm.rs:1275-1319 | of a list of at most 256 records from a source within its limit, on a queue with room, every valid record the filter finds new waits in the queue afterwards, whatever else the list holds |
| `PipelineIntake.SyncQueuesOnlyValid` | src/network/swarm.rs:1275-1319 | everything a list adds is one of its first 256 records, valid, with an origin, from a source within its limit, and without a gossip token; in safety mode it adds nothing |
| `PipelineIntake.SignedIsQueuedExactly` | src/network/swarm.rs:435-456 | a record signed here is queued, with neither source nor token, if and only if safety mode is off and the queue has room; the filter is not touched |
| `PipelineIntake.SafetyModeIsLastSet` | src/network/swarm.rs:505-540 | over every run safety mode is what the last maintenance report or failed answer set, and nothing else moves it |
| `PipelineSequences.AnsweredSequenceIsTaken` | src/network/swarm.rs:458-547 | a stored or duplicate answer that names its origin is accepted under its own sequence: no other id with it is new, window and mark rise to the greater of the old value and that sequence, and the window takes it |
| `PipelineSequences.AnsweredSequenceIsNotQueued` | src/network/swarm.rs:458-547 | from any reachable state on: once the answer for an origin and sequence has been handled, intake queues nothing under them with any id, in every run in which the origin stays tracked |
| `PipelineRuns.ExactlyOneVerdict` | src/network/swarm.rs:897-984 | in every reachable state each delivered message has exactly one verdict or one copy in queue, batch, unsent events or channel, and accepting verdicts are exactly the handled `Stored` answers |
| `PipelineRuns.WorkerConserves` | src/storage/worker.rs:74-146 | in every reachable state requests leave the queue in order and each has exactly one answering event, in that order |
| `PipelineRuns.AnswersNameTheirRequests` | src/storage/worker.rs:92-124 | in every reachable state each answer carries its own request's record, source, sequence and token, and names a peer if and only if the record names that peer as its origin |
| `PipelineRuns.WorkerIsSequential` | src/storage/worker.rs:65-146 | in every reachable state queue and channel hold at most 10,000 and a batch at most 100, and the worker receives and inserts only after it has sent every answer of its last transaction |
| `PipelineRuns.StepKeepsInv` | src/storage/worker.rs:74-146 | every step of engine, worker or maintenance keeps both conservation laws |
| `PipelineOutcomes.TransactionRows` | src/storage/worker.rs:92-124 | the rows one transaction adds are exactly the records of its `Stored` events, each new and each once |
| `PipelineOutcomes.StoredAnswersAreRows` | src/network/swarm.rs:458-540 | while nothing is deleted the table is its first rows and exactly one row for each `Stored` answer, so a message is accepted only for a row its own request wrote, at most once for a record id |
| `PipelineOutcomes.HandledIsNeverQueuedAgain` | src/network/swarm.rs:458-540 | once the answer for a record has been handled, neither gossip nor synchronization queues it again in any later run |
| `PipelineMemory.QueuedOnce` | src/network/swarm.rs:961-979 | in every reachable state, once gossip has queued a record no later run queues its id again from gossip or synchronization, if until its answer is handled fewer other ids arrive than the recent cache holds, the id itself arrives only within its time to live, and no answer makes the engine forget it; from its accepting answer on the run is arbitrary |
| `PipelineMemory.RedeliveryIsIgnored` | src/network/swarm.rs:961-979 | at the end of any such run the record, delivered once more by anyone under any origin and sequence, is ignored, or in safety mode rejected |
| `PipelineOutcomes.FailedIsDecidedAfresh` | src/network/swarm.rs:505-540 | after a failed transaction a record is `New` again if and only if neither the filter nor its origin's sequences refuse it |
| `PipelineOutcomes.UnstorableFailsTheBatch` | src/storage/database.rs:656-692 | in every reachable state, one record of the worker's batch that does not fit turns the answers of the whole batch to `Failed` and writes nothing |
| `PipelineWitness.GoodRecordFailsBesideBad` | src/network/swarm.rs:505-540 | for any storable and any unstorable record a run from the empty database brings both into one batch that has capacity and meets no refusal; the storable one, which alone would be inserted, is answered `Failed`, its message ignored, and safety mode is on |
| `QueueDepth.DepthIsExact` | src/storage/worker.rs:160-170 | under any interleaving the counter equals the number it stands for if and only if that fits 64 bits; with fewer threads it is queue length plus producers at work plus the receive not yet subtracted, never underflows and never falls below the queue length |
| `QueueDepth.SendIsAcceptedExactly` | src/storage/worker.rs:160-170 | in every reachable state a send is accepted, behind all others, if and only if the worker has not exited and fewer than 10,000 requests are accepted and not yet received; otherwise its count is to be taken back |
| `QueueDepth.SaturationsAreExact` | src/storage/worker.rs:160-170 | the saturation counter is the number of refused sends, modulo 64 bits |
| `QueueDepth.QueueKeepsOrder` | src/storage/worker.rs:65-88 | the queue is first in, first out, holds at most 10000, and loses nothing while the worker runs |
| `TokenBuckets.TokenBucket.Take` | src/network/rate_limit.rs:29-38 | grants if and only if the refilled tokens cover the amount, and takes it |
| `TokenBuckets.RefillIsProduct` | src/network/rate_limit.rs:29-32 | the refill of a span is elapsed seconds times the rate |
| `TokenBuckets.TokensStayInRange` | src/network/rate_limit.rs:29-38 | tokens stay between zero and the capacity in every run, whatever the clock does |
| `TokenBuckets.StretchBound` | src/network/rate_limit.rs:29-38 | any stretch of a run with a clock that does not go back is granted at most the capacity and what the stretch refills |
| `TokenBuckets.RefusedDrawIsFree` | src/network/rate_limit.rs:29-38 | after a refused draw the next is answered, and leaves the bucket, as if the refused one had not been made |
| `TokenBuckets.GrantedDrawCosts` | src/network/rate_limit.rs:29-38 | after a granted draw another at the same instant is granted if and only if both together would have been |
| `TokenBuckets.FullAfterAPeriod` | src/network/rate_limit.rs:20-38 | after a quiet period a bucket grants an amount if and only if it is within the capacity |
| `TokenBuckets.BackwardClockOverspends` | src/network/rate_limit.rs:29-38 | with a clock that goes back the bound fails |
| `RateLimiting.RateLimiter.AllowGossip` | src/network/rate_limit.rs:90-93 | a record token is taken first, bytes only if it was granted |
| `RateLimiting.RateLimiter.AllowSyncRequest` | src/network/rate_limit.rs:95-97 | one token of the peer's request bucket |
| `RateLimiting.RateLimiter.AllowSyncResponse` | src/network/rate_limit.rs:99-101 | the bytes from the peer's response bucket |
| `RateLimiting.RateLimiter.NoteInvalid` | src/network/rate_limit.rs:103-105 | one token of the peer's invalid-message bucket |
| `RateLimiting.RateLimiter.AllowIngestionSource` | src/network/rate_limit.rs:107-130 | a token of the address and one of the prefix, both taken whatever the first answers |
| `RateLimiting.ReachableUseBound` | src/network/rate_limit.rs:49-130 | after any history and through any evictions, the allowed calls of any stretch use at most one allowance for the bucket tracked at its start, one for each time the stretch makes the bucket anew, and what the allowance refills over the stretch |
| `RateLimiting.ReachableMeterBound` | src/network/rate_limit.rs:49-130 | after any history, while a bucket stays tracked, the allowed calls of any stretch use at most its allowance and what the allowance refills over the stretch |
| `RateLimiting.AllowedExactly` | src/network/rate_limit.rs:49-130 | after any history a call is allowed if and only if every bucket it uses has what it uses, refilled to the instant |
| `RateLimiting.ChargesExactly` | src/network/rate_limit.rs:90-130 | a call draws from exactly the buckets named for it, the bytes of a message only after its record was granted and both buckets of an address in any case; every other bucket that stays tracked is unchanged |
| `RateLimiting.BurstIsExact` | src/network/rate_limit.rs:95-97 | of the synchronization requests a new peer makes at one instant exactly the first 30 are allowed |
| `WindowCounters.WindowCounter.Take` | src/network/swarm.rs:1761-1771 | rolls the window over after a period and grants while the limit is not used up |
| `WindowCounters.RefusedTakeIsFree` | src/network/swarm.rs:1761-1771 | after a refused call the next is answered as if the refused one had not been made, and with a limit of at least one it leaves the counter so too |
| `WindowCounters.WindowEndsExactly` | src/network/swarm.rs:1761-1771 | a window that is used up grants again exactly when its period has passed, and a new one begins at that instant |
| `WindowCounters.StretchBound` | src/network/swarm.rs:1761-1771 | any stretch of at most k periods is granted at most (k + 1) times the limit |
| `WindowCounters.BoundIsReached` | src/network/swarm.rs:1761-1771 | for every k some calls within k periods are granted exactly that much |

## Left out

- libp2p itself: dialing, mDNS, Kademlia, relays, AutoNAT, connection limits and the gossip mesh. A send appends a
  request to a set of requests in flight; each is answered or failed at most once, at any time.
- Cryptography and encoding: the digest is an uninterpreted function, assumed injective where a theorem says so; record
  validation, blocking and rate limits reach the intake as the answer they gave; encoding failures do not occur.
- SQLite: tables are maps and a transaction is one step. What the machine decides is a parameter: for an insert the
  readings of the clock, whether file sizes and the disk leave room, and the refused statement; whether the statement
  is refused for a removal; where the failure falls for a cleanup. The database is in a file: one in memory checks no
  capacity. A write that SQLite would ignore for any other constraint than the two uniqueness ones is not modelled.
  Which of several rows created at the same time come first under a limit is arbitrary.
- The bucket's end is `start + one day` on unbounded integers, not on `i64`; the coverage theorem asks for creation times
  that leave room.
- SyncExtent.FinishedSessionCoversExactly: a day of more than 2,000 ids has a cursor, and what lies past its 256th id is
  then neither promised nor excluded: it depends on whether the cursor is followed (`CursorIsFollowedExactly`).
- SyncCoverage.FinishedSessionCovers: the peer's table and clock are fixed during the session, and a refusal by the
  peer's own rate limit counts as a disturbance; at 30 requests a minute a long session does meet it, and its bucket is
  then dropped until the next session.
- SyncCoverage.FinishedSessionCovers: it ends at `accept_sync_records`, where validation, the source's rate limit or a
  full queue can still refuse the record.
- Intake.Actor.ValidateGossip: the screening (validation, blocks, rate limits, identity) is a parameter, and the block
  and the disconnection it may put on the source are not modelled.
- Intake.Actor.AcceptSyncRecords: the block put on a rate-limited peer is not modelled; the loop stops there as the
  source does.
- Persistence.PersistenceWorker.TryEnqueue: the disconnected queue and the saturation counter are not in this method;
  the counter of queued requests and the worker's exit are in `QueueDepth`.
- Restart.RecentReplaySeeds: the order of the rows is the query's; it is a hypothesis of `NewestAreSeeded`.
- TokenBuckets.TokenBucket.Take: tokens are exact reals, so the rounding of `f64` is not modelled.
- PipelineOutcomes.StoredAnswersAreRows: it speaks of runs without deletions; with them a deleted record may be stored
  and accepted again, and each transaction by itself still satisfies `TransactionRows`.
- Restart.OldSequenceIsNeverNew: that at most 1,000,000 origins have marks is a hypothesis; marks are never deleted, and
  nothing in the repository bounds their number.
- QueueDepth: the worker's exit drops what is queued and leaves the counter above the queue length by that much.
- LRU caches are values with an explicit recency order, held in fields of the objects that use them.
- Metrics, histograms, events for the user interface, snapshots, progress counts of a session, publication of local
  records, the identity keystore, identity reset and shutdown, `next_local_sequence`, and everything under `src/ui`.

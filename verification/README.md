# Session and stream state of an RTMP server

librtmp2-server keeps the same facts in several places: rows in SQLite, in-memory counters that stand in for row
counts, a snapshot of access keys, queues between threads, and markers held by retry loops. The server is right when
these agree in spite of rollbacks, concurrency and retries. This project models those places and proves that they do,
or says exactly when they do not.

Tables are maps, a transaction is a saved copy, and what the server cannot control is a parameter: whether SQLite
accepts a write, whether a commit succeeds, what the clock reads, what other threads do in a gap. Code that updates
fields is a class whose methods are proved against functions on values; code whose difficulty is interleaving is a
machine over atomic steps, and the results hold for every run of it.

## How it is laid out

| file | what it models |
|---|---|
| `Basics.dfy` | shared types and facts about set sizes |
| `SessionTables.dfy`, `SlotCounters.dfy` | player slots: the cap as a row count, and the counters that stand in for it |
| `PublisherTable.dfy` | one active publisher per stream |
| `AuthWorker.dfy`, `AuthWorkerJobs.dfy`, `AuthWorkerLaws.dfy`, `AuthWorkerSlots.dfy`, `AuthWorkerThread.dfy` | the authorization worker: its jobs, its group commit, and its calls seen from the slots |
| `SubmitQueue.dfy` | the bound of the authorization queue |
| `AccessKey.dfy`, `KeyCache.dfy`, `KeyRegistry.dfy` | the key snapshot, and keys kept to one stream each |
| `StreamDelete.dfy`, `StreamDeleteRuns.dfy` | the two-phase stream delete, and runs of it that go wrong |
| `StatsQueue.dfy` | write-behind stats |
| `RateLimiter.dfy` | the sliding-window limiter |
| `SinkQueue.dfy`, `Flv.dfy`, `Recording.dfy` | media sinks and FLV framing |
| `MediaSessions.dfy`, `MediaDebounce.dfy` | media sessions and their two debounces |
| `Readiness.dfy` | the persistent epoll set |

## Where the code and its promise differ

Each of these is proved with the state or run that shows it, beside the exact condition under which the promise holds.

- A failed group commit can leave a viewer above the connection cap: a release is rolled back after its slot was given
  to a new reservation (`FailedBatchCanExceedCap`, and `RolledBackGroupExceedsCap` for the worker's own jobs;
  `FailedBatchBound` says by how much).
- Finalizing a delete is not fenced by the row's token, so an older delete removes a same-id replacement when a newer
  delete has marked it (`OlderDeleteCanRemoveReplacement`; `OlderDeleteAndReplacement` says exactly when, and
  `SoloDeletesRemoveTheirOwnRow` that it takes overlapping deletes).
- A delete that gives up writes a plain disable, which clears the pending flag of a row another delete has just begun on
  (`GiveUpClearsPending`; `BegunStaysPendingExactly` says exactly when).
- A key that is not a valid access key is not looked up, so it can end up on two streams (`ShortKeysCanCollide`;
  `StreamAddedExactly` and `ViewerAddedExactly` say exactly when). The HTTP interface rejects such keys
  (src/http.rs:402-415), so this concerns other callers of the database layer.
- A listener closed and bound again on the same descriptor between two syncs is taken for the old registration
  (`RebindIsMissed`; `Sync` says exactly which descriptors are missed).
- The debounces of session restarts and of publish-driven stream changes are kept in a stamp that some calls take away:
  a connection that switches streams and back restarts again at once (`SwitchingEscapesTheGuard`), and a restart forgets
  the stream change before it (`RestartForgetsTheSwitch`). `LossExactly` says exactly which calls do that, and
  `DebouncedAreSpaced` that nothing else does.
- A refused play is meant to leave the connection's old session as it was; when another thread reserves the slot the
  switch released, the old session's row stays inactive (`ContestedPlay`; `RestorePlayerExactly` says exactly when).
- A full-row update drops the figures queued for its row even when its group is rolled back
  (`RolledBackUpdateLosesStats`; `RolledBackBatch` says exactly which are lost).

## Model

| member | source | states |
|---|---|---|
| `SlotCounters.Db.RunCalls` | src/db.rs:2607-2847 | For every run of reserve, cancel, acquire, reserved insert, update, viewer deactivation, row deletion and group commits that succeed or fail: the same answers and the same tables as counting rows and reservations on every admission, and each viewer's counter equals that count (plus slots of rows deleted unseen) |
| `SlotCounters.Db.RunCall` | src/db.rs:2607-2847 | The same for one call, whichever it is |
| `SlotCounters.Db.TryIncrCount` | src/db.rs:2641-2651 | A slot is taken exactly when the counted occupancy is under 5 |
| `SlotCounters.Db.PlayerReserve` | src/db.rs:2657-2675 | A reservation is granted exactly when a named viewer has a free slot, and is then counted as unpersisted |
| `SlotCounters.Db.PlayerCancelReservation` | src/db.rs:2704-2708 | Both counters give the reservation back |
| `SlotCounters.Db.PlayerInsertReserved` | src/db.rs:2680-2695 | The reservation becomes an active row, or is released when the write is refused; the viewer's occupancy is right either way |
| `SlotCounters.Db.FillReservation` | src/db.rs:2680-2695 | The written row takes over the reserved slot, so the viewer's occupancy does not move |
| `SlotCounters.AddPending` | src/db.rs:2167-2186 | The rebuilt count of every viewer is its active rows plus its unpersisted admissions |
| `SlotCounters.Db.InsertActivePlayer` | src/db.rs:2710-2750 | The slot in flight becomes a row or is given back |
| `SlotCounters.Db.PlayerTryAcquire` | src/db.rs:2607-2633 | Admission and table as the row-counting machine says, with reservations by other threads between slot and row |
| `SlotCounters.Db.WriteRow` | src/db.rs:2804-2847 | Rewriting a row releases the old version's slot unless the new one keeps it |
| `SlotCounters.Db.PlayerUpdate` | src/db.rs:2757-2847 | An activating or viewer-changing update needs a slot, a refresh does not; the outcome is the row-counting machine's |
| `SlotCounters.Db.PlayersDeactivateForViewer` | src/db.rs:1773-1798 | All the viewer's rows become inactive and its counter drops to its open reservations |
| `SlotCounters.Db.BatchEnd` | src/db.rs:2134-2158 | A failed commit restores the table, keeps the reservations made meanwhile, and leaves the counters agreeing |
| `SlotCounters.Db.ResyncActivePlayerCounts` | src/db.rs:2167-2186 | The counters rebuilt from table and unpersisted counts agree with both |
| `SlotCounters.CountByViewer` | src/db.rs:2167-2186 | The grouped count equals each viewer's active rows |
| `SlotCounters.Db.DeletePlayerRows` | src/db.rs:1254-1284 | A cascading row deletion leaves the counters above the rows by exactly the deleted active rows, never below |
| `SlotCounters.ReservationDropped` | src/db.rs:649-662 | Decrementing both counters settles one reservation |
| `SlotCounters.RowRewritten` | src/db.rs:2757-2847 | The decrement rule of a full-row update keeps every viewer's count right |
| `SessionTables.ReserveExactly` | src/db.rs:2657-2675 | A reservation is granted exactly when the viewer is named and under 5, and then takes one slot of that viewer only |
| `SessionTables.CancelExactly` | src/db.rs:2704-2708 | A cancelled reservation gives back one slot of its viewer only |
| `SessionTables.AcquireExactly` | src/db.rs:2607-2633 | An acquire admits exactly when the row is storable and new and rows plus reservations of the viewer are under 5; it writes that row, active, and no other |
| `SessionTables.AcquireTakesOneSlot` | src/db.rs:2607-2633 | It takes one slot when it admits and none when it does not |
| `SessionTables.UpdateExactly` | src/db.rs:2757-2847 | An update is refused exactly when the row is missing or not storable, or becomes active for a viewer at the cap that it was not active for; every field written is stated |
| `SessionTables.InsertReservedExactly` | src/db.rs:2680-2695 | A reserved insert succeeds exactly when the row is storable and new; the reservation is settled either way |
| `SessionTables.DeactivateExactly` | src/db.rs:1773-1798 | Exactly the rows of the viewer become inactive, and nothing else about any row changes |
| `SessionTables.DeleteExactly` | src/db.rs:1254-1284 | Deleted rows are gone, the others and every counter stay |
| `SessionTables.BatchEndExactly` | src/db.rs:2134-2158 | A commit keeps every row, a rollback brings back those of the start |
| `SessionTables.CommittedRunsKeepCap` | src/db.rs:2134-2186 | Runs whose group commits all succeed never put a viewer above 5 |
| `SessionTables.FailedBatchBound` | src/db.rs:2134-2186 | After a failed commit the occupancy is the rows active at the start plus the open reservations: at most the start's occupancy plus the reservations granted meanwhile |
| `SessionTables.FailedBatchCanExceedCap` | src/db.rs:2151-2156 | From every state at the cap with an active row there is a failed commit that ends one above it |
| `SessionTables.UndeletedRunsCountExactly` | src/db.rs:2607-2847 | With no row deletion the occupancy is exactly active rows plus open reservations, in every run |
| `SessionTables.ReservedInsertRolledBackLosesSession` | src/auth_worker.rs:248-264 | Why a reserved insert must stay out of a group: rolled back it leaves an admitted session with neither row nor slot |
| `PublisherTable.RunsKeepOne` | src/db.rs:2134-2393 | Every run of acquires, updates, stats writes, deletions and rolled-back batches leaves at most one active publisher per stream |
| `PublisherTable.AcquiredKeepsOne` | src/db.rs:2189-2254 | An accepted acquire is the stream's only active row |
| `PublisherTable.UpdatedKeepsOne` | src/db.rs:2256-2337 | Skipping the count for a same-stream refresh is safe |
| `PublisherTable.AcquireExactly` | src/db.rs:2189-2254 | An acquire succeeds exactly when nobody is active on the stream and the row is storable and new; it writes that row, active, and no other |
| `PublisherTable.UpdateExactly` | src/db.rs:2256-2337 | An update is refused exactly when the row is missing or not storable, or comes onto a stream where another is active; every field written is stated |
| `PublisherTable.StatsExactly` | src/db.rs:2356-2393 | A stats write changes the figures of an active row and nothing else |
| `PublisherTable.PublisherDb.OtherActive` | src/db.rs:2189-2337 | True exactly when another row is active on the stream |
| `PublisherTable.PublisherDb.PublisherTryAcquire` | src/db.rs:2189-2254 | Answer and table as specified, invariant kept in the table and in the copy a rollback would restore |
| `PublisherTable.PublisherDb.PublisherUpdate` | src/db.rs:2256-2337 | The same for the full-row update |
| `PublisherTable.PublisherDb.RunCalls` | src/db.rs:2134-2393 | Results and tables of a whole run, invariant kept |
| `AuthWorkerLaws.GroupingPreservesMeaning` | src/auth_worker.rs:248-316 | When no group rolls back, grouping gives the same final state and completions as one job after another, for every job list |
| `AuthWorkerLaws.CompletionsAnswerRequests` | src/auth_worker.rs:205-316 | Whatever commits fail: exactly one completion per authorization, in submission order, with its request id |
| `AuthWorkerLaws.UngroupedJobsSplitTheRun` | src/auth_worker.rs:248-264 | A close or fast-path write runs once, on the state left by everything before it, outside every group |
| `AuthWorkerLaws.TransactionsHoldAuthorizations` | src/auth_worker.rs:248-264 | No close or fast-path write is ever inside a transaction |
| `AuthWorkerLaws.AllowNeedsCommit` | src/auth_worker.rs:272-316 | An allow is reported only for a group that committed or ran unbatched |
| `AuthWorkerLaws.RolledBackGroupAllowsNothing` | src/auth_worker.rs:286-316 | A rolled-back group answers only denials, and every connection it had allowed is marked for a forced close |
| `AuthWorkerLaws.FailedGroupLeavesHeldRows` | src/auth_worker.rs:272-316 | After a failed group the active publisher and player rows are exactly those active before it, minus rows whose connection now tracks another row or none |
| `AuthWorkerLaws.WorkerKeepsOnePublisher` | src/rtmp_bridge.rs:1280-1485 | No job list, storage fault or failed commit gives a stream two active publishers |
| `AuthWorkerLaws.JobReports` | src/auth_worker.rs:205-242 | An authorization gives one completion with its kind, connection and request id, which names the row the connection now holds exactly when it allows; the other jobs give none |
| `AuthWorkerJobs.CloseDeactivates` | src/rtmp_bridge.rs:2044-2125 | With storage accepting, a close forgets the connection and deactivates exactly the rows it held |
| `AuthWorkerJobs.CloseExactly` | src/rtmp_bridge.rs:2044-2125 | Whatever storage does, a row the closed connection held that is still active is queued for another try, and no other row changes |
| `AuthWorkerJobs.RestorePublisherExactly` | src/rtmp_bridge.rs:623-641 | A released publisher row is active again exactly when nobody has taken its stream |
| `AuthWorkerJobs.RestorePlayerExactly` | src/rtmp_bridge.rs:623-641 | A released player row is active again exactly when its viewer still has a slot |
| `AuthWorkerJobs.PublishExactly` | src/rtmp_bridge.rs:1280-1485 | A granted publish is allowed exactly when nobody but the connection itself is active on the stream; the new row is active and tracked, the old one not, and no other row changes |
| `AuthWorkerJobs.RefusedPublishKeepsRows` | src/rtmp_bridge.rs:1280-1485 | A refused publish on a publishing connection leaves every row as active as it was |
| `AuthWorkerJobs.PlayExactly` | src/rtmp_bridge.rs:1487-1664 | A granted play is allowed exactly when, its old row released and counting reservations made by then, the viewer is under the cap; the new row is active and tracked, the old one not, and no other row changes |
| `AuthWorkerJobs.ReleaseFreesOneSlot` | src/rtmp_bridge.rs:1487-1664 | Releasing the old row frees exactly one slot of its viewer when nobody reserves meanwhile |
| `AuthWorkerJobs.RefusedPlayKeepsRows` | src/rtmp_bridge.rs:1487-1664 | A refused play on a playing connection then leaves every row as active as it was |
| `AuthWorkerSlots.ContestedPlay` | src/rtmp_bridge.rs:1487-1664 | When another thread reserves the released slot, the refused play loses the old row too |
| `AuthWorkerJobs.DeniedWithoutGrant` | src/rtmp_bridge.rs:1280-1485 | Without a grant the request is denied and only the outcome is recorded |
| `AuthWorkerJobs.PersistPlayExactly` | src/rtmp_bridge.rs:1912-1946 | The row admitted by the fast path is written and stays active exactly while the connection still plays it; unwritten, the session is dropped and the connection closed |
| `AuthWorkerJobs.PersistPublishExactly` | src/rtmp_bridge.rs:1855-1882 | The same for a publisher row, which also needs its stream to be free |
| `AuthWorkerSlots.WorkerIsLegalRun` | src/auth_worker.rs:205-316 | Every job list whose fast-path plays hold open reservations, with RTMP threads reserving before any of its player calls, grouped, rolled back and repaired in any way, leaves the slots as a legal run of the database's own calls does, with no deletion, and no failed commit unless a group was rolled back |
| `AuthWorkerSlots.WorkerCountsExactly` | src/auth_worker.rs:205-316 | So after it each viewer's slots are its active rows plus open reservations, and within the cap unless a group was rolled back |
| `AuthWorkerSlots.RolledBackGroupExceedsCap` | src/rtmp_bridge.rs:1487-1664 | That is needed: from every state at the cap in which a connection tracks an active row, two authorizations and one reservation by another thread leave the viewer one above it |
| `AuthWorkerThread.Worker.RunJobList` | src/auth_worker.rs:205-242 | The job loop computes the one-after-another run |
| `AuthWorkerThread.Worker.RunAuthorizationGroup` | src/auth_worker.rs:272-316 | The group loop, its denials and its repair compute the specified group |
| `AuthWorkerThread.Worker.CollectHeld` | src/auth_worker.rs:276-285 | The rows each connection of the group held before it |
| `AuthWorkerThread.Worker.DenyAll` | src/auth_worker.rs:294-299 | Every completion denied in order, every allowed connection marked |
| `AuthWorkerThread.Worker.RunGroupedJobs` | src/auth_worker.rs:248-264 | The grouping loop computes the specified grouped run |
| `SubmitQueue.QueueBounded` | src/auth_worker.rs:113-141 | In every interleaving at most 512 authorizations are queued and no next step takes the counter below zero |
| `SubmitQueue.StepKeepsInv` | src/auth_worker.rs:113-141 | The counter is exactly queued plus in-transit authorizations; those past the check fit |
| `SubmitQueue.RefusalIsUndone` | src/auth_worker.rs:113-141 | A refused submission leaves the whole state as it found it |
| `SubmitQueue.AcceptedIsQueued` | src/auth_worker.rs:113-141 | A submission that finds room is queued and counted, or, with the worker gone, leaves the whole state as it found it |
| `SubmitQueue.OthersAreQueued` | src/auth_worker.rs:113-141 | Closes and row writes are queued uncounted and never refused while the worker is there |
| `SubmitQueue.TakenInOrder` | src/auth_worker.rs:346-397 | The worker takes jobs in order and takes an authorization out of the counter |
| `SubmitQueue.CounterCanOvershoot` | src/auth_worker.rs:113-141 | With the queue full, two refused submitters stand in the counter at once |
| `KeyCache.HitsAreCurrent` | src/db.rs:1535-1666 | In every interleaving of writes, nested transactions, rollbacks, raw accesses and any number of refreshes, at every moment, a hit on a valid key is what the query would return; with a current snapshot so is a miss |
| `KeyCache.UndisturbedRefreshServes` | src/db.rs:1613-1666 | After a refresh nobody interrupts, hits and misses are what the queries would return |
| `KeyCache.WritesSilenceTheSnapshot` | src/db.rs:552-563 | From a write or raw access on, the snapshot answers nothing until the next refresh |
| `KeyCache.DirectPlayExactly` | src/db.rs:1535-1579 | A valid play key answers with the enabled viewer that has it and its stream, or not at all |
| `KeyCache.DirectPublishExactly` | src/db.rs:1064-1085 | A valid publish key answers with the enabled stream that has it |
| `KeyCache.SoundStep` | src/db.rs:1613-1666 | Whatever one thread does, a snapshot that was right stays right or goes out of date, however late it is installed |
| `KeyCache.ReadInsideTransactionGoesStale` | src/db.rs:1613-1666 | Why a refresh reads outside transactions: a snapshot of uncommitted rows would survive their rollback |
| `KeyCache.MirrorAnswersDirectly` | src/db.rs:1535-1579 | A snapshot of the tables answers both lookups as the queries do |
| `KeyCache.LoadPlay` | src/db.rs:1613-1666 | The loaded play map holds exactly the keys of enabled viewers, each with its viewer and stream |
| `KeyCache.LoadPublish` | src/db.rs:1613-1666 | The loaded publish map holds exactly the keys of enabled streams |
| `KeyCache.KeyDb.TakeStep` | src/db.rs:2109-2118 | The fields move as the machine's step says and the invariant is kept |
| `KeyCache.KeyDb.CachedPlayKey` | src/db.rs:1591-1597 | A hit on a valid key is the query's answer on the tables as they are |
| `KeyCache.KeyDb.CachedPublishKey` | src/db.rs:1601-1607 | The same for publish keys |
| `KeyRegistry.RunsKeepKeysApart` | src/db.rs:672-720 | Every run of additions with valid keys, and any removals, keeps each key on one stream: the audit would report nothing |
| `KeyRegistry.StreamAddedExactly` | src/db.rs:872-956 | An accepted stream keeps keys apart exactly when none of its keys was held before; for valid keys that was checked |
| `KeyRegistry.ViewerAddedExactly` | src/db.rs:1401-1481 | An accepted viewer keeps keys apart exactly when no other stream held its key, default-viewer sharing included |
| `KeyRegistry.ValidStreamAddedExactly` | src/db.rs:872-956 | With valid keys a stream is added exactly when it belongs with its viewer, storage accepts, both ids are new and no key of it is held; nothing else changes |
| `KeyRegistry.ValidViewerAddedExactly` | src/db.rs:1401-1481 | With a valid key a viewer is added exactly when storage accepts, its stream is there and not being deleted, its id is new and its key free or the stream's own |
| `KeyRegistry.RemovedExactly` | src/db.rs:1254-1284 | Removing a stream removes its viewers and nothing else |
| `KeyRegistry.ShortKeysCanCollide` | src/db.rs:783-799 | Two accepted additions with short keys put one key on two streams |
| `KeyRegistry.RegistryDb.KeyGloballyInUse` | src/db.rs:783-799 | True exactly when a valid key gives access to some stream |
| `KeyRegistry.RegistryDb.StreamAddWithViewer` | src/db.rs:872-956 | Result and tables for every error path and for success |
| `KeyRegistry.RegistryDb.ViewerAdd` | src/db.rs:1401-1481 | Result and tables for every error path and for success |
| `StreamDelete.OnlyAcceptedRowsAreDeleted` | src/db.rs:1131-1284 | In every interleaving a row is marked pending only by a delete that captured that very row, and removed only if pending and captured by an accepted delete |
| `StreamDelete.OlderDeleteAndReplacement` | src/state.rs:117-160 | A delete of an older row removes the replacement exactly when it is finalizing and a newer accepted delete has marked the replacement; it never marks it itself |
| `StreamDeleteRuns.OlderDeleteCanRemoveReplacement` | src/http.rs:1362-1403 | A full run from the empty state in which that happens |
| `StreamDelete.SoloDeletesRemoveTheirOwnRow` | src/http.rs:1625-1706 | In every run in which deletes of the id do not overlap, a delete removes only the row it captured |
| `StreamDelete.BegunStaysPendingExactly` | src/http.rs:1417-1462 | Once begun and not re-enabled, the row stays gone or disabled and pending in every run, exactly when no delete stands at its give-up disable |
| `StreamDeleteRuns.GiveUpClearsPending` | src/http.rs:1417-1462 | A run from the empty state to a delete committed to that disable while another has just begun, and the step that clears its pending mark |
| `StreamDelete.AloneDeleteRemoves` | src/http.rs:1498-1623 | A delete of an existing row, with no other at work and faults only in re-checks and all finalizes but the last, ends with the row gone, whether or not sessions were attached |
| `StreamDelete.StaysOnCourse` | src/http.rs:1498-1623 | The row matches from capture on, is pending from the drain on and is gone from the clearing on |
| `StreamDelete.Coordinator.RunAlone` | src/http.rs:1625-1821 | The same delete run to its end, with both markers clear |
| `StreamDelete.ReenabledRowIsBegunAgain` | src/http.rs:1540-1622 | A background delete that finds its row re-enabled disables it and marks it again |
| `StreamDelete.ReplacedRowEndsDelete` | src/http.rs:1540-1622 | One that finds its row replaced or gone ends without touching what is there |
| `StreamDelete.GivenUpRowStaysPending` | src/http.rs:1417-1462 | One that gives up, and can write, leaves its row disabled and pending |
| `StreamDelete.SecondRequestTurnedAway` | src/http.rs:1625-1672 | A request that finds a delete under way is turned away and changes nothing |
| `StreamDelete.DeletesEnd` | src/http.rs:1498-1623 | Every step of a delete brings it nearer its end, with at most six finalize calls, both markers clear when it ends |
| `StreamDelete.Coordinator.RunDelete` | src/http.rs:1625-1821 | A delete run to its end against any faults and any interference ends, within a computed number of steps and six finalize calls, and both markers are clear if it captured a row, which it did if it finalized anything |
| `StatsQueue.LatestExactly` | src/db.rs:2421-2434 | What waits for a row is what was queued last, with no full-row update of it and no committed flush since |
| `StatsQueue.FlushWritesOnlyLatest` | src/db.rs:2444-2491 | A flush changes a row only to the figures queued last, only when it commits, and never its active flag |
| `StatsQueue.CommittedFlushExactly` | src/db.rs:2444-2491 | A committed flush writes to every active row the storable figures queued last for it, leaves every other row alone, and keeps what was queued meanwhile |
| `StatsQueue.FailedFlushIsInvisible` | src/db.rs:2498-2506 | After a failed flush queue and rows are as if only the queueing done meanwhile had happened |
| `StatsQueue.RolledBackBatch` | src/db.rs:2134-2158 | A rolled-back group puts every row back; what was waiting for a row is lost if and only if a full-row update of it ran in the group and nothing was queued for it since |
| `StatsQueue.RolledBackUpdateLosesStats` | src/db.rs:2256-2337 | From every history with figures waiting for a row, an update of the row in a rolled-back group leaves the row as it was and nothing waiting |
| `StatsQueue.StatsDb.BatchEnd` | src/db.rs:2134-2158 | The end of a group restores or keeps the rows and leaves the queue alone |
| `StatsQueue.StatsDb.FlushPendingStats` | src/db.rs:2444-2491 | Queue and tables after a flush that fails at begin, at any write, at commit, or succeeds are what the history of calls says |
| `StatsQueue.StatsDb.RequeuePendingStats` | src/db.rs:2498-2506 | Drained entries come back, newer ones win |
| `StatsQueue.StatsDb.WriteDrained` | src/db.rs:2356-2393 | Each drained entry is written to its row if the row is active and storable |
| `StatsQueue.StatsDb.FullRowUpdate` | src/db.rs:2256-2337 | A full-row update drops what is queued for its row, also when a slot check then refuses it |
| `StatsQueue.StatsDb.QueueStats` | src/db.rs:2421-2434 | The newest figures replace the queued ones |
| `RateLimiter.Limiter.Check` | src/rate_limit.rs:114-153 | A tracked key is admitted exactly when its full history since its last eviction has fewer than its cap in the window; a new key exactly when there is or can be room; only a key below its own cap is given up; at most 10,000 keys |
| `RateLimiter.ClientsAreCapped` | src/rate_limit.rs:69-153 | Since its last eviction no key was admitted more often than its cap in any window, wherever the window starts |
| `RateLimiter.EvictedLongestAgo` | src/rate_limit.rs:95-112 | A key is given up only when the map is full of keys still in their windows, and it is the one below its cap admitted longest ago |
| `RateLimiter.BudgetsAreApart` | src/rate_limit.rs:171-199 | The API budget is drawn on exactly by authenticated API requests, and each stats path has its own |
| `RateLimiter.CapsByDefault` | src/rate_limit.rs:24-33 | The caps of the default configuration; HLS gets ten times the default, at least 600, and nothing when the default is zero |
| `RateLimiter.DecidedRefines` | src/rate_limit.rs:114-153 | The pruned, evicting map still tells every key's recent admissions as the full histories do |
| `RateLimiter.DecidedIsFair` | src/rate_limit.rs:114-153 | The decision taken on pruned buckets is the decision on full histories |
| `RateLimiter.RoomMeans` | src/rate_limit.rs:95-112 | Room is refused exactly when the map is full of keys at their caps, and an evicted key is below its own |
| `RateLimiter.PurgeExpired` | src/rate_limit.rs:83-88 | Every bucket pruned, empty ones gone, nothing else changed |
| `RateLimiter.OldestEligible` | src/rate_limit.rs:95-112 | An eligible key with the oldest last admission, none exactly when no key is eligible |
| `RateLimiter.Retain` | src/rate_limit.rs:74-80 | The entries in the window, in order |
| `RateLimiter.KeptCountsYounger` | src/rate_limit.rs:69-80 | What the pruned list holds is as many admissions as are younger than the window |
| `RateLimiter.KeptLater` | src/rate_limit.rs:69-72 | Pruning now and again later is pruning later |
| `SinkQueue.BytesAccounted` | src/media_output.rs:927-955 | In every interleaving the counter never goes below zero, accepted bytes not yet dealt with fit the limit, and until failure the counter is exactly what is queued, in a hand or on its way |
| `SinkQueue.OfferExactly` | src/media_output.rs:928-948 | A tag that fits is queued and counted; one over the limit, or that finds the channel full or gone, disables the sink and leaves queue and counter alone; a closed or failed sink takes nothing |
| `SinkQueue.StoppingExactly` | src/media_output.rs:957-985 | Stopping closes the channel, giving up and a worker error raise the flag, and nothing more |
| `SinkQueue.FailedWorkerDescends` | src/media_output.rs:1259-1287 | Once the sink has failed every step of the worker brings it nearer its end |
| `SinkQueue.FailedLoopResets` | src/media_output.rs:1259-1287 | A worker that finds the flag up resets the counter and lets go of the channel |
| `SinkQueue.OutputIsAcceptedPrefix` | src/media_output.rs:1259-1287 | The output is the accepted tags in order from the first, and all of them when the worker found the channel closed and empty |
| `SinkQueue.DisabledStaysDisabled` | src/media_output.rs:950-955 | A failed or closed sink never accepts another tag |
| `SinkQueue.FailedSinkWritesAtMostOne` | src/media_output.rs:1259-1287 | Once the sink has failed, at most the one tag already past the second flag test is still written |
| `SinkQueue.ClosedSinkDrains` | src/media_output.rs:1259-1287 | From every reachable closed and unfailed state the worker's own steps end with everything written |
| `SinkQueue.StepKeepsInv` | src/media_output.rs:927-955 | Every atomic step of either thread keeps protocol, counter, limit and order |
| `Flv.ReadsExactlyWhatIsWritten` | src/media_output.rs:1631-1658 | A file reads as a list of tags exactly when it is the header and their bytes: round trip, uniqueness, and each trailing size equal to its tag's length |
| `Flv.ReadTagOf` | src/media_output.rs:1635-1658 | One tag is read back with its type, full 32-bit timestamp and payload, whatever follows it |
| `Flv.ReadTagIs` | src/media_output.rs:1635-1658 | Whatever the reader takes for a tag is that tag's own bytes |
| `Flv.HeaderIsExact` | src/media_output.rs:1631-1633 | The thirteen header bytes are the only ones the reader accepts |
| `Recording.EncodedIsFrame` | src/media_output.rs:1635-1658 | A frame is encoded exactly when its payload is at most 0xFFFFFF bytes, as one tag of the kind, timestamp and payload of the frame |
| `Recording.RecordingReadsAsAccepted` | src/media_output.rs:1259-1287 | Whatever the two threads do, the recording of whole tags reads as the accepted frames from the first, all of them once drained |
| `MediaDebounce.DebouncedAreSpaced` | src/media_output.rs:472-606 | From any state and for any calls in between: a restart comes at least 2 s after a restart, and a publish-driven stream change at least 2 s after a stream change, unless a call inside the window loses the session's stamp |
| `MediaDebounce.LossExactly` | src/media_output.rs:472-606 | Inside the window a call leaves the debounce in force for every continuation if and only if it is none of the named stamp-losing calls, told by the branch guards before the call |
| `MediaDebounce.HeldThroughoutExactly` | src/media_output.rs:472-606 | Over a run inside the window the stamp is kept throughout if and only if no call loses it |
| `MediaDebounce.SurvivesExactly` | src/media_output.rs:472-606 | The same for one call |
| `MediaDebounce.RestartsAreFew` | src/media_output.rs:472-606 | A span of t milliseconds in which no recent stamp is lost holds at most 1 + t / 2000 restarts, publish-driven stream changes included |
| `MediaDebounce.SwitchingEscapesTheGuard` | src/media_output.rs:521-543 | After every restart by a publish command, frames of another stream and back let the session restart 4 ms later |
| `MediaDebounce.RestartForgetsTheSwitch` | src/media_output.rs:503-518 | From every state a frame, a new generation and a publish on the old stream change streams twice within 2 ms |
| `MediaSessions.EnsureExactly` | src/media_output.rs:472-519 | When a publish opens, restarts, switches or loses the session, each exactly, and the session it builds |
| `MediaSessions.HeldBackPublishIsNoted` | src/media_output.rs:479-493 | A publish held back is taken note of: asked for again it changes nothing |
| `MediaSessions.FrameExactly` | src/media_output.rs:521-606 | After a frame of a readable stream the session is of that stream and holds its timestamp; it is a new one exactly when there was none, or one of another stream, or the timestamp was a reset |
| `MediaSessions.SecondFrameRestartsExactly` | src/media_output.rs:549-598 | Of two successive frames the second restarts the session exactly when no restart is recent and the timestamp has gone back by more than a second and less than half its range |
| `MediaSessions.UnreadableFrameExactly` | src/media_output.rs:521-606 | With an unreadable stream a session is left exactly when it was of that stream and the timestamp no reset |
| `MediaSessions.OthersUntouched` | src/media_output.rs:472-606 | A call touches no other connection, and none when outputs are disabled |
| `MediaSessions.RetainExactly` | src/media_output.rs:608-620 | Exactly the live connections keep their sessions, unchanged |
| `MediaSessions.ResetExactly` | src/media_output.rs:553-573 | A timestamp step is a reset exactly when, going forward modulo 2^32, it is over 2^31 + 1 and more than 1000 short of a full turn |
| `MediaSessions.SmoothPublishNeverRestarts` | src/media_output.rs:545-606 | A publish whose timestamps step forward by at most 2^31 or back by at most 1000 never restarts and never loses its session |
| `MediaSessions.MediaOutputManager.EnsurePublisher` | src/media_output.rs:472-519 | Sessions and event after every branch, debounced and unreadable ones included |
| `MediaSessions.MediaOutputManager.HandleFrame` | src/media_output.rs:521-606 | Sessions and event, and a frame is delivered exactly to a session of its own stream |
| `MediaSessions.MediaOutputManager.RetainPublishers` | src/media_output.rs:608-620 | Exactly the live connections' sessions stay |
| `Readiness.EpollReadiness.Replay` | src/readiness.rs:185-258 | After any history of openings, closings and syncs, failed ones included, in which no owner takes back a descriptor that a sync may have left registered for it, a successful sync leaves the kernel watching exactly what a set built afresh would |
| `Readiness.EpollReadiness.Sync` | src/readiness.rs:185-258 | On success the registrations are the wanted ones, the missed descriptors are exactly those missed before and wanted unchanged, and the kernel is right exactly when there are none |
| `Readiness.EpollReadiness.SyncWanted` | src/readiness.rs:232-257 | A failure part-way leaves every registration either wanted or as it was, and misses nothing new |
| `Readiness.EpollReadiness.SyncOne` | src/readiness.rs:233-255 | One descriptor brought in line through MOD, ADD and their fallbacks, or left untouched on error |
| `Readiness.EpollReadiness.DropStale` | src/readiness.rs:219-230 | Unwanted registrations leave both sides |
| `Readiness.BuildDesired` | src/readiness.rs:185-217 | The wanted set: listeners unless at the cap, open connections, writable while bytes are queued |
| `Readiness.DesiredIsUnique` | src/readiness.rs:185-217 | There is only one such set |
| `Readiness.RebindIsMissed` | src/readiness.rs:232-234 | A listener bound again on its old descriptor is registered but not watched |

## Left out

- SQL text, schema migrations, file permissions and SQLite itself: tables are maps, a statement is one atomic step, and a write is accepted or refused by a parameter.
- The cluster coordinator, Raft replication and ownership rows: only the standalone arms are modelled.
- The rest of the RTMP bridge: the fast path's decision to reserve, kicks and limits are parameters; its rows per connection and their writes are modelled.
- HTTP routing, request validation, response formats, metrics and logs: plumbing.
- FFmpeg children, hooks, HLS files and thread joins: effects of the operating system.
- The AdmissionController and ownership epochs: they would only add easy members.
- Configuration loading, key generation, finding the client address behind proxies: easy members.
- The drain wait of a delete and the pauses between its attempts: whether sessions are left is a parameter, time is not modelled.
- Tokens of row incarnations are fresh; the deterministic tokens of rows created before tokens existed are not modelled.
- AuthWorkerSlots.WorkerIsLegalRun: a reservation that another thread takes back because the worker's queue is full is not modelled while a job list runs; SessionTables and SlotCounters have it.
- AuthWorkerLaws.FailedGroupLeavesHeldRows: asks that the repair writes are accepted and that held rows' byte counts fit SQLite, without which a deactivation is refused.
- StreamDelete.BegunStaysPendingExactly: asks that the two reads before a give-up's plain disable succeed and that no delete rolls back by re-enabling.
- StatsQueue.StatsDb.FullRowUpdate: whether the slot or publisher check admits the row is a parameter here; those checks are modelled in SessionTables and PublisherTable.
- SlotCounters.Db.PlayerUpdate: the read of the row's current viewer succeeds, and so do the reads of a counter rebuild; a failed read there is taken for a missing row by the server.
- RateLimiter.Limiter.Check: each key has one cap, as it has while the configuration stands, and the clock does not run backwards.
- SinkQueue.BytesAccounted: byte counts are unbounded integers; the saturating addition of the byte check makes no difference while the limit is below the largest machine word.
- SinkQueue: a write that fails half-way is not part of the output; the recording then ends in a torn tag.
- MediaDebounce.LossExactly: stated for enabled outputs; with outputs disabled no call builds a session.
- MediaSessions: retiring a session is only its removal from the map; generations do not wrap.
- Readiness: a removal asked of the kernel always removes a descriptor it has, and the wait itself is not modelled.

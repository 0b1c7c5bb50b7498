# Verified model of the indexer, notification, governance, keeper and storage logic

This project models the stateful logic of the off-chain service in Dafny and proves what that
logic is for. Run `dafny verify dfyconfig.toml`.

The chain is a sequence of blocks; a block hash is built from the parent's hash and the block, so
equal hashes mean equal histories. The service follows the chain with an event table, a durable
cursor that carries the hash of the block below it, two projection snapshots, a finality bound and
a durable queue of notification batches that could not be delivered.

- `ChainEvents`, `EventSource`, `IdentityProjections`: event keys and order, the tombstone replay,
  the chunked log reader, the identity projection.
- `ProjectionStore`, `PendingSteps`, `PendingSweep`: the durable store, the content-keyed queue,
  its trim after a reorg and its sweep.
- `IndexerModel` gives each sub-step of a round as a function on the whole state, and the states a
  crash between two sub-steps leaves. `IndexerService` is the service itself, a class with its
  fields, transactions and loops; each method is proved equal to the function of its step.
- `IndexerAncestor`, `IndexerInvariant`, `IndexerCoverage` and `IndexerAgreement` prove over every
  run that the ancestor search is exact, that incremental indexing equals replaying the canonical
  log, that all stores agree after a rollback, and that cursor and finality only move as they
  should.
- `IndexerDelivery`, `IndexerCrashes`, `IndexerGhosts` and `IndexerGhostFree` are about what a sweep
  hands over: never an event that left the chain in runs of rounds and of the crashes that
  `IndexerCrashes` characterises, and for all other runs exactly when it does. `IndexerAtLeastOnce`
  is about events forgotten: none below the cursor, but for one kind of aborted rebuild,
  characterised exactly. `IndexerWitness` holds the runs from an empty store in which these
  exceptions happen.
- `IndexerCalls` and `IndexerRecords` run the delivery ledger beside the indexer: what was handed
  over has a record for each of its receivers.
- `TrimOrder` gives the order of the queue after a trim, `QueueListing` the order in which the
  store lists it.
- `Deliveries` is the delivery ledger, `ReplayGuard` the webhook nonce cache, `GovernanceLedger`
  and `Governance` the review and identity ledgers, `Reconcile` the reconciliation worker,
  `GovernanceReconcile` service and worker on one ledger, `DockKeeper` the dock automation,
  `StorageJson` the storage codec.

## Hypotheses

- One process writes. The lemmas on runs are about its own rounds; the all-or-nothing lemmas on
  the rollback hold with a second writer too.
- The chain does not change within one round; between rounds it may be any chain.
- Within a block log indices grow, and a later transaction has later logs.
- Canonical reads return no removed logs and carry block hashes, and the reader lower-cases
  addresses and hashes, so that what the store lower-cases again is unchanged.
- Digests (block hashes, step ids, descriptor, reason and request hashes) are collision-free.
- Projection folds are deterministic. The order fold may refuse a log; its snapshot is represented
  by the list of events it was folded from.
- Queue and invalidation writes succeed.
- New review ids are new.
- The queue lists a row saved later behind those saved before it: its creation time, read from the
  clock in milliseconds, is later, or the same with a greater step id (`ListedInSaveOrderExactly`).
  Only the order results of `TrimOrder` and the rows reached by a trim or sweep cut short depend on
  it; which rows a trim leaves does not (`TrimIgnoresListing`).
- On the chains that a run meets, one log of one transaction at one block has the same receivers
  (`RecordedAtLeastOnce` only).
- The ledger of governance logs stays below some length while a scan runs, and new logs have new ids.

## Where a property is false

Each entry names the lemma with the exact condition and the one with an input.

- Complete coverage. A reorg that is detected while the table is empty keeps its start block
  (`service/src/indexer/service.ts:938-945`). The table then covers the chain exactly if the new
  chain has no events below that block, and again after the next committed rebuild
  (`CheckCoversExactly`, `RestoredIsComplete`; `BlindReorgIsReachable`).
- No delivery of an event that left the chain. A crash can leave a batch queued above the cursor,
  where no later rollback looks for it, and a reorg of its block then goes unnoticed. A sweep is
  free of such batches exactly if those within the bound carry canonical hashes only
  (`GhostFreeExactly`, and on the state alone `NeverAGhostExactly`; `GhostAfterCrash`). Crashes
  during a sweep, after the events transaction, after the cursor moved, and after a notification
  that was taken leave no such batch. A crash after the batch was saved or recorded as failed, in
  the middle of a trim with a row left to trim, and between the queueing and the commit of a first
  rebuild leaves one (`CrashExactly`). Rebuilds after the first are outside `NoGhostDelivery`,
  because they replace the table and leave the queue as it is.
- At least once. A rebuild that fails before its commit withdraws its queue row by a
  content-derived id (`service/src/indexer/service.ts:420-425`). It loses a step exactly if that id
  was queued before (`AbortLosesExactly`), and an event exactly if that step was all that accounted
  for it (`RebuildForgetsExactly`, `AtLeastOnceExactly`; `AbortForgetsEvent`).
- Replay independent of the arrival order. It holds for the deliveries of one position exactly if
  they tie in the comparator (`ReplayIsLastDeliveryExactly`; `IncoherentPairMisreplays`), and for
  the interleaving of positions exactly if the comparator has no cycle among live deliveries
  (`InterleavingExactly`; `MixedIndicesCycle`). Events that carry a transaction index only in part
  can form one.
- A settled delivery stays settled exactly if the operator does not dead-letter it
  (`SettledForGood`). It comes back exactly if it is then reopened before a reorg voids it again
  (`ComesBackExactly`; `DeadLetterRevivesInvalidated`).
- At most one successful log per request. It holds for the governance service alone; with the
  reconciliation worker it holds exactly as long as no check brings a log back beside another one
  (`OneSuccessExactly`, `ChecksNeverDoubleExactly`; `HealedLogDoubles`).
- Trimming twice. Trimming at a and then at b agrees with trimming at the lower block row by row.
  The rows may be saved in another order, and with increasing creation times they are then listed
  in another order: they keep it exactly if the two trims meet the surviving ids in the order in
  which one trim does (`TrimsComposeExactly`), and in terms of the rows if no row stands before one
  that the first trim brings down further (`OrderExactly`; `TrimsMayReorder`).

## Where comments and code differ

The model follows the code. The comment at `service/src/indexer/service.ts:905-909` says that a
rollback to an anchor below the window deletes nothing; it deletes the rows of the window. The
comment at `service/src/notifications/service.ts:1595-1597` says that a manual retry reopens a
dead-lettered record; `retryDelivery` refuses it and `reopenDelivery` does it.

## Model

| member | source | states |
|---|---|---|
| `ChainEvents.CompareIsAntisymmetric` | service/src/indexer/events.ts:47-57 | swapping two events swaps the sign of the comparator, and a tie means one event position |
| `ChainEvents.TransactionOrderIsAcyclic` | service/src/shared/types.ts:32-50 | the comparator has no cycle when all events carry a transaction index, when none does, or when later transactions carry later logs |
| `ChainEvents.BuildActiveChainEventReplaySummary` | service/src/indexer/events.ts:67-98 | the sort-and-scan loop over a map and a set returns the active events, and reports filtered tombstones exactly when some key's last delivery in arrival order is one |
| `ChainEvents.ReplayIsLastDeliveryExactly` | service/src/indexer/events.ts:67-98 | every log made of given deliveries replays to the events whose last delivery is live if and only if deliveries of one position tie in the comparator |
| `ChainEvents.IncoherentPairMisreplays` | service/src/indexer/events.ts:74-88 | two deliveries of one position that do not tie are replayed against their arrival order |
| `ChainEvents.ActiveIsStrictlyOrdered` | service/src/indexer/events.ts:90-92 | the active events come out strictly ordered, without repetition |
| `ChainEvents.InterleavingExactly` | service/src/indexer/events.ts:59-98 | logs made of deliveries that tie within a position replay alike, however the keys interleave, if and only if the comparator has no cycle among three live ones |
| `ChainEvents.CycleBreaksReplay` | service/src/indexer/events.ts:59-61 | three live events in a comparator cycle replay differently in two arrival orders |
| `ChainEvents.MixedIndicesCycle` | service/src/shared/types.ts:32-50 | concrete events, two with and one without a transaction index, form such a cycle |
| `ChainEvents.CompactionIsSound` | service/src/indexer/events.ts:67-98 | replaying a continuation from the active events of a log gives what replaying the whole log gives, if deliveries of one position tie and no cycle leads through live ones |
| `ChainEvents.ReplayIsIdempotent` | service/src/indexer/events.ts:63-98 | replaying the active events changes nothing, whatever the deliveries of one position look like, if no cycle leads through live ones |
| `ChainEvents.CountDuplicateActiveEventAnomalies` | service/src/indexer/replay.ts:101-115 | the anomaly count is the number of live deliveries beyond the first of each key |
| `EventSource.SameHashSamePrefix` | service/src/indexer/service.ts:792-812 | equal block hashes at a height mean equal chains up to it |
| `EventSource.BlockRanges` | service/src/indexer/viem-event-source.ts:368-382 | the span loop tiles the interval with full spans and one cut-off last span |
| `EventSource.RangesCoverOnce` | service/src/indexer/viem-event-source.ts:368-382 | each block of the interval lies in exactly one span and no other block in any |
| `EventSource.ViemChainEventSource.Read` | service/src/indexer/viem-event-source.ts:190-240 | the chunked read of all contracts returns what one unchunked read returns and counts every undecodable log |
| `EventSource.ViemChainEventSource.ReadChunks` | service/src/indexer/viem-event-source.ts:199-218 | reading span by span gives the logs of the whole interval in order |
| `EventSource.ViemChainEventSource.Decode` | service/src/indexer/viem-event-source.ts:218-240 | decodable logs are kept in order, every other one is counted |
| `EventSource.ViemChainEventSource.ConsumeUnresolvedLogCount` | service/src/indexer/viem-event-source.ts:155-160 | the count is handed out and reset |
| `EventSource.ReadEventsMembers` | service/src/indexer/viem-event-source.ts:190-240 | a read returns exactly the canonical events of its range |
| `EventSource.ChainEventsAreOrderly` | service/src/indexer/service.ts:792-812 | events read off one chain have one event per key and no comparator cycle |
| `IdentityProjections.RebuildIdentityProjections` | service/src/indexer/identity-projections.ts:63-88 | the loop over mutable bindings computes the fold of the active events or throws where the fold fails |
| `IdentityProjections.BindingMeaning` | service/src/indexer/identity-projections.ts:117-161 | a binding exists exactly for registered keys, describes the last registration, and is revoked, by the last revocation, exactly when one follows |
| `IdentityProjections.RebuildSucceedsExactly` | service/src/indexer/identity-projections.ts:117-161 | the rebuild succeeds if and only if every registration is complete and every revocation names a binding and, for a known one, a reason |
| `ProjectionStore.SqliteProjectionStore.SaveCursor` | service/src/storage/sqlite-projection-store.ts:238-310 | the compare-and-set writes when the row is missing or stands at the expected block, and else writes nothing |
| `ProjectionStore.SqliteProjectionStore.AppendEvents` | service/src/storage/sqlite-projection-store.ts:432-510 | appending a list one event at a time, tombstones and revivals included |
| `ProjectionStore.DeletesExactlyAbove` | service/src/storage/sqlite-projection-store.ts:335-354 | a deletion leaves exactly the rows up to the block, keeps keys distinct, and deletes as many rows as lie above |
| `ProjectionStore.SqliteProjectionStore.ResetFromEvents` | service/src/storage/sqlite-projection-store.ts:91-154 | replaces table, snapshots, cursor and sync state together, or changes nothing |
| `ProjectionStore.TableKeysStayDistinct` | service/src/storage/sqlite-projection-store.ts:432-510 | the event key stays the primary key of the table |
| `ProjectionStore.TableFollowsLastDelivery` | service/src/storage/sqlite-projection-store.ts:438-487 | a key has a live row exactly when its last delivery was live, however often it was removed and came back |
| `ProjectionStore.AppendedMembers` | service/src/storage/sqlite-projection-store.ts:488-508 | appending live events, one per key, adds exactly those events |
| `PendingSteps.TrimLeaves` | service/src/indexer/service.ts:1036-1072 | row by row: batches at or below the ancestor and automation steps stay, other batches go, and a surviving part stands under its own derived id unless that id was taken |
| `PendingSteps.TrimmedEventsAreWithin` | service/src/indexer/service.ts:1041-1072 | after a trim no queued event lies above the ancestor |
| `PendingSteps.TrimKeys` | service/src/indexer/service.ts:1041-1072 | a trim drops exactly the keys above the ancestor, and stopped after n rows it has dropped no other |
| `PendingSteps.TrimIsIdempotent` | service/src/indexer/service.ts:1068-1080 | trimming twice to one block is trimming once |
| `PendingSteps.TrimsCompose` | service/src/indexer/service.ts:1041-1072 | trimming at a and then at b leaves the ids and attempts of trimming at the lower of the two, also when batches collapse onto one id |
| `TrimOrder.TrimsComposeRows` | service/src/indexer/service.ts:1041-1072 | with their events too, wherever a key determines its event |
| `TrimOrder.TrimmedOrder` | service/src/indexer/service.ts:1041-1072 | in the order in which rows are saved, a trim leaves the rows it keeps as they stood, and behind them each other surviving id once, in the order of its first row |
| `TrimOrder.TrimsComposeExactly` | service/src/indexer/service.ts:1041-1072 | trimming at a and then at b < a leaves the same queue in save order as trimming at b if and only if the surviving ids are met in queue order when the rows are visited in three groups: brought down to b by the first trim, left alone by it, shortened but not enough |
| `TrimOrder.OrderExactly` | service/src/indexer/service.ts:1041-1072 | they are if no row that loses events stands before one of an earlier group, and only then unless batches collapse onto one id |
| `TrimOrder.TrimsMayReorder` | service/src/indexer/service.ts:1041-1072 | batches of blocks 5, 15 and 6, 25 trimmed at 20 and then 10 are saved the other way round than when trimmed at 10 |
| `QueueListing.ListedInSaveOrderExactly` | service/src/storage/sqlite-projection-store.ts:355-396 | the store lists rows in the order in which they were saved if and only if each has a later creation time than those saved before it, or the same time and a greater id |
| `QueueListing.TrimIgnoresListing` | service/src/indexer/service.ts:1041-1072 | wherever a key determines its event, which rows a trim leaves does not depend on the order in which the store lists them |
| `QueueListing.RelistedTrimsCompose` | service/src/indexer/service.ts:1041-1072 | trimming at a, listing the rows in whatever order, and trimming at b leaves the rows that one trim at the lower block leaves, wherever a key determines its event |
| `PendingSteps.TrimPassKeepsValid` | service/src/indexer/service.ts:1533-1559 | ids stay unique and derived from what the rows carry after any number of trimmed rows |
| `PendingSweep.SweepConserves` | service/src/indexer/service.ts:1304-1371 | swept = delivered + failed + waitingFinality |
| `PendingSweep.SweepSettles` | service/src/indexer/service.ts:1315-1357 | a sweep settles every row by its own outcome: gone, unchanged while waiting for finality, or one attempt older |
| `PendingSweep.SweepLosesNoKey` | service/src/indexer/service.ts:1315-1357 | a queued key is still queued, or its batch was taken or given up, after any number of swept rows |
| `PendingSweep.BudgetCountsFailuresOnly` | service/src/indexer/service.ts:1320-1352 | over any sweeps that never deliver it a step with k attempts is gone after max(1, 16 - k) failures, and waiting for finality consumes nothing |
| `Deliveries.NotificationLedger.DispatchSignalTransportDelivery` | service/src/notifications/service.ts:1578-1629 | settled records are returned, exhausted ones dead-lettered, all others saved as pending and dispatched |
| `Deliveries.NotificationLedger.DispatchPreparedDelivery` | service/src/notifications/service.ts:1631-1677 | no adapter means skipped without an attempt; an answer or an exception is one attempt |
| `Deliveries.NotificationLedger.SaveSkippedSignalDelivery` | service/src/notifications/service.ts:1732-1761 | a skip is written only over nothing or over a pending record |
| `Deliveries.NotificationLedger.RetryDelivery` | service/src/notifications/service.ts:583-624 | sent, dead-lettered and invalidated records are refused, others dispatched afresh |
| `Deliveries.NotificationLedger.ReopenDelivery` | service/src/notifications/service.ts:626-663 | only a dead-lettered record is reopened |
| `Deliveries.NotificationLedger.DeadLetterDelivery` | service/src/notifications/service.ts:687-698 | an operator may dead-letter any record, keeping its reason unless one is given |
| `Deliveries.NotificationLedger.InvalidateDeliveriesAboveBlock` | service/src/notifications/service.ts:665-685 | the loop invalidates exactly the records of the chain above the block and returns their number |
| `Deliveries.NotificationLedger.ProcessSignalSubmittedEvents` | service/src/notifications/service.ts:383-570 | the processor dispatches the intents of the active final signals in replay order and tallies them |
| `Deliveries.InvalidationIsComplete` | service/src/notifications/service.ts:665-685 | after an invalidation only invalidated records of the chain point above the block, and repeating it changes nothing |
| `Deliveries.ProcessedSignalsAreRecorded` | service/src/notifications/service.ts:383-570 | a call that returns leaves a record for every receiver of every active final signal |
| `Deliveries.SummaryCoversSends` | service/src/notifications/service.ts:1982-2002 | every intent is counted once, and every transport call shows up as sent or failed |
| `Deliveries.AutomaticRunsSendAtMostFive` | service/src/notifications/service.ts:1594-1605 | in crash-free automatic runs each delivery has at most five sends and one success, and attempts counts its sends |
| `Deliveries.AttemptsStayWithinBudget` | service/src/notifications/service.ts:1594-1605 | the attempts of a delivery stay at most five in automatic runs with crashes around the transport call |
| `Deliveries.SettledForGood` | service/src/notifications/service.ts:583-698 | a sent or invalidated delivery is sent or invalidated after every further operation if and only if the operator never dead-letters that delivery |
| `Deliveries.NeverDeadLettered` | service/src/notifications/service.ts:583-698 | then it is never sent again, and an invalidated record never changes |
| `Deliveries.ComesBackExactly` | service/src/notifications/service.ts:626-698 | a reopening takes effect on a settled delivery if and only if it is dead-lettered and then reopened with no reorg voiding it in between; otherwise it is never sent again |
| `Deliveries.EffectSends` | service/src/notifications/service.ts:626-663 | such a reopening is one further send exactly when it reaches the transport |
| `Deliveries.DeadLetterRevivesInvalidated` | service/src/notifications/service.ts:626-698 | dead-lettering and reopening does send an invalidated delivery again |
| `IndexerService.IndexerService.RefreshFromCursor` | service/src/indexer/service.ts:479-667 | the incremental round on the real fields equals the round of the model, fault by fault |
| `IndexerService.IndexerService.RebuildFromDeploymentBlock` | service/src/indexer/service.ts:222-432 | the rebuild on the real fields equals the rebuild of the model |
| `IndexerService.IndexerService.ReplaceProjections` | service/src/indexer/service.ts:360-424 | the step is queued before the commit and withdrawn after delivery or abort |
| `IndexerService.IndexerService.ResetCursor` | service/src/indexer/service.ts:229-279 | nothing final: only cursor and sync state are written |
| `IndexerService.IndexerService.RollbackOnReorg` | service/src/indexer/service.ts:813-871 | the check compares the stored hash with the chain and rolls back, or faults |
| `IndexerService.IndexerService.FindAncestor` | service/src/indexer/service.ts:879-943 | the two search loops, one with a set of seen blocks, compute the search of the model |
| `IndexerService.IndexerService.ApplyReorgRollback` | service/src/indexer/service.ts:949-1027 | the transaction deletes, rebuilds and moves the cursor or restores everything, then invalidates and trims |
| `IndexerService.IndexerService.DeferToDurableCursor` | service/src/indexer/service.ts:840-871 | a lost race takes over the durable cursor and gives up after three in a row |
| `IndexerService.IndexerService.TrimPendingPostCommitStepsAfterReorg` | service/src/indexer/service.ts:1036-1093 | the trim loop computes the trim of the queue |
| `IndexerService.IndexerService.SweepPendingPostCommitSteps` | service/src/indexer/service.ts:1304-1371 | the sweep loop computes the sweep of the queue and its conserved summary |
| `IndexerService.IndexerService.DeliverPendingPostCommitStep` | service/src/indexer/service.ts:1387-1421 | a step fails without a processor or payload, waits above the persisted bound, and else depends on the call |
| `IndexerService.IndexerService.RunPostCommitStepWithBoundedRetry` | service/src/indexer/service.ts:1228-1290 | up to three attempts, then the step is saved and one attempt recorded |
| `IndexerService.IndexerService.SaveCursorAdvancingFrom` | service/src/indexer/service.ts:739-784 | the cursor advances only from the expected block; otherwise memory follows the durable cursor |
| `IndexerService.IndexerService.AppendTransaction` | service/src/indexer/service.ts:554-629 | rows left by a crash are swept, the read is appended, both snapshots rebuilt, or nothing changes |
| `IndexerAncestor.AncestorFoundExactly` | service/src/indexer/service.ts:874-945 | an ancestor is found if and only if some stored hashed block below is canonical, and each failure means what it says |
| `IndexerAncestor.AncestorSearchIsExact` | service/src/indexer/service.ts:882-927 | the ancestor is the greatest stored block below whose hash is canonical, window or not |
| `IndexerInvariant.CheckKeepsInv` | service/src/indexer/service.ts:813-945 | a passed check leaves the rows below the block to continue from on the current chain, a failed one leaves the state unchanged |
| `IndexerInvariant.AppendingKeepsInv` | service/src/indexer/service.ts:543-647 | an append leaves exactly the rows below its start and the canonical events of its range |
| `IndexerCoverage.CheckCoversExactly` | service/src/indexer/service.ts:813-945 | the table covers the chain below the block to continue from, if and only if no reorg met an empty table with events below |
| `IndexerCoverage.BlindRoundLosesEvents` | service/src/indexer/service.ts:932-945 | a completed round after such a reorg lacks every event it left behind |
| `IndexerWitness.BlindReorgIsReachable` | service/src/indexer/service.ts:932-945 | a first round on an empty genesis block reaches the loss: the block is replaced by one with a log, and the check passes |
| `IndexerCoverage.IncrementalEqualsReplay` | service/src/indexer/service.ts:479-648 | after a completed main round the rows are the canonical events of [deploymentBlock, nextBlock - 1] and both snapshots are their from-scratch replay |
| `IndexerCoverage.RebuildIsReplay` | service/src/indexer/service.ts:300-386 | after a committed rebuild the same holds, so that a round and a rebuild save the same snapshots |
| `IndexerCoverage.EveryRunKeepsInv` | service/src/indexer/service.ts:222-1027 | in every state reachable by rounds, rollbacks, rebuilds and crashes between sub-steps the durable invariant holds |
| `IndexerCoverage.EveryRunIsCovered` | service/src/indexer/service.ts:222-1027 | in every such state the rows below the cursor are exactly the events of the chain the cursor's hash commits to, unless a reorg met an empty table since the last committed rebuild |
| `IndexerCoverage.RestoredIsComplete` | service/src/indexer/service.ts:300-386 | a committed rebuild, crashed after its commit or not, makes the table complete whatever it had lost |
| `IndexerDelivery.RefreshKeepsQueueInTable` | service/src/indexer/service.ts:499-667 | a round keeps every queued event a row below the cursor |
| `IndexerCrashes.CrashExactly` | service/src/indexer/service.ts:499-667 | so does a crash in a round if and only if it cut no rollback short of a row to trim, left no batch of an append queued ahead of the cursor, and none of a first rebuild without its commit |
| `IndexerCrashes.NoGhostDelivery` | service/src/indexer/service.ts:1387-1411 | after any run of rounds and such crashes every event a sweep hands over is on the current chain and at or below the persisted bound |
| `IndexerGhosts.GhostFreeExactly` | service/src/indexer/service.ts:1387-1411 | after any run at all a sweep hands over nothing that left the chain if and only if the batches within the bound carry canonical hashes only, and never anything above the bound |
| `IndexerGhostFree.NeverAGhostExactly` | service/src/indexer/service.ts:813-945 | on the state alone: no next chain makes a sweep hand over an event that left it if and only if the batches within the bound, and those a rollback to a stored block would leave, hold events of the cursor's own chain only, and there are none within the bound when nothing guards the sweep |
| `IndexerGhostFree.TableIsTrustworthy` | service/src/indexer/service.ts:1387-1411 | a queue whose events are all rows below the cursor meets that condition |
| `IndexerWitness.GhostAfterCrash` | service/src/indexer/service.ts:1228-1290 | from an empty store: a crash between queueing a batch and advancing the cursor, then a reorg of its block, and the next round hands the old batch over |
| `IndexerAtLeastOnce.AtLeastOnce` | service/src/indexer/service.ts:632-647 | in every reachable state, crashes included, each event below the cursor was taken by a call that returned, is queued, or was given up after its budget, as long as no rebuild aborts with a step that is all that accounts for one |
| `IndexerAtLeastOnce.AtLeastOnceExactly` | service/src/indexer/service.ts:222-667 | the condition is exact: a run never forgets an event if and only if no operation of it is such an abort |
| `IndexerAtLeastOnce.RebuildForgetsExactly` | service/src/indexer/service.ts:300-425 | a rebuild forgets a row below the cursor if and only if it aborts and the step it withdraws was queued and is the only queued step with the key of a row neither taken nor given up |
| `IndexerAtLeastOnce.AbortLosesExactly` | service/src/indexer/service.ts:420-425 | an aborted rebuild changes the queue if and only if its step was queued already, and then that row is lost |
| `IndexerWitness.AbortForgetsEvent` | service/src/indexer/service.ts:420-425 | from an empty store, with one projection: two logs are indexed and the second's batch waits; a rebuild on a chain without the first aborts and withdraws that batch; nothing accounts for the second event any more, and when the old chain comes back the check finds nothing to do |
| `IndexerCalls.StepHandles` | service/src/indexer/service.ts:1228-1421 | the keys a round, rebuild or crash adds to the handled ones are exactly those of the batches of its processor calls that return |
| `IndexerCalls.CallsAreFinal` | service/src/notifications/service.ts:1427-1434 | every event of such a call lies at or below the finality bound that the processor reads from the store |
| `IndexerRecords.HandledIsRecorded` | service/src/notifications/service.ts:383-570 | over every run with a delivery ledger beside it, what a call took has a record for each of its receivers, whatever else happens to the ledger |
| `IndexerRecords.RecordedAtLeastOnce` | service/src/indexer/service.ts:632-647 | in every reachable state each event below the cursor has a record for each of its receivers, or is queued, or was given up after its budget, unless a rebuild aborted as above |
| `IndexerAgreement.RollbackAgrees` | service/src/indexer/service.ts:949-1027 | a rollback is all or nothing: either rows, queue, deliveries, snapshots, cursor and both bounds agree on the ancestor, or nothing durable changed |
| `IndexerAgreement.LostRaceChangesNothing` | service/src/indexer/service.ts:992-1008 | if the cursor has moved, nothing is deleted and the round continues from the durable cursor |
| `IndexerAgreement.RollbackDeletesNonCanonical` | service/src/indexer/service.ts:893-1027 | below the cursor a rollback keeps exactly the canonical rows |
| `IndexerAgreement.DeepReorgFails` | service/src/indexer/service.ts:922-937 | if rows exist but none below the cursor is canonical, the round fails with everything unchanged |
| `IndexerAgreement.CursorWithinFinality` | service/src/indexer/service.ts:636-647 | every reachable cursor satisfies nextBlock <= max(deploymentBlock, finalizedBlock + 1) |
| `IndexerAgreement.SingleWriterNeverLoses` | service/src/indexer/service.ts:739-784 | a process that writes alone never meets a failed compare-and-set |
| `IndexerAgreement.RoundsMoveForward` | service/src/indexer/service.ts:513-541 | without a rollback neither cursor nor bound moves back, on a lagging node either, and a main round moves the cursor to just above what it read |
| `IndexerAgreement.LoweredBoundStays` | service/src/indexer/service.ts:510-523 | after a rollback to a the bound is the greater of a and this round's own reading |
| `ReplayGuard.WebhookReplayGuard.Observe` | service/src/notifications/webhook-dispatcher.ts:121-134 | a nonce seen within the window is refused, any other is recorded as the newest entry within capacity |
| `ReplayGuard.WebhookReplayGuard.Receive` | service/src/notifications/webhook-dispatcher.ts:78-103 | verification of the window and the MAC comes before the guard |
| `ReplayGuard.CapacityHolds` | service/src/notifications/webhook-dispatcher.ts:114-137 | the cache stays a map within its capacity over every run |
| `ReplayGuard.SingleUse` | service/src/notifications/webhook-dispatcher.ts:114-137 | an accepted (nonce, timestamp) pair is not accepted again while fewer than the capacity of other nonces were accepted, even if the nonce came back with another timestamp |
| `ReplayGuard.OthersEvict` | service/src/notifications/webhook-dispatcher.ts:127-133 | the bound is tight for every capacity of at least one: as many other nonces as the cache holds let the pair in again |
| `GovernanceLedger.IterateOpenGovernanceLogs` | service/src/reconcile/worker.ts:826-851 | with a page size of at least one the scan hands out, once each, as they were and in key order, exactly the logs open at its start, while those handed out are rewritten and new ones appended; whatever else it hands out was appended |
| `GovernanceLedger.InMemoryGovernanceStore.UpdateTxLog` | service/src/governance/store.ts:102-107 | replaces the first log that matches on either id |
| `GovernanceLedger.PageIsStart` | service/src/governance/store.ts:79-91 | a page is strictly ordered, holds open logs behind the cursor only, at most the limit, any it omits comes after all it holds, and a shorter one omits none |
| `GovernanceLedger.ScannedOn` | service/src/governance/store.ts:79-91 | after each page what was open at the start has been handed out, or lies untouched behind the cursor |
| `GovernanceReconcile.WorkerIsWellBehaved` | service/src/reconcile/worker.ts:470-486 | writing the worker's check of the log handed out last is a rewriting the scan allows |
| `Governance.GovernanceService.ReviewSubject` | service/src/governance/service.ts:297-369 | a review is saved or refused with the error of the first failing condition |
| `Governance.GovernanceService.FindLatestReview` | service/src/governance/store.ts:68-73 | returns a review of the subject that no other was updated after |
| `Governance.GovernanceService.RegisterIdentity` | service/src/governance/service.ts:140-205 | a request is broadcast only if made from a stored review of the subject in an approving status, and only without a reusable log |
| `Governance.GovernanceService.RevokeIdentity` | service/src/governance/service.ts:207-250 | the saga of marking, broadcasting and putting back ends in the state its outcome calls for |
| `Governance.RevokedForGood` | service/src/governance/service.ts:371-393 | once a review is revoked at the end of a call no sequence of calls brings it back |
| `Governance.RevocationCompensates` | service/src/governance/service.ts:238-244 | a revocation leaves the reviews as they were exactly when its broadcast failed or nothing was left to revoke |
| `Governance.OneSuccessfulBroadcast` | service/src/governance/service.ts:539-564 | over any sequence of calls a request has at most one log with a successful broadcast |
| `Governance.DuplicateIsStored` | service/src/governance/service.ts:539-552 | a duplicate is found exactly when a stored log answers the request |
| `GovernanceReconcile.StepKeepsOneExactly` | service/src/reconcile/worker.ts:470-486 | a step of service or worker makes a second successful log exactly when a check brings one back while another log answers the same request |
| `GovernanceReconcile.OneSuccessExactly` | service/src/reconcile/worker.ts:470-486 | over every run of service and worker a request never has two successful logs if and only if no step does that |
| `GovernanceReconcile.ChecksNeverDoubleExactly` | service/src/reconcile/worker.ts:470-486 | no checks of a ledger ever make two successful logs of a request if and only if at most one of its logs answers it, may still be in broadcast, or failed with a transaction |
| `GovernanceReconcile.GuardedRunsKeepOne` | service/src/governance/service.ts:539-564 | if the service never broadcasts a request beside such a log, no run of service and worker makes two successful ones |
| `GovernanceReconcile.HealedLogDoubles` | service/src/reconcile/worker.ts:470-486 | it happens: from an empty ledger a log is submitted, fails by timeout, is broadcast again and is then confirmed by its binding |
| `Reconcile.ConfirmsExactly` | service/src/reconcile/worker.ts:529-639 | a check confirms a record exactly when its signal and transaction are projected, before the receipt or after a successful one |
| `Reconcile.DeadLettersExactly` | service/src/reconcile/worker.ts:1033-1055 | deadLetter, retryState dead_letter and a reverted receipt coincide |
| `Reconcile.FailedHeals` | service/src/reconcile/worker.ts:756-764 | a failed record with a transaction is confirmed as soon as its signal is projected |
| `Reconcile.ConfirmedForGood` | service/src/reconcile/worker.ts:756-764 | a confirmed record is never changed again |
| `Reconcile.ConfirmedOnlyByFact` | service/src/reconcile/worker.ts:876-898 | over any sequence of checks a record becomes confirmed only if some projection matched it on all identity fields and its transaction |
| `Reconcile.ChecksKeepIdentity` | service/src/reconcile/worker.ts:1002-1031 | checks keep the record's identity and the length and order of its attempts, changing only attempts of its own transaction |
| `Reconcile.ChecksAgree` | service/src/reconcile/worker.ts:437-468 | status, retryability, dead letter and retry state stay consistent over any sequence of checks |
| `Reconcile.GovernanceCheckIsSound` | service/src/reconcile/worker.ts:470-486 | a governance log is confirmed only by a binding of its own transaction, and its ids, creation time and request stay |
| `Reconcile.ReconcileWorker.RunOnce` | service/src/reconcile/worker.ts:158-180 | a second call while one is under way changes nothing and returns an empty summary |
| `Reconcile.ReconcileWorker.RunReconcilePass` | service/src/reconcile/worker.ts:222-252 | a pass checks every eligible record once and counts checked, updated, and failed or broken records |
| `Reconcile.PassesConfirmOnlyByFact` | service/src/reconcile/worker.ts:222-252 | over any sequence of passes a record becomes confirmed only if in some pass the projection showed its signal with its transaction |
| `DockKeeper.DockAutomationWorker.RunOnce` | service/src/dock-automation/service.ts:137-278 | a run is refused, stopped by the first malformed route, or walks the candidates in order up to the cap |
| `DockKeeper.DockAutomationWorker.ProcessRoutes` | service/src/dock-automation/service.ts:180-270 | the nested loops with their early exits walk the same candidates |
| `DockKeeper.DockAutomationWorker.ProcessCandidate` | service/src/dock-automation/service.ts:285-313 | a key inside its window is counted as a duplicate, any other is attempted and occupies its window |
| `DockKeeper.RunConserves` | service/src/dock-automation/service.ts:165-278 | open + input + output candidates = submitted + deduplicated + skipped, and submitted never exceeds the cap |
| `DockKeeper.AttemptsAreSpaced` | service/src/dock-automation/service.ts:285-313 | over all runs attempts of one key are a window apart, whatever the clock does |
| `DockKeeper.AttemptRate` | service/src/dock-automation/service.ts:285-313 | attempts of one key whose times span L number at most L / window + 1 |
| `DockKeeper.OrderForIsUnique` | service/src/dock-automation/service.ts:315-334 | an order is found exactly if one and only one projected order fits |
| `DockKeeper.InputsAreDue` | service/src/dock-automation/service.ts:217-245 | an input is sent only for a binding behind the entrance, undelivered and with a ready hook |
| `StorageJson.PrintedIntParses` | service/src/storage/json.ts:4-18 | every integer survives decimal printing and parsing |
| `StorageJson.RoundTripExactly` | service/src/storage/json.ts:4-28 | a tree comes back unchanged if and only if no object in it maps the reserved name to a string |
| `StorageJson.EncodeIsInjective` | service/src/storage/json.ts:4-11 | on that domain no two values are stored alike |
| `StorageJson.ReservedCollides` | service/src/storage/json.ts:21-28 | outside it an object and an integer are stored alike |
| `StorageJson.EncodedIsPlain` | service/src/storage/json.ts:4-11 | what is stored contains no big integer |

## Left out

- Reorgs in the middle of a round, several indexer processes over a whole run, sweeps started by an administrator, and interleavings at await points.
- The order projections themselves: a fold that may fail, represented by its input list.
- Marking the sync state degraded after a failed background refresh; the mark a failed rebuild writes is modelled. Of the sync state only the finality bound is kept.
- Storage exceptions in the middle of a round other than a crash; retries of the trim and of the invalidation.
- Records that the processor writes during a round: the indexer model itself changes the ledger only by invalidation; `IndexerRecords` runs a ledger beside it in which anything else may happen too.
- Transport choice, receiver resolution, payloads and wording of notifications: a routing function gives the intents of an event.
- Signatures and MACs: whether a MAC is right is part of a webhook request; the shape checks of the headers other than the timestamp range are not modelled.
- Descriptor snapshots, audit records, query filters and trimming of tags and texts in governance.
- The registration lane and the evidence sweep of the reconciliation worker; error texts; the page order of its submission scan, which is the governance scan's with other ids.
- Reconcile.ReconcileWorker.RunReconcilePass: visits the records in any order, because each is checked on its own.
- Deliveries.NotificationLedger.InvalidateDeliveriesAboveBlock: visits the records in any order, because each is marked on its own.
- Locale comparison is modelled on hex strings only: letters first, case as a tie-breaker. Array sorting is modelled as a stable insertion sort.
- The text layer of JSON, and number formatting other than that of big integers.
- Calldata encoding, gas limits and the messages of skipped dock submissions, which are counted.
- Postgres stores, HTTP, configuration, logging, scheduling of rounds and timers.

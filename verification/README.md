# Mail flow: a verified model

This project models the part of the mail gateway that has to survive faults, and proves what it promises
whatever its environment does: a mail taken from a source is processed once in effect, delivered to every
required target, and only then acknowledged or deleted, although any call may fail, any call may take effect
and still report an error, and the process may die between any two calls.

`dafny verify dfyconfig.toml` checks everything.

## What is modelled

**The transaction** (`Mailflow`, `Transaction`, `TransactionInvariant`, `TransactionEffects`,
`TransactionBacking`, `TransactionRules`, `Recovery`, `Coordinator`, `CoordinatorLives`). `Tx` is the coordinator
standing just before one of its external calls: load, process, save, consume, delete, acknowledge, finalize. `Step` makes the call. The
environment answers `Fine`, `Failed(landed)` or `Killed(landed)`; `landed` tells whether the effect of the call
stayed behind, which for a save is the state file that was renamed into place before its directory could be
synced. A `Life` is any sequence of runs of one key, answered and cut anywhere; its log holds every effect on
the outside world and `cuts` the number of runs that did not end well. The class `Coordinator` is the source's
own method with its loop and its early exits, over a mutable store of all transactions; `Run` is proved to take
exactly the course of the machine. `TransactionRules` states what the machine does in the terms of mails, receipts
and stores, without its own vocabulary. `RunExtendsLife` shows that such a run extends a life of its key, and
`RunAll` that any number of calls, on any mix of mails, makes a life of every key; what is proved of lives, like
the bounds restated in `CallsAreBounded`, holds of the calls.

**The two sources composed with it.** `PushSpool` has the spool's methods over its directories (`pending`,
`processing`, `seen`); `PushSystem` puts uploads, the worker, the requeue, the clean-up, the clock and
restarts into one machine whose steps are single file operations: an upload reads the marker, looks into one
directory and then into the other, and commits, in four steps. `PushTheorems`, `PushWitness` and `PushDrain`
state what follows. `PollingProducer` has the durable batch cursor; `PollSystem`, `PollTheorems`, `PollOrder`,
`PollRounds`, `PollFresh`, `PollWitness`, `RunnerOnce` and `SourceCycle` do the same for polling, up to the
runner that joins producer and coordinator and the drain loop with its error exits.

**IMAP.** `ImapDelta` is the incremental read against a server that changes between any two commands and may
fail any of them; `ImapPolling` composes it with the cursor's text form and the polling source, from the UIDs
in the folder to the receipts in the store; `ImapPages` compares the server's sorting with the fetch-all
fallback; `ImapWrite` is the look-before-append write, and `ImapDelivery` composes it with the transaction;
`DeltaLink` is the cursor's text form.

**Streaming algorithms against their whole-input forms.** `CrlfWriter` and `FoldSearch`.

## Where the code does not keep its promise

Each of these is stated exactly, with a concrete run where one is needed.

- The early return for missing receipts (`internal/mailflow/coordinator.go:137-139`) is never taken:
  `GoodRunsComplete`.
- A polled message whose transaction was already acknowledged is completed again but never leaves the head of
  the pending list, so list and cursor stand still for good: `BlockedForEver`, and `RoundAdvances` is an
  if-and-only-if. `RepeatedIdBlocks` leads there from the first start; a folder that gets a new UIDVALIDITY
  lists all its messages again. Every fault-free round then reports a processed mail, so that the drain cycle
  does not end by itself: `BlockedCycleNeverEnds`. Within one epoch it cannot happen: `NothingBlocksInOneEpoch`.
- A message can become both pending and claimed. Neither the requeue nor the claim frees it again
  (`WedgedForEver`). It happens exactly when an upload commits a message that was claimed since its looks
  (`WhenExclusivityBreaks`): with two racing uploads (`RacingUploadsWedge`), and with strictly serialised ones
  too, when the requeue moves the message back between the two looks (`SerialisedUploadsCanWedge`). It does not
  happen with serialised uploads and no such requeue (`SerialUploadsStayExclusive`).
- A replay marker can be lost inside its window. It happens exactly when a clean-up that read an older marker
  of the same message is past its looks and removes the file (`WhenAStampIsLost`); `FreshStampIsLost` is such a
  run. Without a clean-up of that message under way the window holds (`DedupeWindow`), and in either case
  `ReplaysAreInert`.
- A retried IMAP write is safe exactly for marked mails that the reconciliation can look up. If the source
  reported no Message-ID and the bytes come through an opener, or the mail does not carry the mark, every
  retry after a lost answer appends one more copy: `WhenRetriesAreSafe`, `TwoLostAnswers`.
- The server's SORT path and the fallback differ, and pages of the SORT path do not join up, exactly when two
  messages arrived at the same time: `PathsAgree`, `ServerPagesJoinUp`.
- A recorded acknowledgement can lack the receipts or the skip that should stand behind it
  (`AcknowledgedBeforeDelivery`). A call takes that backing away exactly when it saves a first plan over an
  acknowledged record (`WhenACallUnbacks`); a run does so exactly when its record is acknowledged, without a
  plan and not completed, and the processor's plan is saved (`WhenARunUnbacks`). `AcknowledgedIsAccounted`
  states what holds in every case.

## Hypotheses

- One worker per source, as the run lock intends. Uploads and clean-ups may race with it and with each other.
- Removing a spool directory and writing a replay marker are one step each. A process that dies in the middle of
  the removal leaves a claimed directory without its metadata; after the requeue every claim then fails
  (`internal/mailflow/adapters/push_spool.go:154-157`). That state is outside this model.
- The clock of a push source does not go back. `Enqueue` is specified for any readings; the replay window is a
  statement about a clock that only moves on, because stamps are wall-clock times.
- Digests of distinct trimmed ids are distinct, so a spool name stands for its id; JSON is lossless, and a nil
  list equals an empty one. Different messages of one source have different transaction keys.
- `Save` replaces one entry atomically; an error after the rename is the outcome `Failed(true)`.
- Within one UIDVALIDITY epoch UIDs are given out in ascending order and never reused (section 2.3.1.1 of
  RFC 3501). A UID SEARCH lists what is above the cursor, in ascending order; a FETCH lists each UID asked for
  that exists, once. UIDs and UIDVALIDITY fit into 64 bits.
- A folder does not change during one page request. `skip` and `limit` are not negative.
- A search for a Message-ID is an exact match. Nobody else adds or removes copies of the mail in question in the
  target folder; other mail may come and go.
- Case folding is on ASCII letters.
- Draining to the end needs messages with distinct ids whose transactions are not acknowledged yet (`FitFor`).
  For an IMAP folder within one epoch this is proved (`NothingBlocksInOneEpoch`).

## Model

| member | source | states |
|---|---|---|
| Mailflow.Plan.Validate | internal/mailflow/types.go:185-208 | one pass over the targets decides validity: some target, every consumer named, keys pairwise distinct, some target required |
| Mailflow.ValidMeans | internal/mailflow/types.go:165-208 | a plan is valid if and only if it has targets, one of them required, each with a non-blank consumer, and no two with one key |
| Text.TrimSpaceMeans | internal/mailflow/types.go:66-73 | trimming takes exactly the spaces at both ends |
| Text.EqualFoldMeans | internal/mailflow/types.go:70-73 | two strings are equal under folding if and only if they have the same ASCII letters, in any case, and otherwise the same characters |
| Mailflow.NamedTargetsCollide | internal/mailflow/types.go:153-163 | two named targets share a key if and only if their trimmed names agree |
| Mailflow.UnnamedTargetsCollide | internal/mailflow/types.go:153-163 | two unnamed targets, of consumers without a colon, share a key if and only if consumer and artifact agree, where no artifact means the primary one |
| TransactionRules.WhatADeliveryRecords | internal/mailflow/coordinator.go:105-130 | one receipt under the key of the target: the consumer's own, a blank target filled with the key, a blank consumer with the target's; a backup leaves its trimmed id as the path in the trace; nothing else changes |
| TransactionRules.WhereTheTraceComesFrom | internal/mailflow/coordinator.go:55-82 | a first plan brings the trace the processor answered with it, a skip the processor's or, if that names no transaction, the envelope's; no other call touches it but for the backup path |
| TransactionRules.WhenAFirstPlanIsTaken | internal/mailflow/coordinator.go:69-94 | a first plan is taken if and only if it comes with a MIME body and the key of the transaction, and is well formed |
| TransactionRules.WhenARunIsRefused | internal/mailflow/types.go:118-123 | a run starts if and only if its mail has a MIME body and a key |
| TransactionRules.WhenDeliveriesStart | internal/mailflow/coordinator.go:92-108 | after the save of a first plan the run goes on if and only if the source can be deleted as the plan wants and the first target has a consumer |
| TransactionRules.WhatAFailedDeliveryDoes | internal/mailflow/coordinator.go:110-115 | no receipt; a required one ends the run with an error, an optional one does so only if the next target to be served has no consumer |
| TransactionRules.WhatAnErrorDoes | internal/mailflow/coordinator.go:20-164 | any other error ends the run, and leaves the record as it was or, if a save took effect, as it was to be saved |
| TransactionRules.NoDeliveryWithoutDeletability | internal/mailflow/coordinator.go:92-94 | no consumer is called for a mail whose plan wants a deletion its source cannot do for good |
| TransactionRules.DeletionHonoursPolicy | internal/mailflow/coordinator.go:206-232 | when a deletion reaches the source, the policy is enabled and the stored record has a receipt whose trimmed consumer is on the list, if there is one, and which lies, if the plan asks for it, in the account and driver of the source store |
| TransactionRules.WhenTheSourceIsDeleted | internal/mailflow/coordinator.go:137-157 | a good fault-free run deletes the source if and only if no deletion is on record, the mail was not skipped and the final record has such a receipt; the source store is the one the processor named |
| TransactionInvariant.StepKeeps | internal/mailflow/coordinator.go:20-164 | every answered call, whatever the answer, keeps the invariant of the program point and only extends the persisted record |
| TransactionInvariant.NextTargetKeeps | internal/mailflow/coordinator.go:96-134 | the loop over targets skips only targets with a receipt and reaches its end only with every required receipt present |
| TransactionInvariant.BeginKeeps | internal/mailflow/coordinator.go:20-44 | a new run on whatever an earlier one left starts from a sound record |
| TransactionInvariant.LifeKeeps | internal/mailflow/coordinator.go:79-159 | in every reachable state the persisted record has receipts only for keys of its plan, a valid plan if any, deletion only with all required receipts, and completion only when acknowledged and skipped or fully delivered |
| TransactionInvariant.LifeExtends | internal/mailflow/coordinator.go:79-159 | over any stretch of runs a fixed plan never changes, a stored receipt stays as it is, and deleted, acknowledged and completed never revert |
| TransactionEffects.StepRecords | internal/mailflow/coordinator.go:96-157 | short of a cut, every durable effect is on the working record |
| TransactionEffects.EffectsBounded | internal/mailflow/coordinator.go:96-163 | over any runs of one key, deliveries, deletions and acknowledgements together number at most targets + 2 + cut runs |
| TransactionEffects.EachEffectOnce | internal/mailflow/coordinator.go:96-163 | each target is reached, the source deleted and the source acknowledged at most once, plus once per cut run |
| TransactionEffects.DeletionIsWriteAhead | internal/mailflow/coordinator.go:141-157 | a deletion reaches the source only when the store already has every required receipt and one that satisfies the policy, no deletion is on record, and the source deletes for good |
| TransactionEffects.NothingReadsADeletedMail | internal/mailflow/coordinator.go:52-157 | once a run stands before the deletion, no later run, however cut, processes or delivers the mail |
| TransactionEffects.CompletedIsFinal | internal/mailflow/coordinator.go:45-50 | after completion no run changes the store or causes any delivery, deletion or acknowledgement |
| TransactionEffects.GoodRunsComplete | internal/mailflow/coordinator.go:137-163 | a run without an error leaves the transaction completed; the early return for missing receipts is dead |
| TransactionEffects.AcknowledgedIsAccounted | internal/mailflow/coordinator.go:52-163 | whenever a source is being or has been acknowledged, all required receipts are in the store or the processor has skipped the mail |
| TransactionBacking.WhenACallUnbacks | internal/mailflow/coordinator.go:52-90 | a call leaves an acknowledged record without receipts or skip if and only if it saves a first plan over it |
| TransactionBacking.WhenARunUnbacks | internal/mailflow/coordinator.go:31-163 | a run on a backed record loses the backing at some moment if and only if the record is acknowledged, without a plan and not completed, the processor produces a plan, and its save lands; a run that ends well ends backed |
| TransactionBacking.MarkStep | internal/mailflow/coordinator.go:55-90 | a run touches the skip mark only on its way to a plan or to an acknowledgement |
| TransactionBacking.AtFirstPlan | internal/mailflow/coordinator.go:52-90 | a run stands before the save of a first plan exactly after a good load of a record without one and a fitting output of the processor |
| TransactionBacking.AcknowledgedBeforeDelivery | internal/mailflow/coordinator.go:55-90 | a concrete life in which a cut skip is followed by a processed run, so that the record is acknowledged while required receipts are missing |
| TransactionEffects.AckStep | internal/mailflow/coordinator.go:234-255 | one call keeps that, and a mail once accounted for stays so |
| Recovery.Progress | internal/mailflow/coordinator.go:20-164 | every answered call brings a run closer to its end, whatever the answer: runs terminate |
| Recovery.RecoveryConverges | internal/mailflow/coordinator.go:20-164 | from every reachable store, a fault-free run ends well if and only if its caller is ready; it then leaves the transaction completed, having called exactly the consumers without a receipt, in plan order, and deleted the source if and only if no deletion is on record, the final record satisfies the policy and the mail was not skipped |
| Recovery.DriveTargets | internal/mailflow/coordinator.go:96-134 | from target i on, a fault-free run ends well if and only if every missing target has its consumer configured, and delivers exactly the missing ones |
| Recovery.DriveSkipping | internal/mailflow/coordinator.go:55-66 | a fault-free run whose processor skips ends well, with no delivery |
| Recovery.CalmRunAcks | internal/mailflow/coordinator.go:234-255 | a fault-free run acknowledges its source if and only if no earlier run has recorded that it did |
| CoordinatorRun.Coordinator.Save | internal/mailflow/file_store.go:43-62 | a save replaces the entry of its own key and nothing else, or nothing at all; success and effect are independent outcomes when it fails |
| CoordinatorRun.Coordinator.Deliver | internal/mailflow/coordinator.go:96-134 | the loop over targets follows the machine: same calls, same order, same stops |
| CoordinatorRun.Coordinator.ProcessStep | internal/mailflow/coordinator.go:52-94 | processing, validation, plan check and plan save follow the machine |
| CoordinatorRun.Coordinator.Close | internal/mailflow/coordinator.go:137-163 | the closing part, with the deletion, follows the machine |
| CoordinatorRun.Coordinator.AckAndComplete | internal/mailflow/coordinator.go:234-255 | acknowledgement, both saves and the clean-up follow the machine |
| CoordinatorRun.Coordinator.Finalize | internal/mailflow/coordinator.go:257-269 | the source is finalized if and only if it can be |
| CoordinatorRun.Coordinator.RunLoaded | internal/mailflow/coordinator.go:31-163 | the body of a run follows the machine from its entry to its end |
| CoordinatorRun.Coordinator.Run | internal/mailflow/coordinator.go:20-164 | a run takes the course of the machine, leaves all other transactions alone, keeps every stored state sound and, without an error, ends with the returned, completed state in the store |
| CoordinatorLives.RunExtendsLife | internal/mailflow/coordinator.go:20-164 | from a store that holds what a life has saved, a run of the coordinator extends that life: same record, same point, same effects, one cut if and only if it ends badly |
| CoordinatorLives.CallsAreBounded | internal/mailflow/coordinator.go:20-164 | over any calls of `Run`, each target, the deletion and the acknowledgement of one transaction happen at most once plus once per failed call, and all together at most targets + 2 + failed calls |
| CoordinatorLives.RunAll | internal/mailflow/coordinator.go:20-164 | any number of calls on one coordinator, for any mix of mails and answers, makes store and effects those of a life of every key |
| PushSpool.SpoolDirs.CleanupSeen | internal/mailflow/adapters/push_spool.go:292-327 | exactly the markers past the retention whose message is not queued are removed; without a retention none |
| PushSpool.SpoolDirs.Enqueue | internal/mailflow/adapters/push_spool.go:64-134 | a well-formed upload is a duplicate if and only if queued, or inside the replay window and not already removed by the clean-up just before (which only a clock that steps back can bring about); accepted ones join the queue once; rejected ones leave it alone |
| PushSpool.SpoolDirs.ClaimNext | internal/mailflow/adapters/push_spool.go:136-192 | claims, among the pending messages not already claimed, the one that arrived first, ties by name; without overlap, finds none only when nothing is pending |
| PushSpool.SpoolDirs.PrepareAck | internal/mailflow/adapters/push_spool.go:194-223 | stamps a claimed message once; a second acknowledgement keeps the first stamp |
| PushSpool.SpoolDirs.FinalizeAck | internal/mailflow/adapters/push_spool.go:225-246 | removes the claimed message and nothing else |
| PushSpool.SpoolDirs.RequeueProcessing | internal/mailflow/adapters/push_spool.go:248-271 | puts back every claimed message whose name is free; without overlap that empties the claimed ones |
| PushSystem.WorkKeeps | internal/mailflow/adapters/push_producer.go:87-103 | a source call of the worker takes a message out of the spool only when its transaction is completed on disk |
| PushSystem.ClaimKeeps | internal/mailflow/adapters/push_producer.go:26-72 | claiming a message and starting on its transaction loses nothing |
| PushSystem.NextKeeps | internal/mailflow/adapters/push_spool.go:64-271 | every single step of uploads, clean-up, requeue, worker and restart keeps the composed invariant |
| PushSystem.NothingIsLost | internal/mailflow/adapters/push_spool.go:64-271 | in every reachable state, with racing uploads, crashes and restarts, an accepted message is queued or its transaction is completed in the store |
| PushTheorems.PushEffectsBounded | internal/mailflow/adapters/push_producer.go:26-103 | in every reachable state each target of a message was reached at most once, plus once per cut run of its transaction, and all effects together are bounded |
| PushTheorems.ReplaysAreInert | internal/mailflow/coordinator.go:45-50 | once a message's transaction is completed, no upload, claim or run of it, in or after the replay window, causes a further effect or changes the record |
| PushTheorems.DedupeWindow | internal/mailflow/adapters/push_spool.go:292-345 | while no clean-up of that message's marker is under way, under any mix of steps, the first stamp stays and every upload is refused at its marker for as long as the window lasts, for ever without a retention |
| PushTheorems.WhenAStampIsLost | internal/mailflow/adapters/push_spool.go:305-325 | a move loses a stamp if and only if it is the last step of a clean-up of that message's marker |
| PushTheorems.WhenUploadsAreRefused | internal/mailflow/adapters/push_spool.go:329-345 | uploads are refused at the marker if and only if there is one and less than the retention has passed since its stamp, or there is no retention |
| PushTheorems.AcknowledgingStamps | internal/mailflow/adapters/push_producer.go:87-92 | an acknowledgement that takes effect stamps the message in hand with the time, unless it bears a stamp |
| PushTheorems.MessagesKeepTheirMetadata | internal/mailflow/adapters/push_spool.go:125-192 | a queued message keeps the metadata it was accepted with, whatever is uploaded under its id |
| PushWitness.FreshStampIsLost | internal/mailflow/adapters/push_spool.go:305-325 | a concrete run from the first start in which a stamp set this instant is removed by a clean-up that read its predecessor |
| PushTheorems.SerialUploadsStayExclusive | internal/mailflow/adapters/push_spool.go:64-192 | with uploads serialised per id and no requeue of a message between the two looks of its upload, no message is ever both pending and claimed |
| PushTheorems.WhenExclusivityBreaks | internal/mailflow/adapters/push_spool.go:83-125 | whatever the move, it makes a message both pending and claimed if and only if it commits one that was claimed since the upload looked |
| PushTheorems.OneUploadWedges | internal/mailflow/adapters/push_spool.go:366-373 | the two looks of one upload miss a message that the requeue moves back in between; claimed again, the message is both pending and claimed |
| PushTheorems.SerialisedUploadsCanWedge | internal/mailflow/adapters/push_spool.go:366-373 | a concrete run from the first start, each upload begun while no other is under way, that ends there |
| PushTheorems.UploadIsEnqueue | internal/mailflow/adapters/push_spool.go:64-134 | the steps of an upload taken without interruption have the effect that `Enqueue` has |
| PushTheorems.SweepIsCleanup | internal/mailflow/adapters/push_spool.go:292-327 | the steps of the clean-up of a marker taken without interruption remove it if it is stale, and do nothing else |
| PushDrain.RoundDrains | internal/flowruntime/source_executor.go:111-134 | a fault-free round on any pending message takes it out of the spool with its transaction completed and leaves the others where they are |
| PushDrain.LastCall | internal/mailflow/coordinator.go:45-50 | a run of a push message ends well only through the removal of the message from the spool |
| PushDrain.RestartDrains | internal/flowruntime/source_executor.go:111-134 | from every reachable state without a message both pending and claimed, a restart, the requeue and fault-free rounds empty the spool and complete every message ever accepted |
| PushTheorems.WedgedForEver | internal/mailflow/adapters/push_spool.go:174-176 | a message both pending and claimed without a worker stays so, and its transaction makes no further step |
| PushTheorems.RacingUploadsWedge | internal/mailflow/adapters/push_spool.go:263-265 | a concrete run of two racing uploads, a claim and a crash that ends there |
| PollingProducer.Producer.Next | internal/mailflow/adapters/provider_polling_producer.go:42-119 | the state and the emitted message, for a pending batch, a fresh one, an empty one, the first bootstrap and every failing call |
| PollingProducer.Producer.Acknowledge | internal/mailflow/adapters/provider_polling_producer.go:167-198 | removes the first pending message of that id, moves the cursor with the last one, and is a no-op for an unknown id |
| PollingProducer.RemoveFirst | internal/mailflow/adapters/provider_polling_producer.go:167-198 | the loop with its `removed` flag removes exactly the first match |
| PollingProducer.WithoutMeans | internal/mailflow/adapters/provider_polling_producer.go:167-198 | the list loses the first message of that id and keeps all others in order |
| PollingProducer.AckedHead | internal/mailflow/adapters/provider_polling_producer.go:167-198 | acknowledging the message at the head removes exactly that one, even with duplicate ids behind it |
| PollSystem.WorkKeeps | internal/mailflow/adapters/provider_polling_producer.go:167-198 | a call of the worker keeps the books: what leaves the list is accounted for |
| PollSystem.TakeKeeps | internal/mailflow/adapters/provider_polling_producer.go:42-119 | fetching and starting on the next message keeps the books |
| PollTheorems.BatchIsAccountedFor | internal/mailflow/adapters/provider_polling_producer.go:42-198 | in every reachable state the acknowledged messages and the pending list make up the fetched batch, in order, and every acknowledged one has all required receipts in the store or was skipped |
| PollTheorems.CursorMovesPastAccountedBatches | internal/mailflow/adapters/provider_polling_producer.go:42-198 | the durable cursor after any move of any life: the position that came with the batch when its last message leaves, and then the whole batch is accounted for; the new position when an answer brings nothing or is passed over; otherwise unchanged |
| PollOrder.MessagesComeInBatchOrder | internal/mailflow/adapters/provider_polling_producer.go:42-119 | over any life, the log of messages handed out goes through the batches one after another, each from its first message to its last, repeating a message until it is acknowledged and skipping none; each entry is the message at that place of that batch |
| PollOrder.TourStep | internal/mailflow/adapters/provider_polling_producer.go:42-198 | one move keeps the log in order and in step with the list |
| PollTheorems.RoundAdvances | internal/mailflow/runner.go:17-38 | a fault-free round completes the transaction at the head and takes the message off the list if and only if no earlier run had acknowledged it |
| PollTheorems.BlockedForEver | internal/mailflow/coordinator.go:45-50 | a message at the head that was acknowledged before stays there under any fetches, answers, saves and restarts, and list and cursor never change again |
| PollWitness.RepeatedIdBlocks | internal/providers/imap/client_read.go:64-67 | a run from the first start to such a state, for every message that can be worked on: it is fetched, completed, and listed again |
| PollRounds.PlayEnds | internal/mailflow/runner.go:17-38 | under arbitrary answers a round ends; without an error its transaction is completed and its message off the list; with one the message is still at the head, unless its acknowledgement took effect; no other transaction is touched |
| PollRounds.StaysAhead | internal/mailflow/coordinator.go:52-163 | a run passes its acknowledgement only through the call that makes it |
| PollFresh.FreshMove | internal/mailflow/adapters/provider_polling_producer.go:42-198 | a source that is only given new messages keeps a list of distinct messages none of which is acknowledged |
| SourceCycle.RoundKeepsFit | internal/mailflow/runner.go:17-38 | a fault-free round takes exactly the first message off list and backlog and leaves every other transaction alone |
| SourceCycle.FoulKeeps | internal/mailflow/runner.go:17-38 | whatever fails in a round, no message but the first is touched and none is lost |
| SourceCycle.BlockedCycleNeverEnds | internal/flowruntime/source_executor.go:58-75 | with a blocked head, any number of fault-free rounds report a processed mail without an error and change neither list nor cursor |
| SourceCycle.WhenACycleIsFit | internal/flowruntime/source_executor.go:46-76 | what a cycle that ended in an error leaves is fit for a fault-free one if and only if every message left is workable |
| RunnerOnce.BusyTurn | internal/mailflow/runner.go:17-38 | a turn of the polling machine on a message is a run of the coordinator on it, with the acknowledgement that the run has made carried over to the list |
| RunnerOnce.Runner.RunOnce | internal/mailflow/runner.go:17-38 | the mutable producer and coordinator, one after the other, end where the machine's turn ends, whatever is answered |
| SourceCycle.Cycle.RunOnce | internal/mailflow/runner.go:17-38 | processes the next message if there is one, returns its stored state, and shortens list and backlog by exactly that message; only a fault makes it end in an error, and then the rest is as it was and the next round can start |
| SourceCycle.Cycle.RunCycle | internal/flowruntime/source_executor.go:46-76 | the drain loop ends, without an error only when every message is completed and taken off; also after an error the counts tell how many messages were completed before it, the skipped and deleted counts are the tallies of their stored flags, and what is left is distinct and unacknowledged, so that the next cycle can start |
| ImapDelta.FetchUntilFailure | internal/providers/imap/client_read.go:399-434 | chunked fetch, single-fetch fallback and stop at the first failure deal with exactly a prefix of the search result, in ascending order; incompleteness means a command failed; without a failure there is one command per 128 UIDs |
| ImapDelta.DeltaCreatedMessages | internal/providers/imap/client_read.go:54-100 | one poll delivers, ascending, every message between the old cursor and the new except those expunged, nothing else, and everything above the old cursor when nothing failed; a folder with a new UIDVALIDITY is read from its beginning, any other from the cursor of the link; a complete poll passes every announced UID |
| ImapDelta.PollingHasNoGap | internal/providers/imap/client_read.go:54-100 | over any polls of one epoch the cursor never falls, deliveries strictly ascend, and whatever is still in the folder at or below the cursor was delivered |
| ImapDelta.PollRepeatedly | internal/providers/imap/client_read.go:54-100 | polling again and again, failed polls included, yields such a chain of polls from the first cursor to the last |
| ImapPolling.ReadFolder | internal/providers/imap/client_read.go:54-100 | parsing the link, polling and printing the new link give the messages and the link of one gapless poll from that cursor |
| ImapPolling.LinkIsReadable | internal/providers/imap/client.go:257-282 | in every reachable state the durable link is readable and stands for the cursor |
| ImapPolling.ReadOn | internal/providers/imap/client_read.go:54-100 | reading the folder from the durable link of any reachable state gives an answer that the composed lives allow |
| ImapPolling.FolderIsAccountedFor | internal/mailflow/adapters/provider_polling_producer.go:42-198 | whatever fails and however the folder changes, a message still in the folder at or below the durable cursor has all its required receipts in the store or was skipped |
| ImapPolling.NothingBlocksInOneEpoch | internal/mailflow/adapters/provider_polling_producer.go:42-198 | within one epoch the pending messages are distinct and none was acknowledged before, so none blocks the source |
| ImapPolling.ReadKeeps | internal/mailflow/adapters/provider_polling_producer.go:52-104 | reading the folder keeps links, known ids and accounts in step |
| ImapDelta.GoneForEver | internal/providers/imap/client_read.go:54-100 | a UID that was passed and absent once is absent for good, which is why an unlisted UID may be passed over |
| ImapPages.FetchChunked | internal/providers/imap/client_read.go:378-397 | fetching in chunks of 128 lists the same messages as one fetch of all, or nothing if and only if a fetch fails |
| ImapPages.LatestMessages | internal/providers/imap/client_read.go:102-162 | the page is the sorted window of the server's order or the window of the sorted folder: newest first, ties by descending UID, of the length that skip and limit leave; no page if and only if one of its commands fails, from the connection on |
| ImapPages.SortIsCanonical | internal/providers/imap/client.go:208-217 | the order by arrival and UID depends on the messages only, not on the order in which they were fetched |
| ImapPages.PathsAgree | internal/providers/imap/client_read.go:102-162 | both paths return the same page for every skip and limit if and only if arrival times are distinct |
| ImapPages.AdjacentPages | internal/providers/imap/client_read.go:102-162 | adjacent pages of the fallback make up the larger page |
| ImapPages.FirstPageIsNewest | internal/providers/imap/client.go:208-217 | what the first page leaves out is no newer than anything on it |
| ImapPages.ServerPagesJoinUp | internal/providers/imap/client_read.go:102-162 | on the server path adjacent pages make up the larger page if and only if arrival times are distinct |
| ImapWrite.Sink.FindProcessedUid | internal/providers/imap/client_write.go:107-142 | finds a marked message with that Message-ID other than the source message; misses only if there is none; fails only if a command does |
| ImapWrite.Sink.Reconcile | internal/providers/imap/client.go:130-156 | which Message-ID is looked up, when nothing is looked up at all, and when an earlier copy ends the write |
| ImapWrite.Sink.WriteMessage | internal/providers/imap/client.go:85-128 | the folder after the write and its answer, for every outcome of every command; the folder gains this mail at its end or nothing; what an answer of success and one of failure rest on |
| ImapWrite.ScanFindsCopies | internal/providers/imap/client_write.go:107-142 | for a recognisable mail a lookup that does not fail finds a copy if and only if there is one |
| ImapWrite.WriteIsIdempotent | internal/providers/imap/client.go:85-156 | a write appends only when there is no copy, and success means there is one |
| ImapWrite.CalmWriteSucceeds | internal/providers/imap/client.go:85-128 | a write of a marked mail under a known Message-ID in which nothing fails reports success, whether a copy was there before or not |
| ImapWrite.OneCopy | internal/providers/imap/client.go:85-156 | any number of attempts, lost answers included, leave at most one copy, and exactly one once an attempt has succeeded |
| ImapWrite.WhenRetriesAreSafe | internal/providers/imap/client.go:130-135 | retries never leave two copies if and only if the reconciliation looks for the mail's own Message-ID and the mail is marked, or the mail has no Message-ID and is never written |
| ImapWrite.WhichRetriesAreSafe | internal/providers/imap/client.go:130-135 | the same condition on the request's fields: a marked mail with a Message-ID that the source reported as it is, or did not report while the bytes are in memory; or no Message-ID at all |
| ImapWrite.TwoLostAnswers | internal/providers/imap/client.go:85-156 | for every other mail, two attempts with lost answers leave two copies |
| ImapDelivery.ReceiptsComeFromDeliveries | internal/mailflow/coordinator.go:105-134 | a receipt is recorded only for the target whose consumer call succeeded |
| ImapDelivery.CompletedDeliveryHasOneCopy | internal/mailflow/coordinator.go:96-134 | a completed transaction with a required IMAP target has exactly one copy in its folder, after any runs, cuts and lost answers, with other mail coming and going and whether or not one copy was there before; at no moment are there two |
| DeltaLink.ParseInvertsBuild | internal/providers/imap/client.go:257-282 | reading a written cursor gives it back, for every pair of 64-bit values |
| DeltaLink.WhatParseAccepts | internal/providers/imap/client.go:257-278 | exactly the blank link and links of two 64-bit numerals are read, each as the cursor it spells; all else is an error |
| DeltaLink.WhatBuildWrites | internal/providers/imap/client.go:280-282 | a written link is `uv=`, the UIDVALIDITY, `;uid=` and the UID, in decimal without leading zeros |
| DeltaLink.NumeralsMean | internal/providers/imap/client.go:269-276 | numerals are read digit by digit in base ten |
| DeltaLink.SplitsInTwo | internal/providers/imap/client.go:265-268 | a link of two numerals splits into exactly two parts |
| DeltaLink.BuildIsInjective | internal/providers/imap/client.go:280-282 | different cursors have different links |
| CrlfWriter.Writer.WriteByte | internal/modules/encrypt/mime_builder.go:161-193 | one byte keeps the relation between what was emitted, what is pending and the whole input so far |
| CrlfWriter.Writer.Write | internal/modules/encrypt/mime_builder.go:161-193 | a write appends to the input, is refused after closing, and then emits nothing |
| CrlfWriter.Writer.FlushPendingNewlines | internal/modules/encrypt/mime_builder.go:221-229 | emits one CRLF per pending break |
| CrlfWriter.Writer.Close | internal/modules/encrypt/mime_builder.go:195-215 | the body is the normalised input plus one CRLF per trailing break, has no bare CR or LF, and closing again changes nothing |
| CrlfWriter.Render | internal/modules/encrypt/mime_builder.go:161-239 | for every split of the input into writes the body is the same function of the whole input |
| CrlfWriter.BodyIsNormalised | internal/modules/encrypt/mime_builder.go:231-239 | the expanded text is `normalizeCRLF` of the input followed by its trailing breaks |
| CrlfWriter.NormalisedStays | internal/modules/encrypt/mime_builder.go:231-239 | normalising is idempotent |
| FoldSearch.StreamContainsFold | internal/modules/encrypt/detect.go:100-129 | for every chunking, short and empty reads and data with the end included, true if and only if the text has, at some place, the bytes of the needle up to the case of ASCII letters; an error only when the bytes read do not contain it |
| FoldSearch.ContainsFoldMeans | internal/modules/encrypt/detect.go:100-129 | what is looked for: a place where text and needle agree byte by byte, up to the case of ASCII letters |
| FoldSearch.Feed | internal/modules/encrypt/detect.go:109-121 | one read decides for the whole text so far, and the carry is its last min(n, needle - 1) bytes |
| FoldSearch.TailSuffices | internal/modules/encrypt/detect.go:100-129 | carry plus new bytes miss no occurrence across reads and invent none |
| Ordering.SortSorts | internal/providers/imap/client.go:200-217 | sorting gives a sorted rearrangement |
| Ordering.SortedUnique | internal/providers/imap/client.go:208-217 | two sorted arrangements of the same elements agree when the order tells the elements apart |

## Left out

- OAuth, keyring, the Graph HTTP client, the command line, configuration, health checks, factories: library and network calls, nothing to prove across runs.
- GPG, MIME header parsing and the header part of the PGP/MIME writer: opaque; a mail is its Message-ID, its mark and its bytes.
- Errors for a coordinator without a processor or a store, and for a nil producer or handle.
- `internal/fileutil/atomic.go` and the JSON files themselves: a save either replaces its entry or does not.
- File-system errors inside the spool other than a failed staging; unreadable markers and metadata.
- The idle wait of the push worker; the timeout of the drain cycle is an error of the call under way.
- Deleting the original of an IMAP message, and the search rule for `n:*` in section 6.4.8 of RFC 3501.
- Write errors of the part below the CRLF writer.
- The trace fields that no decision reads, and the sharing of the attribute map between copies of a state in the memory store.
- Sort: the source sorts slices in place; the order it produces is modelled on values.
- ImapPages.LatestMessages: the folder does not change between the commands of one page request.
- ImapDelta.DeltaCreatedMessages: UIDs are unbounded, so neither the wrap-around of the last 64-bit UID nor the 32-bit width of a fetch set is modelled.
- FoldSearch.StreamContainsFold: folds ASCII letters only; folding other letters can change the number of bytes.
- TransactionEffects.EffectsBounded: does not count an optional delivery that took effect but reported an error, because such a run goes on; `EachEffectOnce` counts those too.
- SourceCycle.Cycle.RunCycle: a round that meets no fault takes its answers from `Office`, one per message; the server's backlog does not grow during the cycle.

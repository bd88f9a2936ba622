# Stowplan's local-first core, modelled and proved in Dafny

Stowplan edits a workspace on the device first. Every command is applied to the
device's copy at once and queued in an outbox; batches are sent to the server,
whose replies are folded back into the copy. Replies may be late, lost, repeated
or refusals, other devices edit at the same time, access may be withdrawn and the
workspace may be deleted. When a queue cannot be backed up any more, a guided
review rebuilds it on the newest online state. Copies live in a small store with
two records per open workspace, and a live channel tells clients when to look
again. This project models those parts and proves what they promise.

`dafny verify dfyconfig.toml` checks everything.

## How the files fit together

| file | what it holds |
|---|---|
| `Prelude.dfy`, `Json.dfy`, `Domain.dfy` | values, paths, the workspace state, the command step and replay |
| `Refusals.dfy`, `AcceptedEdits.dfy`, `CommandWrites.dfy`, `ItemEdits.dfy` | what lets a command of each kind through, what it then writes, and the smallest edits for concrete runs |
| `Server.dfy`, `Retention.dfy`, `Access.dfy` | serving a batch with duplicate detection, and what forgetting old identifiers changes; comparing access states |
| `LocalReplica.dfy`, `SyncReconciliation.dfy`, `Store.dfy` | the device's copy: batch selection, scoping, reconciliation, rebase check, dispatch |
| `Protocol.dfy`, `Guarantees.dfy`, `SingleFlight.dfy`, `FirstUpload.dfy` | the whole protocol as a state machine and what holds over every run |
| `RebaseRuns.dfy`, `ReviewedRebase.dfy` | the rebase check over whole runs, and a run in which a review misleads it |
| `ConflictReview.dfy`, `NamedLeaves.dfy`, `ThreeWayMerge.dfy`, `ReviewedEdits.dfy`, `ReviewedQueue.dfy` | the recovery review, the leaves a command names, and the results of a review |
| `RecoveryBundle.dfy` | reading an exported copy back |
| `DeviceStore.dfy` | the two-record store as a class that refines a simple map |
| `LiveRelay.dfy`, `EventStream.dfy`, `LiveConnection.dfy` | the live room, the event-stream reader, the client connection |
| `WorkerPool.dfy`, `FlushCoordination.dfy` | bounded concurrency; one flush at a time per workspace |

Loops and in-place state of the program are methods and classes proved against
specification functions; the results are then lemmas about those functions.

## Modelling decisions

- The state is a revision, a map of records and a log of applied commands. The
  log stands for activities, audit entries and receipts together. Everywhere but in
  `Retention`, which lets compaction drop identifiers, it is kept for ever.
- `Domain.Apply` does not look for the command's own identifier, because
  `applyCommand` does not; the server does (`Server.Serve`). The device relies on
  the reconciliation never replaying an acknowledged command, and that is proved.
- The server step, an IndexedDB transaction, a room event and a callback of the
  client connection are one atomic step each. Requests and replies stay in the
  network for ever, so loss, delay, reordering and repetition are all runs.
- The protocol allows any number of overlapping flushes (several tabs share one
  copy). `SingleFlight` adds the guards of one tab: one flush at a time, its own
  reply and one account; a review may be saved while it is under way. A run may start
  from a fresh download or from a saved review, and saving a review is itself a step:
  requests and replies of the old queue stay under way and may still be served and
  delivered. Like the recovery page, a review is saved only if state and queue have
  not changed since the online state was read for it.
- A fresh command identifier is one nobody has used, and other devices do not
  reuse this device's identifiers (`Protocol.Enabled`). The identifier generator,
  clocks, randomness, connectivity and failures of sends are parameters.
- A command is created on the copy the user sees, which is the copy as it was at some
  earlier moment of the run. Its prior commands are the tab's own whose transactions
  have not finished by then, so that copy does not show them yet
  (`RebaseRuns.RebaseSoundInRuns`; `LocalReplica.RebaseSound` says what happens if it did).
- A path is its list of keys. The program rejects empty keys and keys with a dot.

## What was found

- A first upload sends the device's state as the initial snapshot together with
  the queue. It settles the device exactly when the queue at that moment fits into
  one request of 100 commands, whatever is queued meanwhile; otherwise the unsent rest
  is replayed over a snapshot that already contains it
  (`FirstUpload.FirstUploadSettlesIffOneRequest`, with a queue of more than 100
  renames in `FirstUpload.LongQueueDoesNotSettle`).
- Switching workspaces does not write the active record back, so an active record
  that was never mirrored is lost; it is kept exactly when it was mirrored
  (`DeviceStore.SwitchingLosesNothingIffMirrored`, `DeviceStore.UnmirroredIsLost`).
- At an equal access revision a room's deletion can be taken back, exactly by a
  notification that parses and says the workspace is not deleted
  (`LiveRelay.RevivedExactly`, `LiveRelay.DeletionIsNotSticky`).
- The rebase check counts revisions. A check that passes is right exactly when
  everything the user saw is still shown and no prior command was among it; in a
  single-flight run only a saved review takes anything away
  (`LocalReplica.RebaseSound`, `RebaseRuns.RebaseSoundInRuns`). With a review saved
  between creating a command and dispatching it, the command can be created again over
  another device's change and overwrite it (`ReviewedRebase.ReviewMisleadsTheCheck`).
- The stream reader normalizes early and late alike, and cuts the same blocks, exactly
  when the text holds no CR CR LF (`EventStream.NormalizationIsChunkIndependentIff`,
  `EventStream.ReaderIsExactIff`); with one, a text refused uncut can give two messages
  when it is cut behind it (`EventStream.ReaderDependsOnChunks`).
- A follow-up asked for by a partly acknowledged flush overwrites the permission for
  an empty sync that a joined request gave. The follow-up keeps the permission exactly
  when a request gave it after the last such overwrite
  (`FlushCoordination.Coordinator.Settle`), and losing it changes what is sent exactly
  when no entry is pending any more
  (`FlushCoordination.PermissionMattersIffNothingPending`,
  `FlushCoordination.PermissionMissed`).
- At most once lasts as long as the server retains the identifier
  (`Retention.AppliedOnceWhileRetained`, `Retention.RecognizedIffRetained`); a batch
  whose identifiers were dropped can be applied again (`Retention.ForgottenIsAppliedTwice`).

## Model

| member | source | states |
|---|---|---|
| Json.SameValueIsEquality | src/client/conflict-review.ts:62-72 | the recursive comparison, which looks only at the left value's keys and the number of keys, holds exactly for equal values |
| Domain.Replay | src/client/local-replica.ts:1604-1607 | replaying a queue adds one revision and one log entry for each command, in order, and stays in its workspace |
| Domain.CreatedExpectationsHold | src/domain/expectations.ts:61-254 | none of the expectations a command is created with fails on the state it was created on |
| Refusals.ConflictExactly | src/domain/commands.ts:2250-2279 | a command of any kind meets a conflict exactly when it is for this workspace, not ahead of it, and something it expects is no longer so; an accepted one found everything as expected |
| Refusals.AcceptedIsRecorded | src/domain/commands.ts:2285-2302 | an accepted command is logged last, with patches that lead from the old records to the new ones and, for an edit, remember what they replace |
| Refusals.StaleCommandConflicts | src/domain/expectations.ts:61-254 | no silent overwriting: a command created on the state the user saw meets a conflict on a later state exactly when a value it depends on has changed |
| Refusals.ReplayedFits | src/client/local-replica.ts:1604-1607 | every command of a queue that replays found what it expected when its turn came |
| AcceptedEdits.RenameExactly | src/domain/commands.ts:798-815 | when a rename is accepted, and the records it leaves |
| AcceptedEdits.ItemUpdateExactly | src/domain/commands.ts:1481-1539 | an item update is accepted exactly when it fits, names allowed fields of an item there is, and changes one; it writes those fields of that item |
| AcceptedEdits.LocationUpdateExactly | src/domain/commands.ts:844-868 | the same for a location, whose order may only be changed together with its place |
| AcceptedEdits.BulkUpdateExactly | src/domain/commands.ts:1410-1464 | a bulk edit is accepted as a whole or not at all: items there, named once, changed only as allowed, and something changes |
| AcceptedEdits.PatchExactly | src/domain/commands.ts:260-291 | when a patch can be applied, what is read at its place afterwards, and that everything apart from it stays |
| AcceptedEdits.PatchesInOrder | src/domain/commands.ts:289-291 | several patches are applied in order, each on what its predecessors left, or not at all |
| AcceptedEdits.PatchedExactly | src/domain/commands.ts:289-291 | a structural or history command that fits is accepted exactly when its patches can be applied in order |
| Server.Synchronize | src/server/sync-service.ts:218-351 | the loop over a batch serves each command on the state its predecessors left, duplicates acknowledged and refusals without effect |
| Server.SynchronizeAtMostOnce | src/server/sync-service.ts:218-351 | for any batch on any state the log only grows, by commands of the batch, without ever repeating an identifier it holds, and a positive receipt means the log holds the command |
| Refusals.ServedAtTurn | src/server/sync-service.ts:218-351 | every command of a batch at its turn: a duplicate is one the log holds, applied is only one whose expectations hold then, a conflict is reported exactly when one does not, a revision counted on within the batch is no reason to refuse, and whatever is not applied leaves the whole state as it was |
| Server.RepeatedBatchChangesNothing | src/server/sync-service.ts:265-300 | a batch the server already applied is acknowledged command by command and changes nothing |
| Retention.AppliedOnceWhileRetained | src/domain/history-retention.ts:232-283 | over any batches and any compactions that do not drop its identifier a command is applied at most once and stays recognized |
| Retention.RecognizedIffRetained | src/server/sync-service.ts:265-275 | a repeated command is acknowledged as a duplicate exactly while its identifier is retained |
| Retention.ForgottenIsAppliedTwice | src/server/sync-service.ts:265-300 | a concrete batch, a compaction that drops its identifiers and the same batch again: both commands are applied twice |
| Access.AccessNeverRegresses | src/domain/workspace-access.ts:324-358 | for one account and any sequence of candidates the version never goes back; at an unchanged version an ended access stays ended, the role never rises and an unchanged role gains no capability |
| Access.NewerAccessCounts | src/domain/workspace-access.ts:339-358 | of one account, the access with the newer version always replaces the older one; of one version, exactly what ends it, lowers the role or grants no more does |
| Access.OtherAccountsCount | src/domain/workspace-access.ts:328-338 | another account always takes over, an unknown one never does, and only a device-only copy takes a device-only access |
| Access.RolesRise | src/domain/workspace-access.ts:348-353 | nobody, a viewer, an editor, an owner, in this order |
| SyncReconciliation.ContextIsNewest | src/client/sync-reconciliation.ts:61-105 | the access that comes with an answer counts by its version, and the queue is scoped to what then counts |
| Access.NewestAccessWins | src/domain/workspace-access.ts:324-358 | in whatever order the answers arrive the final access is the newest version known, ended if any answer of that version ended it, and otherwise with its lowest role |
| Guarantees.DeviceHoldsNewestAccess | src/client/sync-reconciliation.ts:61-105 | over any part of a run with one account and neither a confirmed deletion nor a saved review, the device ends up with the newest access it was told of |
| Guarantees.AccessAnswerExactly | src/client/local-replica.ts:1243-1281 | newer access is taken with its summary and scopes the queue, older access changes nothing |
| LocalReplica.NewestSummaryWins | src/domain/workspace-access.ts:361-373 | of one account the newest summary counts in whatever order they arrive; another account's always takes over |
| LocalReplica.SelectPendingSyncBatch | src/client/local-replica.ts:123-156 | the loop selects the batch of the specification |
| LocalReplica.BatchIsMaximalUniformPrefix | src/client/local-replica.ts:123-156 | every entry of the batch belongs to the account that sends and all were authorized alike; it is a prefix of the pending entries of at most 100, and the first one left out belongs to another account or was authorized otherwise |
| LocalReplica.PendingExactly | src/client/local-replica.ts:127-127 | the pending entries are found in order, and all of them |
| LocalReplica.BatchGrows | src/client/local-replica.ts:123-156 | queuing more work only extends the batch |
| LocalReplica.ScopingRetainsQueue | src/client/local-replica.ts:158-231 | an access change keeps every queued command in place, fills an account in only once, never unblocks, gives unattributed work to a new account only from a device-only copy, and leaves nothing to send after a deletion |
| LocalReplica.AttributionExactly | src/client/local-replica.ts:171-231 | to whom unattributed work belongs after an access change, and exactly which entries it blocks |
| LocalReplica.ConfirmedDeletionIsTerminal | src/client/local-replica.ts:1179-1224 | a confirmed deletion is recorded, keeps state and queue, leaves nothing to send, never lowers the recorded revisions and is idempotent |
| LocalReplica.DeletionRecordsExactly | src/client/local-replica.ts:1179-1224 | which deletions are taken, and what is recorded of the access and the summary that come with one |
| LocalReplica.ReconcileReplica | src/client/local-replica.ts:1590-1608 | the replay loop with its two stale-reply guards computes the reconciliation of the specification |
| LocalReplica.ReconcileExactly | src/client/local-replica.ts:1590-1608 | a reply is set aside whole when the device is known to be ahead of it or nothing it answers is queued any more; any other settles the queue, and with nothing blocked rebuilds the state from the server's |
| LocalReplica.RebaseSound | src/client/local-replica.ts:1578-1588 | for two states that show every command once and count from the same start: a check that passes is right, only prior commands having come in between, if and only if everything seen is still shown and no prior command was among it; and then it passes exactly when something came in between and all of it is prior |
| LocalReplica.RebaseCounts | src/client/local-replica.ts:1578-1588 | without any condition on what was lost: the check passes exactly when a prior command is applied and as many other commands came in as were lost or were prior ones already seen |
| SyncReconciliation.ReconcileIdempotent | src/client/local-replica.ts:1590-1608 | folding one reply in twice is folding it in once, whatever mix of receipts it carries |
| SyncReconciliation.SuccessfulResponseIdempotent | src/client/sync-reconciliation.ts:152-173 | the same for a whole successful response with its access and summary |
| SyncReconciliation.RefusalRetainsQueue | src/client/sync-reconciliation.ts:108-150 | a refusal never touches the state, never drops or unblocks an entry, and blocks sent entries only when definitive |
| SyncReconciliation.SettledIds | src/client/local-replica.ts:1595-1603 | an identifier stays in the outbox exactly unless it was sent and acknowledged |
| LocalReplica.SettledExactly | src/client/local-replica.ts:1595-1603 | a sent entry leaves when acknowledged and otherwise stays blocked with the reason the server gave; an unsent one stays as it is |
| LocalReplica.LastReceiptCounts | src/client/local-replica.ts:1591-1591 | of several receipts for one command the last one counts |
| SyncReconciliation.RefusedResponseExactly | src/client/sync-reconciliation.ts:108-150 | a definitive refusal blocks exactly the pending entries that were sent, each with its reason; time, message, access and summary are recorded and nothing else changes |
| SyncReconciliation.SuccessfulResponseExactly | src/client/sync-reconciliation.ts:152-173 | a success is recorded with its time, clears the last error and takes the access and summary that came with it |
| SyncReconciliation.ReconcileStaysExportable | src/client/local-replica.ts:1590-1608 | any reply leaves identifiers distinct, entries in their workspace and every queued command represented in the state |
| Store.DispatchStaysExportable | src/client/store.tsx:1356-1399 | a newly queued command is represented in the saved state in the same step |
| Store.DispatchExactly | src/client/store.tsx:1358-1399 | a dispatch needs write access, never replaces expectations of the caller, and queues one pending entry of the account with the given command or, if the rebase check passes, the same created again; that very command is applied |
| Store.RebasedDispatchFits | src/client/store.tsx:1364-1381 | a command created again on the latest state fits it; only this tab's own commands came in between if and only if everything the user saw is still shown and no prior command was among it |
| RebaseRuns.RebaseSoundInRuns | src/client/store.tsx:1345-1381 | over every single-flight run, for any two copies: with no review saved between them the check passes exactly when something came in between and all of it is prior; with one, a check that passes is right if and only if nothing seen is gone, and what is gone was decided upon in a review |
| RebaseRuns.RebasedOnOwnChanges | src/client/store.tsx:1364-1381 | a command of a run that is created again on the latest copy, no review having been saved since the user saw the state it was meant for, passes over nothing but this tab's own commands and fits |
| ReviewedRebase.ReviewMisleadsTheCheck | src/client/store.tsx:1364-1381 | a concrete run with a review in between: the command, which conflicts as it was created, is created again and overwrites another device's change |
| Protocol.StepKeepsInv | src/client/store.tsx:891-1110 | every step, saving a review included, keeps the copy equal to its base plus its basis, the server's log free of duplicates, every reply backed by the server, and what was read for a review no older than the copy's base |
| Protocol.RunKeepsInv | src/client/store.tsx:891-1110 | the same for every state of every run |
| Protocol.SaveReviewKeepsInv | app/recovery/page.tsx:503-545 | a review may be saved while requests and replies of the old queue are still under way: all of the above survives |
| Protocol.SavedReviewStartsRun | app/recovery/page.tsx:524-542 | the saved copy also is a starting point of the protocol with nothing under way |
| Guarantees.NoLossAndAtMostOnce | src/client/local-replica.ts:1590-1608 | in every run each dispatched command is in the outbox, applied by the server or decided upon in a saved review, and the server applies each at most once |
| Guarantees.SendsWhatIsDue | src/client/store.tsx:939-949 | a request goes out exactly when the batch holds something, or nothing is pending and an empty sync is allowed, and it carries the batch |
| Guarantees.ResolvedByReview | app/recovery/page.tsx:524-542 | only saving a review decides upon a command, and only upon one that was queued and missing online |
| Guarantees.DispatchedStays | src/client/store.tsx:1356-1399 | the guarantee covers every command ever dispatched, not just recent ones |
| Guarantees.LeavesOnlyWhenAcknowledged | src/client/local-replica.ts:1595-1603 | an entry leaves the outbox only when a success reply to a request that carried it acknowledges it and the server has applied it, or when a review is saved and the server has it or it was decided upon |
| Guarantees.CopyIsCoherent | src/client/local-replica.ts:1590-1608 | every reachable copy can be exported, and with nothing blocked its state is exactly the outbox replayed over the server state it was last rebuilt on |
| Guarantees.QueuedWasAccepted | src/client/store.tsx:1382-1384 | every queued command of every reachable copy was accepted on some state |
| Guarantees.ReplyRebuildsOrLeaves | src/client/local-replica.ts:1604-1607 | a success reply that is not stale, leaves nothing blocked and whose replay succeeds replaces the state by the remaining queue replayed over the server's state; in every other case the state is untouched |
| Guarantees.DeviceNeverRollsBack | src/client/local-replica.ts:1592-1594 | along every run the server history behind the copy only grows, and the confirmed revision never decreases as long as reviews are saved of copies that show every command once |
| SingleFlight.CurrentReplyIsNeverStale | src/client/local-replica.ts:1592-1594 | with one flush in flight, and no review saved since it was sent, neither stale-reply guard discards the answer the device is waiting for |
| SingleFlight.RebuiltShowsOnce | src/client/local-replica.ts:1604-1607 | rebuilding on that answer never applies a command a second time |
| SingleFlight.SingleFlightIsExact | src/client/store.tsx:891-1135 | in every reachable state, reviews saved during a flush included, the device shows each command once and a retry resends everything sent and still pending; the current answer is accepted unless a review was saved since the flush was sent |
| SingleFlight.SingleFlightNeverRollsBack | src/client/local-replica.ts:1592-1594 | with one flush in flight and one account the confirmed revision never decreases along any run, reviews saved at any moment included |
| FirstUpload.FirstUploadSettlesIffOneRequest | app/api/sync/route.ts:404-470 | a first upload settles the device if and only if the queue at the send fits into one request, whatever is queued while it is under way |
| FirstUpload.LongQueueDoesNotSettle | app/api/sync/route.ts:404-470 | any number of renames is accepted on a device-only copy, and with more than one request carries the upload does not settle |
| ConflictReview.CollectEditedFields | src/client/conflict-review.ts:134-149 | the loop collects the leaves the device really changed, or reports an unusable path |
| ConflictReview.FillByRecord | src/client/conflict-review.ts:182-202 | the loop collects the selected values by record, merging leaves into the online group |
| ConflictReview.FilledAreUsable | src/client/conflict-review.ts:182-202 | values are collected only if they are there and lead into an editable field or group by safe keys |
| ConflictReview.FindReviewId | src/client/conflict-review.ts:232-235 | prefixing terminates at the first prefixed candidate nobody has used |
| ConflictReview.ProjectRecoveryReview | src/client/conflict-review.ts:253-290 | the loop over the queue computes the projection of the specification, errors included |
| CommandWrites.UpdateWrites | src/domain/commands.ts:1481-1539 | an update writes exactly its changes over the record, or there is nothing to change |
| CommandWrites.BulkUpdateWrites | src/domain/commands.ts:1410-1479 | a bulk edit rewrites each named item with its own changes, constraint leaves merged one by one, and no other record |
| ThreeWayMerge.FillWrites | src/client/conflict-review.ts:182-202 | the changes collected for a record amount to writing each of its selected values |
| ThreeWayMerge.BulkMatches | src/client/conflict-review.ts:206-216 | sending only the selected constraint leaves comes to the same as sending the merged group |
| ReviewedEdits.DecisionWritesSelection | src/client/conflict-review.ts:163-251 | whichever command a decision produces, running it writes exactly the selected values |
| ReviewedEdits.LeafIsMerged | src/client/conflict-review.ts:131-218 | the three-way merge for every leaf the command names: online if the device did not change it, the device's value if online did not, the chosen side if both did, and a side was chosen |
| NamedLeaves.EditsAreNamedLeaves | src/client/conflict-review.ts:104-129 | the review of an edit covers the whole command: one leaf for every value it names and none besides; only structural and history commands are reviewed as a whole, and only an unsafe key prevents a review |
| NamedLeaves.CreatedLeafIsSeen | src/client/conflict-review.ts:92-102 | for a command accepted on the state the user saw, the review recovers at every leaf it names the value the user saw |
| NamedLeaves.FirstExpectationCounts | src/client/conflict-review.ts:92-102 | what is remembered at the very place counts before what is remembered above it, and the first of either |
| NamedLeaves.ContextExactly | src/client/conflict-review.ts:149-159 | put to the user as context are exactly the values remembered beside the command's own that changed online |
| NamedLeaves.WholeStepShowsPatches | src/client/conflict-review.ts:131-148 | a command reviewed as a whole shows each patch of its log entry with the value online |
| ReviewedEdits.CreatedLeafIsMerged | src/client/conflict-review.ts:131-218 | the merge told from both sides: from what the user saw at the leaf, what the user set it to, what is online and the choice made |
| ReviewedEdits.AppliedEditIsQueued | src/client/conflict-review.ts:174-251 | an edit that is applied is queued again exactly when the merge replaces a leaf it names |
| ReviewedEdits.NothingElseChanges | src/client/conflict-review.ts:182-217 | every path apart from the named leaves keeps its online value, siblings inside constraints and conditions included |
| ReviewedEdits.AskedExactly | src/client/conflict-review.ts:131-149 | a leaf is put to the user as a conflict exactly when both sides changed it, to different values |
| ReviewedEdits.UnconfirmedFits | src/client/conflict-review.ts:150-179 | without confirming the online context a change is reapplied only when everything it remembered beside its own leaves still holds online |
| ReviewedEdits.ChoicesSuffice | src/client/conflict-review.ts:163-218 | for an edit that was accepted when it was queued, valid choices for every conflict and a confirmed context always yield the new command or nothing to do |
| ReviewedQueue.FinishedReview | src/client/conflict-review.ts:253-290 | a finished review is its new queue replayed over the server's state; the old queue splits in order into accepted, skipped and reapplied, accepted exactly when the server had it; each other change takes the next decision, which names it, is skipped when that says so and reapplied only when it says so; new identifiers are distinct and unused |
| ReviewedQueue.DecisionFollowsAction | src/client/conflict-review.ts:220-251 | skipping leaves out any kind of change and the state alone; a change to apply is left out exactly when nothing of it is selected or its command would change nothing |
| ReviewedQueue.AnswersFit | src/client/conflict-review.ts:163-180 | a change is applied only with valid choices for listed leaves, one for every conflict, and a confirmed context; a history command never |
| ReviewedQueue.ReappliedEnvelope | src/client/conflict-review.ts:230-251 | what a reapplied change is queued as: account, actor, time, authorization, base revision and identifier |
| ReviewedQueue.ReviewedQueueIsConsistent | src/client/conflict-review.ts:253-271 | only a queue of one workspace with distinct identifiers can be reviewed to its end |
| ReviewedQueue.SavedReviewIsExact | app/recovery/page.tsx:524-542 | the saved copy is exportable, unblocked and exact, and its confirmed revision is the server's |
| ReviewedQueue.SavedReviewRecords | app/recovery/page.tsx:524-542 | the saved copy has the access it was reviewed with, no error, and counts as synced only with nothing to reapply |
| ReviewedQueue.GoingBackIsExact | src/client/conflict-review.ts:266-288 | dropping the last decisions gives prefixes of the same lists and waits for the change the first dropped decision names |
| RecoveryBundle.ParseRecoveryUpload | src/client/recovery-bundle.ts:35-86 | the loop returns the copy unchanged or the error of the first bad entry |
| RecoveryBundle.AcceptedIffAcceptable | src/client/recovery-bundle.ts:35-86 | accepted are exactly the copies with distinct, named entries of the same workspace that the saved state represents |
| RecoveryBundle.NamelessIsRefused | src/client/recovery-bundle.ts:35-86 | an entry whose account, command, actor or device has only blanks for a name is refused |
| RecoveryBundle.ReachableCopyIsAccepted | src/client/recovery-bundle.ts:35-86 | every copy the protocol can reach, saved reviews and anything under way included, is accepted when exported and read back |
| RecoveryBundle.SavedReviewIsAccepted | src/client/recovery-bundle.ts:35-86 | so is every saved review |
| DeviceStore.OnlyNamedCopyChanges | src/client/local-replica.ts:733-1560 | every operation leaves the copies it does not name alone |
| DeviceStore.UntouchedCopySurvives | src/client/local-replica.ts:733-1560 | over any sequence of operations a workspace none of them names keeps its copy |
| DeviceStore.SameVersionExactly | src/client/local-replica.ts:890-947 | two copies pass as the same exactly when workspace, revision, time, access version, summary and the queue's identifiers, accounts and statuses are equal |
| DeviceStore.GuardedWritesExactly | src/client/local-replica.ts:949-1038 | a guarded write happens exactly when what it expects is still there, and otherwise changes nothing |
| DeviceStore.UpdatesExactly | src/client/local-replica.ts:1040-1123 | an update is made of the copy as it is and stored under its workspace; a missing copy or failed update changes nothing |
| DeviceStore.OpeningKeepsWork | src/client/local-replica.ts:1332-1527 | opening a workspace never overwrites the state and queue of a copy on the device; a download is refused exactly when it does not fit its own access and summary |
| DeviceStore.OtherOperationsExactly | src/client/local-replica.ts:733-872 | what writing, replacing, switching, removing and clearing do |
| DeviceStore.Database.MirrorAtBoot | src/client/store.tsx:380-382 | the identity update of the active copy makes the mirror hold, whatever it was before |
| DeviceStore.Database.ListWorkspaceReplicas | src/client/local-replica.ts:395-430 | the cursor loop lists every workspace's own copy, the active record standing in only where there is none |
| DeviceStore.Database.MutateWorkspaceReplica | src/client/local-replica.ts:1073-1123 | updates that workspace's copy and its mirror, or changes nothing |
| DeviceStore.Database.WriteWorkspaceReplicaIfUnchanged | src/client/local-replica.ts:979-1038 | writes and activates the copy exactly when the target and the active copy are still the expected versions |
| DeviceStore.Database.ActivateWorkspaceReplica | src/client/local-replica.ts:1283-1330 | activates an existing copy and, with the mirror in place, changes no copy |
| DeviceStore.Database.ReplaceReplicaIfUnchanged | src/client/local-replica.ts:1529-1560 | replaces the active copy exactly when it is still the expected version, removing its old record when the workspace differs |
| DeviceStore.Database.DeleteWorkspaceReplica | src/client/local-replica.ts:733-872 | removes the copy and its mirror, unless it changed since removal was reviewed |
| DeviceStore.SwitchingLosesNothingIffMirrored | src/client/local-replica.ts:1283-1330 | the record that was active survives a switch if and only if it was mirrored |
| DeviceStore.UnmirroredIsLost | src/client/local-replica.ts:1283-1330 | a concrete store whose active record is its only copy loses it on a switch |
| LiveRelay.Room.AcceptConnection | worker/live-relay.ts:158-219 | a connection is accepted exactly when the room is not deleted and, once it has a list, the user is on it with a current access revision |
| LiveRelay.ParsedListsSomebody | src/shared/live-collaboration.ts:377-419 | a notification that parses lists exactly the posted users, and a live one lists somebody |
| LiveRelay.ParsesExactly | src/shared/live-collaboration.ts:377-419 | which posted notifications are taken, and that they then say what was posted |
| LiveRelay.ConnectsExactly | worker/live-relay.ts:176-219 | who may connect to a room, for every room |
| LiveRelay.Room.Publish | worker/live-relay.ts:221-306 | a notification that does not parse is refused and one that is out of date ignored, without effect; any other replaces the room, closes every socket no longer admitted, tells the others and leaves an access list |
| LiveRelay.RemainingAreTold | worker/live-relay.ts:270-304 | every socket that stays open and is not the source is told the new revisions |
| LiveRelay.RemainingExactly | worker/live-relay.ts:270-304 | nobody is closed without cause: exactly the sockets whose user keeps access and on which sending does not fail, or that are the source of an ordinary change, stay open, in order |
| LiveRelay.DeliveriesExactly | worker/live-relay.ts:270-304 | exactly who is told what: the new revisions with the kind each socket's situation calls for, the source of an ordinary change nothing |
| LiveRelay.RevisionIsHighest | worker/live-relay.ts:240-258 | the room knows the newest contents it accepted a notification about, in whatever order they came |
| LiveRelay.RoomStaysSafe | worker/live-relay.ts:158-306 | in every reachable state open sockets belong to listed users, a deleted room has none, no revision decreases, and a room that took a notification holds a list for good |
| LiveRelay.PublicationLeavesList | worker/live-relay.ts:240-269 | every accepted publication leaves the list it named when the access changed and the list already held otherwise |
| LiveRelay.RoomConverges | worker/live-relay.ts:221-269 | any order, repetition, refusal and interleaving leaves the access list and deletion of the highest access revision accepted |
| LiveRelay.RoomsAgree | worker/live-relay.ts:221-269 | two rooms told about the same highest access revision agree in everything but the revision of the contents |
| LiveRelay.RevivedExactly | worker/live-relay.ts:221-258 | a deleted room is revived exactly by a notification that parses, is not out of date and says it is not deleted; never by one with an empty list |
| LiveRelay.DeletionIsNotSticky | worker/live-relay.ts:221-258 | at an equal access revision the same users without the deletion revive a deleted room if and only if there are any |
| EventStream.ConsumeLiveEventStream | src/client/live-reconciliation.ts:245-280 | the reader's loops hand on the messages of the blocks completed chunk by chunk, up to the first that is refused |
| EventStream.ReaderIsChunkIndependent | src/client/live-reconciliation.ts:245-280 | without CR CR LF in the text the same messages arrive in the same order however it is cut |
| EventStream.GuardIsImplied | src/client/live-reconciliation.ts:256-256 | a text in which every CR begins a line end meets that guard |
| EventStream.NormalizationIsChunkIndependentIff | src/client/live-reconciliation.ts:256-256 | normalizing early agrees with normalizing once for every cut if and only if there is no CR CR LF |
| EventStream.ReaderIsExactIff | src/client/live-reconciliation.ts:255-280 | every chunking of a text is cut into the blocks of the whole if and only if there is no CR CR LF in it |
| EventStream.ReaderDependsOnChunks | src/client/live-reconciliation.ts:255-271 | for any two one-line messages that are not a message together: a text with CR CR LF between them is refused uncut, and cut behind the CR CR LF hands both on |
| EventStream.WrittenIsRead | app/api/live/events/route.ts:20-25 | whatever frames the server writes and however they are cut, exactly their messages are read, in order, and all handed on when each is accepted |
| LiveConnection.MergeIsJoin | src/client/live-reconciliation.ts:166-188 | coalescing is associative, commutative and idempotent |
| LiveConnection.MergeKeepsUrgency | src/client/live-reconciliation.ts:166-188 | a deletion, then a change of access, then of the contents survives coalescing |
| LiveConnection.AlwaysLive | src/client/live-reconciliation.ts:354-470 | a client that is not stopped is always connected, connecting or about to, whatever fails or closes in whatever order, as long as nothing makes it give up |
| LiveConnection.LiveUnlessGivenUp | src/client/live-reconciliation.ts:354-470 | exactly which callbacks make it give up |
| LiveConnection.FailureIsReported | src/client/live-reconciliation.ts:364-386 | each failure is reported once as what it is, and one to retry is counted instead |
| LiveConnection.BackoffStartsOver | src/client/live-reconciliation.ts:312-318 | the delay between attempts starts over only once a connection proved stable |
| LiveConnection.ReceivedExactly | src/client/live-reconciliation.ts:327-353 | what arrives is merged into what is pending; what brings nothing new, or comes after stopping, is dropped |
| LiveConnection.PendingIsDelivered | src/client/live-reconciliation.ts:320-325 | when the coalescing timer fires, exactly what is pending is delivered, as one message |
| LiveConnection.OnlyTheSocketInUseCounts | src/client/live-reconciliation.ts:388-416 | messages of the stream and of the socket in use count; a socket that was given up has no effect |
| LiveConnection.CapabilityCounts | src/client/live-reconciliation.ts:436-446 | the revisions a capability brings count like a message that arrives |
| LiveConnection.ReachableIsConsistent | src/client/live-reconciliation.ts:282-470 | in every reachable state at most one of request, stream, socket and reconnect timer is live, observed revisions are the join of the initial, delivered and pending ones, and every delivered message advances or announces a deletion |
| LiveConnection.StoppedIsSilent | src/client/live-reconciliation.ts:472-491 | after stopping no callback fires and nothing is opened, whatever still settles |
| LiveConnection.ReceivedIsCovered | src/client/live-reconciliation.ts:327-353 | an arriving message is covered by the observed revisions and a deletion stays pending as a deletion |
| LiveConnection.ObservedIsDelivered | src/client/live-reconciliation.ts:320-353 | when nothing is pending, everything observed has been delivered |
| LiveConnection.LiveClient.ReceiveMessage | src/client/live-reconciliation.ts:327-353 | drops what brings nothing new and coalesces the rest behind one timer |
| LiveConnection.LiveClient.OnCapability | src/client/live-reconciliation.ts:441-458 | opens at most a socket or a stream request for a capability, and nothing once stopped |
| WorkerPool.RunWithConcurrency | src/client/sync-scheduling.ts:66-90 | under every interleaving indices are claimed once in order, at most min(concurrency, length) operations run at a time, results are at their own index, and the run fails exactly when an operation is rejected or the concurrency is not positive |
| FlushCoordination.Coordinator.FlushWorkspace | src/client/store.tsx:891-900 | joins the flush under way and remembers the request, or starts the only one |
| FlushCoordination.Coordinator.BatchAcknowledged | src/client/store.tsx:1089-1100 | a partly acknowledged flush asks for a follow-up, and records a permission for an empty sync as overwritten exactly when a joined request had given it since the last one |
| FlushCoordination.Coordinator.Settle | src/client/store.tsx:1125-1134 | a finished flush during which anything was asked queues exactly one follow-up, which allows an empty sync if and only if a request that allowed one joined after the last partial acknowledgement |
| FlushCoordination.Coordinator.IdleMeansAnswered | src/client/store.tsx:891-1135 | when nothing is under way or queued, every request was answered by a flush that began after it, and every permission for an empty sync reached such a flush or was overwritten |
| FlushCoordination.PermissionMattersIffNothingPending | src/client/store.tsx:939-949 | whether an empty sync is allowed decides what is sent exactly when no entry is pending |
| FlushCoordination.PermissionMissed | src/client/store.tsx:938-1135 | a concrete run of the coordinator and its queue in which the permission is overwritten and the flush its follow-up starts sends nothing, which with the permission it would |

## Left out

- Record validators, trimming and upper-casing of names and codes, and the
  archived-record checks: a command is refused here only for the reasons listed in `Domain.Problem`.
- Derived patches of a command (time stamps, item versions, capture progress, discarded plans): only the fields a command names are written.
- ReviewedEdits.NothingElseChanges: the derived fields of a command (time stamps, versions, discarded plans) change beside the named leaves and are not modelled.
- The order of an object's keys: where the program lists entries, the model lists them in key order.
- Guarantees.NoLossAndAtMostOnce: identifiers are kept for ever here; at most once after a compaction is `Retention.AppliedOnceWhileRetained`, under the condition that the identifier is retained.
- Server.SynchronizeAtMostOnce: the same; which identifiers a compaction drops (counts and sizes) is not modelled.
- Server.Synchronize: quota refusals, the rewriting of actors and authorization, and history compaction inside a batch are not modelled.
- CommandWrites.UpdateWrites: derived patches and the record validators of an update are not modelled.
- CommandWrites.BulkUpdateWrites: derived patches and the record validators of a bulk edit are not modelled.
- Undo and redo conflict checks: `History` commands carry the patches they write.
- The item-order exception in the comparison of whole-record expectations.
- Authorization bases and actors rewritten on the server, quotas, and the compare-and-swap retries of the snapshot store: a served batch is atomic.
- Domain.CreatedExpectationsHold: the expectations a bulk edit or a changed parent adds about the spaces involved, and the workspace revision a plan's creation remembers, are not modelled.
- ConflictReview.CollectEditedFields: a change whose key is the empty string is refused one step earlier than in the program.
- The visible-access overlay of dispatch is reduced to the stored write capability.
- RecoveryBundle.ParseRecoveryUpload: time stamps, the JSON text and the snapshot validators are not modelled, so their errors are absent; legacy snapshots without a queue are not read.
- DeviceStore.Database.ActivateWorkspaceReplica: cancellation by an abort signal is not modelled; neither are the server catalogs in the same store, nor the name, role and capability comparison of a downloaded copy.
- DeviceStore.Database.DeleteWorkspaceReplica: pruning the server catalog of a removed workspace is not modelled.
- Normalization of legacy records and of access states: identity on well-formed values.
- LiveRelay.Room.Publish: a socket whose attachment cannot be read is not modelled; accepted sockets always have one.
- LiveRelay.RoomConverges: assumes that the accepted notifications of one access revision carry one access list and one deletion, which the room does not check.
- LiveRelay.ParsedListsSomebody: the types, the version and the message type of a posted notification are taken as checked.
- EventStream.ConsumeLiveEventStream: decoding bytes is not modelled; whether a text parses as a live message is a parameter.
- LiveConnection.StoppedIsSilent: the stability timer may still be set when a stream response arrives after stopping; it calls nothing back.
- Reconnect delays, retry-after times and the length of the coalescing window.
- Protocol.SaveReviewKeepsInv: the recovery page's capability checks and its comparison with the revision shown to the user only refuse reviews the model allows.
- FlushCoordination.Coordinator.FlushWorkspace: the early returns inside a flush (offline, retry window, account changed) count as a flush that ends.
- Retry scheduling, broadcast between tabs, React state, dialogs, the planner, imports and all pages: user interface or easier members.
- Signatures, rate limits and SQL text: foreign to these properties.

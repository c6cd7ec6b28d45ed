# OpenUSDConnect: a verified model of the replicated log pipeline

OpenUSDConnect replicates edits of layered scene state. A client turns local edits into event batches, a
server orders them, and receivers apply the resulting log to their own layers. This project models the
stages of that pipeline in which a list, a map or a cursor is rewritten step by step and must still mean
the same thing, and proves what each stage keeps.

| file | stage |
|---|---|
| `Coalescing.dfy`, `EmitterBatching.dfy`, `CoalescingWindow.dfy` | merging transform events in place in an unsent batch; the prepare, retry and mark-sent protocol around it; the timing window |
| `LayerRollback.dfy`, `RollbackLaws.dfy`, `ScopedAtomicApply.dfy` | the scoped rollback of a failed batch, when it is exact, and the object that performs it |
| `EventFootprints.dfy`, `ApplyScope.dfy`, `BatchRollback.dfy`, `RollbackExamples.dfy` | what each kind of event may write, the scope computed for a batch, when it suffices in execution order, and batches at the edge |
| `ApplyOrder.dfy`, `ApplyPositions.dfy` | the execution order of a batch, and where each event goes in it |
| `MessageDecoding.dfy`, `Dispatcher.dfy` | ordered delivery: decoding a batch of messages, and the transactional cursor over it |
| `ChangeRecords.dfy`, `SpecDelivery.dfy`, `DelegateTracker.dfy`, `SampleDelta.dfy`, `PrimIndex.dfy` | trackers: change records and what they materialize to, what receivers end up with, pending and prepared batches, sample tables sent as deltas, the sorted prim index |
| `ManagedSublayers.dfy`, `LogicalLayers.dfy`, `LogicalLayerRouter.dfy`, `RoutedRecords.dfy` | routing: the managed block of session sublayers, the logical layer router, grouping routed records into runs |
| `ArcState.dfy` | the normal form of reference and payload list operations |
| `PathCover.dfy`, `NativeOrdering.dfy` | minimal roots, and placing lifecycle events after native imports |
| `Inflow.dfy`, `BacklogHold.dfy`, `HoldLaws.dfy`, `ManagedClients.dfy` | the receiver's queue, the hold counter of the managed client, and its update and flush |
| `AxisConversion.dfy` | the Y-up / Z-up conversions |
| `SpecPaths.dfy`, `ProtocolEvents.dfy`, `Wrappers.dfy` | paths and events that several stages share; shared datatypes and sequence facts |

Objects whose methods update their fields are classes (`NoticeEmitter`, `EmitterClient`, `UsdPublisher`,
`ManagedClient`, `ScopedAtomicApply`, `Stage`, `EventDispatcher`, `NativeSdfLayerChangeTracker`, `KnownPrims`,
`SampleCaches`, `LogicalLayerRouter`, `SessionLayer`, `Layer`, `Author`, ...). Each method is proved against a step
function on values, and the laws over whole runs are lemmas about those step functions.

## Findings

Some statements that the code suggests hold only under a condition. Each is proved as an if-and-only-if, or
with a concrete input that fails together with the exact condition.

* A scoped rollback copies the saved subtrees back in the order of the scope paths
  (`openusdconnect/event_apply.py:987-988`). Were copying a spec under a missing parent to raise, the rollback
  is exact for every block exactly when no saved path comes before one of its own ancestors
  (`RollbackLaws.RaisingRollbackIsExactIff`); the batch "edit /A/B, delete /A" is such a case
  (`RollbackExamples.ChildEditThenParentDelete`). Were it to be skipped, the rollback is exact exactly when the block
  stayed in scope (`RollbackLaws.SkippingRollbackIsExact`). What USD does there is not in the repository.
* The scope is said to fully contain a batch's possible writes (`openusdconnect/event_apply.py:993-1001`). Defining
  a missing prim also makes definitions of its present but undefined ancestors, which the scope does not list:
  ensuring /A/B under a bare over at /A and rolling back leaves /A a definition
  (`RollbackExamples.DefineUnderBareOver`). Over the runs of the batch's own execution order, the scope suffices
  exactly when no event may find such a prim missing (`BatchRollback.ScopeSufficesIff`): making /A/B instanceable and
  deleting it is safe, the other order is not (`RollbackExamples.DefineThenDelete`, `DeleteThenDefine`).
  `BatchRollback.FailedBatchIff` is the exact condition for the rollback of a whole batch. That defining a prim
  reaches its ancestors is documented behaviour of `UsdStage::DefinePrim`, which is not in the repository.
* A subtree purge of the prim index takes the range up to the prefix followed by U+FFFF. It is exact if and
  only if no known child name starts at U+FFFF or above (`PrimIndex.PurgeIsExactIff`); a prim named with a
  supplementary-plane ideograph survives (`PrimIndex.SupplementaryChildSurvives`).
* The router returns early on an empty advertised stack, so the previously composed block stays on the stage.
  `LogicalLayers.OrphanFreeIff`: an update takes every removed layer
  off the stage exactly when it advertises a layer or nothing was advertised before.
* Handing records over in runs is not the same as applying each record alone: the batch applier reorders inside a
  run. For every content and record list the two agree exactly when in no run two events without a barrier
  between them are out of class and depth order (`RoutedRecords.BatchGroupingIff`). Even where they differ, the
  final value of a cell whose writers share one class and one depth is the same (`ApplyOrder.LastWriterUnchanged`).
* The dispatcher matches the router to the connection after draining the queue and outside its recovery
  (`openusdconnect/dispatcher.py:467`). If that raises, the drained messages are lost and no replay is requested;
  the cursor is sure to stay safe exactly when no resync was among them or nothing was held yet
  (`Dispatcher.SyncFailureSafeIff`).
* Pending work of the delegate tracker ends without an acknowledgement when a preparation finds nothing to send for
  it (`openusdconnect/sdf_delegate_bridge.py:683-694`): `DelegateTracker.EntryEndsIff` gives both ways an entry can
  end, `ChangeRecords.MaterializesNothingIff` says when there is nothing to send, and
  `DelegateTracker.TargetRecordIsDropped` is an input.
* A property that is deleted and created again before a preparation is sent with its present keys only
  (`openusdconnect/sdf_delegate_bridge.py:516-550`), and receivers keep every field that is not sent
  (`openusdconnect/sdf_spec_delta.py:197-219`): old time samples survive there (`SpecDelivery.RecreatedKeepsSamples`).
  Receivers end with the layer's content exactly when no key was lost in this way (`SpecDelivery.DeliveredIff`).
* Local edits are said to be held until the backlog queued before them has been applied
  (`openusdconnect/managed_client.py:153-154`). A flush sends a batch that the window holds back without looking at the
  backlog (`HoldLaws.FlushLeavesAhead`, `BacklogHold.LeavesBehindIff`), and an edit that joins a batch frozen earlier
  does not renew the hold. Every edit waits for what was queued when it joined exactly when there is no coalescing
  window (`BacklogHold.EditsWaitIff`), and in any update without a limit (`BacklogHold.UnlimitedUpdateWaits`).
* An update that raises does not report what it drained (`openusdconnect/managed_client.py:167-173`), so a batch can
  be held after everything queued before it is gone (`HoldLaws.RaisedDrainStillHolds`). The hold is sure to be
  over exactly when the drained messages make up for the frozen depth plus those lost (`HoldLaws.HoldEndsIff`).
* Lifecycle events follow all control events of the roots above them in every batch exactly when no two
  roots are nested, which is what the minimal roots guarantee (`NativeOrdering.LifecycleFollowsIff`).
* Sample deltas are exact exactly when the fingerprint tells transported values apart
  (`SampleDelta.ExactIffInjective`).
* Sending only the erased times stands for all the individual sample records exactly when no written time is
  left (`ChangeRecords.ErasingIsExactIff`).

## Model

| member | source | states |
|---|---|---|
| Coalescing.MergePreservesMeaning | openusdconnect/coalescing.py:14-55 | for every start state and every interpretation of the other events as arbitrary state transformers, the merged list has the effect of the pending events followed by the incoming ones |
| Coalescing.MergeKeepsOtherEvents | openusdconnect/coalescing.py:35-39 | non-transform events are neither lost, doubled nor reordered by merging |
| Coalescing.RepeatedKeyAddsNothing | openusdconnect/coalescing.py:28-46 | an incoming transform adds no entry if and only if its key already occurs after the last barrier |
| Coalescing.MergeOneMeaning | openusdconnect/coalescing.py:35-53 | folding one event into the latest candidate of its key means applying it last |
| Coalescing.LastMatchExists | openusdconnect/coalescing.py:28-46 | a candidate exists if and only if a transform of that key stands after the last barrier |
| Coalescing.UpdateInPlace | openusdconnect/coalescing.py:48-53 | the earlier dictionary ends with its own and the incoming fields, incoming values winning |
| Coalescing.CollectCandidates | openusdconnect/coalescing.py:28-33 | the candidate map names for each key the dictionary that a later transform replaces |
| Coalescing.MergeLatestTransformEvents | openusdconnect/coalescing.py:14-55 | the same list object comes back holding the merge of the old contents, with its dictionaries kept and none occurring twice |
| EmitterBatching.RunConserves | openusdconnect/emitter.py:4150-4210 | over every run of edits, prepares, failed sends and mark-sent steps, sent, retained and pending events together mean exactly the edits in order |
| EmitterBatching.RunDeliversOtherEventsOnce | openusdconnect/emitter.py:4150-4210 | over every run each non-transform edit is delivered exactly once and in order |
| EmitterBatching.RetainedBatchIsStable | openusdconnect/emitter.py:4150-4164 | under plain prepares and failed sends a retained batch never changes and later edits wait behind it |
| EmitterBatching.SentOnlyGrows | openusdconnect/emitter.py:4204-4210 | what was sent is never rewritten |
| EmitterBatching.NoticeEmitter.PrepareEventsForSend | openusdconnect/emitter.py:4150-4164 | consumes the dirty state once, returns the same list object until it is marked sent, and retains nothing for an empty build |
| EmitterBatching.NoticeEmitter.PrepareCoalescedTransformEventsForSend | openusdconnect/emitter.py:4166-4188 | the retained list object absorbs the new edits in place |
| EmitterBatching.NoticeEmitter.MarkPreparedEventsSent | openusdconnect/emitter.py:4204-4210 | releases exactly the retained list object; any other argument raises and changes nothing |
| CoalescingWindow.WindowConserves | openusdconnect/coalescing.py:79-97 | whatever the clock, the window and the sender do, the delivered events mean exactly the edits in order |
| CoalescingWindow.HoldIsBounded | openusdconnect/coalescing.py:79-90 | an edit that an update has seen is sent by any ready, accepted update at least one window later, however many edits keep arriving |
| CoalescingWindow.DeadlineWasSet | openusdconnect/coalescing.py:86-89 | a standing deadline is one window after an update of the run |
| CoalescingWindow.HeldForWindow | openusdconnect/coalescing.py:83-90 | over every run an update sends a batch of nothing but transforms only a window after an earlier update |
| CoalescingWindow.TransformCoalescingWindow.Prepare | openusdconnect/coalescing.py:79-90 | prepares plainly for a zero window; otherwise coalesces, opens the window for a transform-only batch and closes it for any other |
| CoalescingWindow.UsdPublisher.Update | openusdconnect/usd_client.py:242-255 | while connected an update is one step of the modelled run: a batch leaves only when handed out and accepted, and its deadline is then cleared; unconnected, nothing changes |
| CoalescingWindow.EmitterClient.Flush | openusdconnect/_client_base.py:389-399 | a flush forces out a batch that the window holds, if the client is ready, and does nothing when no deadline stands; it is one step of the modelled run |
| CoalescingWindow.TransformOnly | openusdconnect/coalescing.py:58-60 | whether a batch is non-empty and holds only transform events |
| RollbackLaws.FinishedRollbackIsExact | openusdconnect/event_apply.py:976-990 | when a block changes only subtrees of the scope paths and missing ancestors of them, a rollback that finishes restores exactly the entry layer, for any order and nesting of scope paths |
| LayerRollback.PlanCoversScope | openusdconnect/event_apply.py:950-974 | the saved subtrees and created roots cover exactly the regions of the scope paths |
| RollbackLaws.RestoreProgress | openusdconnect/event_apply.py:987-988 | after n copies each saved subtree is back, or a saved ancestor still to come brings it back |
| RollbackLaws.SkippingRollbackIsExact | openusdconnect/event_apply.py:976-990 | with skipped copies the rollback restores the entry layer if and only if the block stayed in scope |
| RollbackLaws.RaisingRollbackIsExactIff | openusdconnect/event_apply.py:976-990 | with raising copies the rollback is exact for every confined block if and only if no saved path precedes its own saved ancestor |
| RollbackLaws.LateAncestorFails | openusdconnect/event_apply.py:987-988 | a block that deletes a parent whose saved path comes after its child's makes the rollback raise |
| RollbackLaws.ParentsKeptFinishes | openusdconnect/event_apply.py:987-988 | a rollback makes every copy when the block left the parents of all saved paths in place |
| RollbackLaws.UnscopedChangeSurvives | openusdconnect/event_apply.py:976-990 | a change outside the scope is not undone |
| LayerRollback.PlanIsValid | openusdconnect/event_apply.py:953-974 | every saved path was present, every created root is the missing child of a present parent, and no saved path lies below an earlier saved one |
| ScopedAtomicApply.ScopedAtomicApply.Climb | openusdconnect/event_apply.py:967-973 | the climb ends at the topmost missing ancestor of a missing path |
| ScopedAtomicApply.ScopedAtomicApply.Enter | openusdconnect/event_apply.py:953-974 | the object holds the plan of the scope paths and a backup agreeing with the layer on every saved subtree |
| ScopedAtomicApply.ScopedAtomicApply.Exit | openusdconnect/event_apply.py:976-990 | without an exception the layer stays; with one it becomes the rollback of the current layer, and after a confined block that finishes it is the entry layer |
| ScopedAtomicApply.BackupStep | openusdconnect/event_apply.py:957-965 | saving one more uncovered path keeps every subtree saved before it: the parent it needs is created first, and no earlier copy is overwritten |
| ApplyScope.AtomicApplyPrimPaths | openusdconnect/event_apply.py:993-1042 | the loop yields the scope of the batch, or none as soon as one event cannot be scoped |
| ApplyScope.BatchCovered | openusdconnect/event_apply.py:993-1042 | all that any event of a scoped batch writes lies in a listed subtree or is a missing ancestor of one, the new name of a renamed prim, variant owners and removed variant sets included; promoted ancestors of a defined prim are set apart |
| ApplyScope.FindOwningPrim | openusdconnect/event_apply.py:1010-1021 | the owning prim found by scanning prefixes is the one of the spec path with variant selections taken into account |
| BatchRollback.StepStaysConfined | openusdconnect/event_apply.py:62-760 | one event, in execution order, of a batch that exposes no undefined ancestor keeps all changes since entry inside the scope |
| BatchRollback.MissingRun | openusdconnect/event_apply.py:869-906 | whatever may be missing before an event of the order is missing in some run that no event has raised in |
| BatchRollback.ScopeSufficesIff | openusdconnect/event_apply.py:993-1042 | over every prefix of the batch's execution order, every run stays inside the scope if and only if no event in that order may define a prim that is missing by then (missing on entry or taken away by an earlier event, and not surely created since) below an undefined spec that no scope path contains |
| BatchRollback.FailedBatchIff | openusdconnect/event_apply.py:869-1068 | a scoped batch leaves the layer as it was at whichever event of its execution order it fails, if and only if it exposes no undefined ancestor in that sense and, where parentless copies raise, none of its events can take the parent of a saved path away |
| RollbackExamples.ChildEditThenParentDelete | openusdconnect/event_apply.py:976-990 | the batch that edits /A/B and deletes /A has a scope whose rollback raises if parentless copies raise |
| RollbackExamples.DefineUnderBareOver | openusdconnect/event_apply.py:62-91 | ensuring /A/B under a bare over at /A and rolling back leaves /A a definition, outside the scope |
| RollbackExamples.DefineThenDelete | openusdconnect/event_apply.py:382-384 | making /A/B instanceable and then deleting it stays inside the scope in every run, whatever /A is |
| RollbackExamples.DeleteThenDefine | openusdconnect/event_apply.py:382-384 | deleting /A/B and then making it instanceable under a bare over at /A has a run that changes /A outside the scope |
| BatchRollback.AtRiskIsLate | openusdconnect/event_apply.py:987-988 | a saved path whose parent the batch can take away comes before its own saved ancestor |
| BatchRollback.LateAncestorBatchFails | openusdconnect/event_apply.py:987-988 | whenever the plan of a scoped batch has a saved path before its own saved ancestor, a block inside the scope makes a raising rollback raise |
| ApplyOrder.ExecutedIsPermutation | openusdconnect/event_apply.py:869-906 | every event of a batch is executed exactly once |
| ApplyOrder.BarrierSplits | openusdconnect/event_apply.py:894-906 | no event crosses a delete, a rename or a sample-history barrier |
| ApplyOrder.ExecutedKeepsUniform | openusdconnect/event_apply.py:830-906 | events of one class and depth, together with any barriers, keep their relative order over the whole batch |
| ApplyOrder.SegmentOrdered | openusdconnect/event_apply.py:830-866 | a segment runs creates by depth, then structural events, schema overs, values |
| ApplyOrder.SortStable | openusdconnect/event_apply.py:833-838 | creates of one depth keep their order |
| ApplyOrder.LastWriterUnchanged | openusdconnect/event_apply.py:830-906 | a cell whose writers share one slot, that is one class and one depth, ends with the value of its last writer in the batch |
| ApplyPositions.LaterRunsFirstIff | openusdconnect/event_apply.py:830-866 | of any two positions of a barrier-free segment the later one runs first if and only if its class or depth is smaller |
| ApplyPositions.FoundAtPlace | openusdconnect/event_apply.py:830-866 | each event of a segment is found after all events of smaller slots and the earlier ones of its own |
| ApplyPositions.SegmentUnmovedIff | openusdconnect/event_apply.py:830-866 | a barrier-free segment runs as it is if and only if its slots do not decrease |
| ApplyPositions.BatchUnmovedIff | openusdconnect/event_apply.py:869-906 | a batch runs as it is if and only if no two events without a barrier between them are out of order |
| ApplyOrder.ParentsFirst | openusdconnect/event_apply.py:826-857 | between barriers no prim is created before its ancestor and none is modified before the creates |
| ApplyOrder.Stage.ApplyEvents | openusdconnect/event_apply.py:869-906 | the stage receives the batch in execution order, or a prefix of that order when an applier raises |
| ApplyOrder.Stage.ApplySegment | openusdconnect/event_apply.py:830-866 | one segment is applied in its sorted order, or a prefix of it |
| MessageDecoding.DecodeMessages | openusdconnect/codec.py:1935-2010 | the loop computes the decoding of the batch, stopping at the first error |
| MessageDecoding.DecodedIsLogInterval | openusdconnect/codec.py:1935-2010 | whatever the network drops, repeats, reorders or corrupts, the decoded records are exactly the log entries after the cursor, or from the start of the new epoch after a resync |
| MessageDecoding.GapStopsBeforeMissing | openusdconnect/codec.py:1909-1919 | a gap error names the entry right after the cursor and a later received one |
| MessageDecoding.ErrorsStop | openusdconnect/codec.py:1935-2010 | nothing after the first error has an effect |
| Dispatcher.RunKeepsCursorSafe | openusdconnect/dispatcher.py:450-521 | over every run of adversarial drains that loses no resync, every event entry up to the cursor of the current epoch was applied since the last reset, none before an event that precedes it, and records of an older epoch remain only while a reset is due |
| Dispatcher.ResumedRunIsSafe | openusdconnect/dispatcher.py:450-521 | a receiver that resumes after entry n keeps its cursor safe over every such run |
| Dispatcher.SyncFailureSafeIff | openusdconnect/dispatcher.py:450-475 | a router sync that raises loses the drained messages and requests no replay; the cursor is sure to stay safe if and only if no resync was among them or nothing was held yet |
| Dispatcher.StepKeepsCursorSafe | openusdconnect/dispatcher.py:450-521 | one drain keeps the cursor safe, whether it applies, fails part of the way or decodes an error |
| Dispatcher.SuccessAdvances | openusdconnect/dispatcher.py:512-521 | a batch that applies advances the cursor exactly through what was decoded; a decode error requests the rest |
| Dispatcher.RecoveryStartsAtCursor | openusdconnect/dispatcher.py:501-521 | after a drained batch a replay is requested if and only if applying failed or decoding stopped at an error; it starts right after the cursor, and every event up to the cursor was applied |
| Dispatcher.EventDispatcher.DrainAndApply | openusdconnect/dispatcher.py:450-521 | drain, router sync, decode, apply and recovery are exactly one step of the protocol, and the candidate sequence number is cleared on every path |
| Dispatcher.EventDispatcher.RequestReplayFrom | openusdconnect/receiver.py:540-560 | a sequence below 1 is refused; otherwise the replay start is set, and a start of 1 makes a reset due |
| Dispatcher.DueResetIsHonoured | openusdconnect/receiver.py:440-445 | while a reset is due nothing is drained without a handshake; after one, the scene holds only records of the new epoch, all of them up to the cursor if applying succeeded, and a failure starts over from entry 1 |
| Dispatcher.LedByResync | openusdconnect/receiver.py:440-445 | a batch led by a resync makes the decoder start a new epoch, whatever follows |
| ChangeRecords.MergedIsReflected | openusdconnect/sdf_delegate_bridge.py:629-677 | merging a record makes the pending entry account for it |
| ChangeRecords.EarlierStaysReflected | openusdconnect/sdf_delegate_bridge.py:629-677 | later records never drop what an earlier one put into the entry |
| ChangeRecords.SplitByLastRecord | openusdconnect/sdf_delegate_bridge.py:653-663 | written and erased times are split by the last record at each time |
| ChangeRecords.TimesDisjoint | openusdconnect/sdf_delegate_bridge.py:653-663 | no time is both written and erased |
| ChangeRecords.ErasingIsExactIff | openusdconnect/sdf_delegate_bridge.py:400-407 | erasing the erased times equals replaying all records on every table if and only if no written time is left |
| ChangeRecords.EntryOfSamples | openusdconnect/sdf_delegate_bridge.py:653-663 | the entry of a path that got only sample records is the merge of those records |
| ChangeRecords.MaterializesNothingIff | openusdconnect/sdf_delegate_bridge.py:486-550 | an entry materializes to nothing if and only if it is neither a replacement nor a topology change and every path in it is a target path, lacks its spec without a removal, or has no field and no sample to send |
| ChangeRecords.BatchCarries | openusdconnect/sdf_delegate_bridge.py:486-550 | a materialized batch publishes the record of every merged change whose spec the layer still holds, and every deletion whose spec is gone; of a deletion whose spec is there again it says nothing |
| SpecDelivery.DeliveredIff | openusdconnect/sdf_spec_delta.py:177-231 | for every history of records a receiver that held any earlier content of the path holds the layer's content after the batch, field by field and sample by sample, if and only if no key it held was lost by deleting the spec and creating it again as the same kind without a record that names the key |
| SpecDelivery.HistoryTracked | openusdconnect/sdf_delegate_bridge.py:629-677 | over every history of a path the entry accounts for all that changed since any earlier content: fields and samples it does not name are as they were |
| SpecDelivery.RelicIsFlagged | openusdconnect/sdf_delegate_bridge.py:636-644 | a key that a receiver wrongly keeps belongs to a path flagged both added and removed |
| SpecDelivery.RecreatedKeepsSamples | openusdconnect/sdf_delegate_bridge.py:516-550 | deleting an attribute with samples and creating it again without any sends only its keys, and a receiver keeps the old samples |
| DelegateTracker.PendingIff | openusdconnect/sdf_delegate_bridge.py:593-733 | in every reachable state a record of a reachable layer is still pending if and only if no acknowledgement removed its entry and no preparation dropped it |
| DelegateTracker.EntryEndsIff | openusdconnect/sdf_delegate_bridge.py:679-733 | the entry of a layer that stays reachable leaves the pending map if and only if its batch is marked sent with nothing merged since, or a preparation finds nothing to send for it |
| DelegateTracker.TargetRecordIsDropped | openusdconnect/sdf_delegate_bridge.py:683-694 | a record at a target path is dropped by the first preparation, although nothing was ever marked sent |
| DelegateTracker.RunSafe | openusdconnect/sdf_delegate_bridge.py:593-733 | in every reachable state each pending entry reflects all records since it was opened, its serial counts them, and each prepared batch belongs to a pending entry and was built from a prefix of its records |
| DelegateTracker.MarkSentIsExact | openusdconnect/sdf_delegate_bridge.py:726-733 | marking a batch sent drops pending work if and only if nothing was merged after that batch was built, although serials restart |
| DelegateTracker.PreparedCoversAll | openusdconnect/sdf_delegate_bridge.py:679-708 | a freshly prepared batch publishes, in that sense, every record of its layer's entry |
| DelegateTracker.PreparedDeliversIff | openusdconnect/sdf_delegate_bridge.py:679-708 | the batch that the tracker prepares brings such a receiver to the layer's content at each path if and only if it replaces the layer or no key was lost in that way |
| DelegateTracker.DrainRecordsAll | openusdconnect/sdf_delegate_bridge.py:629-677 | draining adds every effective record of a tracked layer to its history in order, and nothing else |
| DelegateTracker.NativeSdfLayerChangeTracker.SyncGraph | openusdconnect/sdf_delegate_bridge.py:593-614 | pending entries and prepared batches of unreachable layers go, all others stay |
| DelegateTracker.NativeSdfLayerChangeTracker.MergeRecords | openusdconnect/sdf_delegate_bridge.py:629-677 | the loop performs the merge of the drained records |
| DelegateTracker.NativeSdfLayerChangeTracker.PrepareLocalChanges | openusdconnect/sdf_delegate_bridge.py:679-708 | sync, drain and build in this order; the prepared list, rewritten by index, holds exactly one batch for each pending layer with events |
| DelegateTracker.NativeSdfLayerChangeTracker.MarkPreparedSent | openusdconnect/sdf_delegate_bridge.py:726-733 | removes the batch, refuses one that is not prepared, and drops the pending entry only at an equal serial |
| SampleDelta.DiffTimeSamples | openusdconnect/emitter.py:518-561 | the returned cache is the fingerprint of the new table, removed are the cached times without a sample, and dirty lists the changed transported samples in order |
| SampleDelta.DeltaIsExact | openusdconnect/emitter.py:518-561 | with an injective fingerprint a receiver that holds the previous table ends with the new one at every deleted time and every transported value |
| SampleDelta.DeltaKeepsCacheTrue | openusdconnect/emitter.py:551-560 | the cache stays a true statement about the receiver, also for times sent by the exact route |
| SampleDelta.RunIsExact | openusdconnect/emitter.py:518-561 | deltas compose over any run of tables and exact writes |
| SampleDelta.ExactIffInjective | openusdconnect/emitter.py:555-560 | all deltas are exact if and only if the fingerprint is injective on transported values |
| SampleDelta.SampleCaches.CollectSampleChanges | openusdconnect/emitter.py:578-609 | only the attribute's cache changes, erasures are appended for both names when they differ, and the changed samples are returned |
| SampleDelta.BothNamesAreErased | openusdconnect/emitter.py:599-607 | the receiver loses deleted times under the authored and the target name, and no other property changes |
| PrimIndex.RangeIsPrefix | openusdconnect/emitter.py:3172-3176 | the range between the prefix and the prefix with U+FFFF holds exactly the extensions whose next character is below U+FFFF |
| PrimIndex.PurgeIsExactIff | openusdconnect/emitter.py:3157-3182 | a purge removes precisely the descendants, plus the root if asked, if and only if no known child name starts at U+FFFF or above |
| PrimIndex.SupplementaryChildSurvives | openusdconnect/emitter.py:3172-3176 | a prim whose name starts beyond U+FFFF survives the purge of its parent |
| PrimIndex.RunIsMeant | openusdconnect/emitter.py:3116-3182 | while names stay below U+FFFF, every run of know, forget and purge does what the plain set would |
| PrimIndex.BisectLeft | openusdconnect/emitter.py:3173-3174 | binary search finds the leftmost insertion point of a sorted list |
| PrimIndex.KnownPrims.KnowPrim | openusdconnect/emitter.py:3116-3119 | the index stays sorted, free of repeats and equal to the set |
| PrimIndex.KnownPrims.ForgetPrim | openusdconnect/emitter.py:3121-3124 | removes one prim from both, or changes nothing |
| PrimIndex.KnownPrims.PurgeCaches | openusdconnect/emitter.py:3157-3186 | set, index and caches lose exactly the range and, if asked, the root |
| ManagedSublayers.SessionLayer.ReplaceManagedSublayers | openusdconnect/_managed_sublayers.py:10-39 | the session list becomes the managed block with identity offsets followed by the unmanaged sublayers with their offsets in order |
| ManagedSublayers.SessionLayer.Refill | openusdconnect/_managed_sublayers.py:31-39 | clearing and refilling the two lists yields block and preserved sublayers |
| ManagedSublayers.UnchangedBlock | openusdconnect/_managed_sublayers.py:25-29 | when the early return is taken the list already is the replacement |
| LogicalLayers.RunConsistent | openusdconnect/logical_layers.py:79-147 | over every run with non-empty advertised stacks the key maps are mutual inverses and the session list is the active layers in order followed by unrelated sublayers |
| LogicalLayers.InstallComposes | openusdconnect/logical_layers.py:225-256 | installing a non-empty stack composes it with the advertised mute state, whatever the stage held before |
| LogicalLayers.AppliedStateIsNewer | openusdconnect/layer_key_router.py:78-97 | an update is taken only with a newer revision or another generation, and surviving keys keep their layer |
| LogicalLayers.UnrelatedUntouched | openusdconnect/logical_layers.py:225-263 | an update with a non-empty stack keeps the sublayers and mute flags that are not the router's, in order |
| LogicalLayers.RunKeepsForeign | openusdconnect/logical_layers.py:225-263 | over every run of refused, ignored or non-empty updates the sublayers and mute flags that are not the router's stay the original ones, in order and with their offsets, and follow the block |
| LogicalLayers.ForeignKeptIff | openusdconnect/logical_layers.py:225-227 | one update keeps exactly the foreign sublayers and mute flags if and only if it advertises a layer or nothing was advertised before |
| LogicalLayers.OrphanFreeIff | openusdconnect/logical_layers.py:225-227 | an update takes every removed layer off the stage if and only if it advertises a layer or nothing was advertised before |
| LogicalLayers.RemovedIsOff | openusdconnect/logical_layers.py:225-256 | installing a non-empty stack takes a removed key's layer off the session list and out of the mute set |
| LogicalLayerRouter.LogicalLayerRouter.ApplyState | openusdconnect/layer_key_router.py:78-97 | refused and stale states change nothing; an accepted one performs the reconciliation and then commits generation, revision and readiness |
| LogicalLayerRouter.LogicalLayerRouter.ParseItems | openusdconnect/logical_layers.py:119-131 | accepts if and only if all keys are non-empty and distinct, before anything changes |
| LogicalLayerRouter.LogicalLayerRouter.InstallLayers | openusdconnect/logical_layers.py:225-256 | the stage becomes the installed view; an empty stack leaves it alone |
| LogicalLayerRouter.LogicalLayerRouter.DetachLayers | openusdconnect/logical_layers.py:258-263 | managed sublayers and their mute flags leave the stage, the rest stays |
| LogicalLayerRouter.LogicalLayerRouter.Bind | openusdconnect/layer_key_router.py:61-70 | the old stage is detached and the new one composed; binding the same stage changes nothing |
| LogicalLayerRouter.LogicalLayerRouter.Close | openusdconnect/layer_key_router.py:72-76 | the stage is detached and forgotten, the maps stay |
| LogicalLayers.RouteIsExact | openusdconnect/logical_layers.py:111-117 | in every consistent state the route of an advertised key names the layer at that key's place in the session block, with the advertised mute flag, leads back to the key, and is shared by no other key |
| RoutedRecords.RunsAreGrouping | openusdconnect/logical_layers.py:46-57 | the runs concatenate to the records in order, none is empty, and neighbours differ in target |
| RoutedRecords.GroupingIsUnique | openusdconnect/logical_layers.py:46-57 | there is no other such grouping |
| RoutedRecords.GroupingRefinesRecordsIff | openusdconnect/logical_layers.py:46-57 | for an arbitrary callback, grouping equals applying each record alone on every content and record list if and only if the callback treats a run as its pieces in order |
| RoutedRecords.BatchGroupingIff | openusdconnect/dispatcher.py:285-290 | with the batch applier as callback, for every content and record list, grouping equals applying each record alone if and only if in no run two events without a barrier between them are out of class and depth order |
| RoutedRecords.ResolveRoutes | openusdconnect/logical_layers.py:35-43 | resolution succeeds if and only if every record has a route, and yields all routes in order |
| RoutedRecords.Author.ApplyRouted | openusdconnect/logical_layers.py:46-57 | the nested loop hands over exactly the runs, each at an unmuted target, until one raises |
| RoutedRecords.Author.ApplyRoutedRecords | openusdconnect/logical_layers.py:24-57 | nothing is applied if any route fails, otherwise the runs are; the mute state afterwards is the one before, also on failure |
| ArcState.CanonicalIsIdempotent | openusdconnect/sdf_arc_state.py:106-139 | a normal form is its own normal form |
| ArcState.AppliedReadsBack | openusdconnect/sdf_arc_state.py:229-271 | applying a valid event without repeated entries and reading back gives its normal form |
| ArcState.ReadIsCanonical | openusdconnect/sdf_arc_state.py:142-206 | whatever list operation is authored, the state read from it is in normal form |
| ArcState.UnchangedIff | openusdconnect/dispatcher.py:1258-1279 | an event is reported unchanged if and only if applying it leaves the normal form of what is authored as it is |
| ArcState.EntryIsCanonical | openusdconnect/sdf_arc_state.py:63-103 | entries that pass come out in normal form, and normal entries come out unchanged |
| ArcState.CanonicalKeepsItem | openusdconnect/sdf_arc_state.py:63-103 | normalizing an accepted entry changes neither its bucket nor the item it is stored as, slashes aside |
| ArcState.BucketedTwice | openusdconnect/sdf_arc_state.py:128-134 | regrouping by bucket is stable |
| ArcState.Layer.ReadArcState | openusdconnect/sdf_arc_state.py:142-206 | the loops read the list operation bucket by bucket; no spec or no field reads as unauthored |
| ArcState.Layer.ApplyArcState | openusdconnect/sdf_arc_state.py:229-271 | refused events and unmapped paths raise and change nothing; otherwise only the target's field changes, and an unauthored state never creates a spec |
| ArcState.Layer.ArcChanged | openusdconnect/dispatcher.py:1258-1279 | compares the authored state with the event's normal form; an unmapped path counts as changed |
| PathCover.MinimalRoots | openusdconnect/composed_projection.py:1370-1377 | the loop over the sorted paths finds exactly the paths with no other listed path above them |
| PathCover.MinimalRootsCoverTheSame | openusdconnect/composed_projection.py:1370-1377 | the minimal roots are no two nested and cover exactly the paths that the given ones cover |
| PathCover.BelowTransitive | openusdconnect/composed_projection.py:158-159 | being at or below is transitive on prim path texts |
| PathCover.RootsAreNested | openusdconnect/composed_projection.py:158-159 | two roots above one path are nested |
| NativeOrdering.OrderIsPermutation | openusdconnect/composed_projection.py:1483-1530 | the result is a permutation of the events in which retained events and each root's deferred events keep their order |
| NativeOrdering.LifecycleFollowsIff | openusdconnect/composed_projection.py:1483-1530 | in every batch each lifecycle event strictly below a controlled root follows all of that root's control events, if and only if no two roots are nested |
| NativeOrdering.NestedBatchFails | openusdconnect/composed_projection.py:1504-1519 | with nested roots a lifecycle event can precede the outer root's control |
| NativeOrdering.LastControlsMeaning | openusdconnect/composed_projection.py:1496-1502 | the map records each controlled root's last control position |
| NativeOrdering.OrderNativeCompositionEvents | openusdconnect/composed_projection.py:1483-1530 | the three passes put out the events in exactly that order; without roots nothing moves |
| BacklogHold.RunIsSafe | openusdconnect/_client_lifecycle.py:118-141 | under any edits, arrivals, bounded drains, discards, flushes and failures the counter covers every message still ahead of the frozen batch, and is zero once the messages drained since the freeze make up for those queued at it plus those lost to updates that raised |
| HoldLaws.UndisturbedIsExact | openusdconnect/_client_lifecycle.py:138-141 | without discards and failures the counter equals the number of messages still ahead |
| BacklogHold.LeavesBehindIff | openusdconnect/managed_client.py:161-181 | a batch leaves with nothing left of what was queued before it was frozen if and only if it leaves by an update or a flush finds none of that queued |
| BacklogHold.JoinedBehindIff | openusdconnect/managed_client.py:150-168 | nothing is left of what was queued when the batch's last edit joined if and only if at least as many messages have left the queue since |
| BacklogHold.EditsWaitIff | openusdconnect/managed_client.py:150-168 | whatever was queued when a batch's last edit joined it is always gone when the batch leaves, by updates or altogether, if and only if there is no coalescing window |
| BacklogHold.UnlimitedUpdateWaits | openusdconnect/managed_client.py:150-155 | after an update without a limit nothing is left that was queued when its last edit joined |
| BacklogHold.RunPublishes | openusdconnect/managed_client.py:150-181 | the client's publishing part is a run of the window protocol over the same edits |
| BacklogHold.ClientConserves | openusdconnect/managed_client.py:150-181 | whatever is held, flushed, lost or refused, the delivered events mean exactly the edits in order |
| HoldLaws.DrainReleases | openusdconnect/managed_client.py:161-181 | a batch that the window hands out leaves with the update whose drain makes up for the frozen depth and the messages lost since, however much arrives |
| HoldLaws.HoldEndsIff | openusdconnect/managed_client.py:161-181 | among all runs with given counts the counter is sure to be zero if and only if the drained messages are at least the frozen depth plus the lost ones |
| HoldLaws.RaisedDrainStillHolds | openusdconnect/managed_client.py:167-181 | after an update that raised, three drained messages do not release a batch frozen behind two, although none of those two is left |
| HoldLaws.FlushLeavesAhead | openusdconnect/_client_base.py:389-399 | a transform held by the window and by one queued message leaves with a flush, ahead of that message |
| BacklogHold.ReportCovers | openusdconnect/_client_lifecycle.py:138-141 | a report keeps the counter at or above the messages still ahead whatever is delivered or discarded, and equal to them when nothing is discarded |
| ManagedClients.ManagedClient.Update | openusdconnect/managed_client.py:150-181 | prepare through the window, freeze, drain, report and send happen in this order, as one step of the modelled run; a batch is sent only while handed out and not held |
| ManagedClients.ManagedClient.Flush | openusdconnect/_client_base.py:389-399 | a flush sends what the window holds back without asking the backlog, as one step of the modelled run |
| AxisConversion.ConversionIsMultiplicative | openusdconnect/axis_conversion.py:42-75 | converting a product of rotations is multiplying the converted rotations |
| AxisConversion.ConversionKeepsNorm | openusdconnect/axis_conversion.py:68-75 | the basis change keeps the norm |
| AxisConversion.QuatsRoundTrip | openusdconnect/axis_conversion.py:68-75 | the two basis changes undo each other |
| AxisConversion.VecsAreConjugates | openusdconnect/axis_conversion.py:58-65 | the vector formulas are the basis change of the pure quaternion |
| AxisConversion.RotationCommutes | openusdconnect/axis_conversion.py:58-75 | rotating and then converting is converting and then rotating |
| AxisConversion.PlacementCommutes | openusdconnect/axis_conversion.py:58-85 | a converted translation, rotation and scale place a converted point where the original image is converted to |
| AxisConversion.StripUndoesCompose | openusdconnect/axis_conversion.py:88-107 | composing and stripping the axis rotation undo each other |
| AxisConversion.ComposedRotates | openusdconnect/axis_conversion.py:88-96 | a composed rotation is the original one followed by the vector conversion |
| AxisConversion.YupToZupQuatIs | openusdconnect/axis_conversion.py:68-70 | the conjugation swaps the imaginary parts as the vector formula does |

## Left out

- USD itself (Pcp, value resolution, schemas, edit target mapping): a layer is a prefix-closed map from paths to spec data, and what an event's applier may write is a footprint per event kind; child order under a prim is not tracked.
- The behaviour of `Sdf.CopySpec` under a missing destination parent is not in the repository, so both readings are proved.
- BatchRollback.ScopeSufficesIff: the prim of an event is a path without variant selections and properties; what an event may do is bounded by its footprint, taken from its applier, and a prim composes when the edited layer holds it: values, definitions in other layers of the stage, and inactive ancestors (below which a prim in the layer does not compose) are not tracked. That a rename fills its new name for certain is not used, since it does nothing when the layer lacks the old one.
- `_AtomicApply` and composition-mapped edit targets take a snapshot of the whole layer, which needs no scope argument.
- FlatBuffers layout, framing, sockets, threads, tokens and reconnect timing: messages are typed values and the network is an adversary that may hand over any list of them; a message numbered n is only assumed to carry entry n of the current epoch's log, and the number 0 is excluded because it bypasses deduplication (`openusdconnect/codec.py:1994`). A resync behind a decode error does not count as read: the replay that follows is assumed to be led by the resync again, which is the server's part of the handshake.
- `discard_unsent` rebinds and `publish_current_edit_target` of the publishing clients.
- The dispatcher's apply pipeline is an adversary that may fail after any prefix; the projection safety check inside it is not modelled, and of the router synchronisation before it only whether it raises.
- The emitter's building of events from notices: the dirty state is the list of events that building would return; edit target conflicts, `discard_prepared_events` and `recover_use_server` (explicitly lossy) are not modelled.
- Event dictionaries are objects, fresh for each build and so pairwise distinct; an alias between a pending and an incoming dictionary is not modelled.
- ApplyOrder.Stage.ApplyEvents: `op_cache`, event validation and the dropping of instance proxies are not modelled; an applier that raises leaves a prefix of the order.
- DelegateTracker.PendingIff: entries are values in a map and a layer is its identifier; what a layer holds at a path when a batch is built is a parameter, and a batch is the set of its events. The expansion of renamed paths is not modelled, because merging never sets that flag. The order of the prepared list is not specified; the topology rebinding of batches exists on values only.
- LogicalLayerRouter.LogicalLayerRouter.ApplyState: labels and layer contents are not modelled, identifiers of new layers are a parameter that is fresh by assumption; `synchronize_from` is a step on values only.
- Dispatcher.EventDispatcher.RequestReplayFrom: dropping the queued frames, the identity of the received prefix and the connection enter through what later drains hand over.
- SpecDelivery.DeliveredIff: a record speaks for its own path, so what goes with a deleted ancestor is not followed; the time samples are one field among the others, and field values are opaque.
- RoutedRecords.GroupingRefinesRecordsIff: for an arbitrary callback the condition is the callback's own law over pieces of a run; `RoutedRecords.BatchGroupingIff` is the condition that can be tested.
- RoutedRecords.Author.ApplyRoutedRecords: the callback is a function of the content, the target and the run; that it leaves the mute state alone is part of that form.
- ArcState.AppliedReadsBack: reference custom data is opaque with a text form that round-trips; path texts are assumed to be in the form that a path prints as; repeated entries in one bucket are excluded because what a list operation keeps of them is USD's.
- SampleDelta.RunIsExact: fingerprints and transported forms are parameters; hash collisions are the non-injective case, and not-a-number times are not modelled.
- PrimIndex.KnownPrims.PurgeCaches: the per-spec caches of `_purge_sdf_paths` are not modelled.
- NativeOrdering.OrderNativeCompositionEvents: an event is its kind, its prim and one opaque text for all other fields.
- ManagedClients.ManagedClient.Update: network traffic enters as parameters between the client's own steps; closing the client during the drain is not modelled.
- AxisConversion.ComposedRotates: exact reals with any h whose square is one half stand for floating point numbers.
- Storage, command line, plugin setup, shading, adapters, observers and status values: plumbing, or branch tables that one reading settles.

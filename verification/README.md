# Debrute: state machines, protocols and encodings

A Dafny 4.11 model of the parts of Debrute whose correctness is not visible in one function, and
proofs of what they promise. Every model is either a transition system whose step is one critical
section, one callback or one stretch of code between awaits, with statements about every run, or the
code's own loop proved against a definition. Where the code changes fields, a class with those fields
is proved to take the steps of the transition system and to keep its invariant, so that what is proved
of every reachable state holds of the object between its methods.

`dafny verify dfyconfig.toml` checks everything.

## What is modelled

- **Model Operations** (`OperationRecord`, `OperationProtocol`, `OperationInvariant`,
  `OperationPreservation`, `OperationRegistry`, `OperationTheorems`, `OperationOutcomes`,
  `OperationShown`, `OperationProgress`, `OperationBindings`, `OperationCommits`, `OperationLock`,
  `OperationWait`, `OperationListing`, `ObserverDispatch`, `OperationObservers`, `OperationRefinement`,
  `OperationService`). The worker, the batch threads, any number of cancellers, waiters and observers of
  any number of Operations, interleaved at their locks and atomics. The executor's results are free.
  `OperationService` is the object with the registry's fields; `OperationRefinement` says what a step of
  the registry is to those fields, and each of the object's methods is proved to take its step. The fields
  `history`, `begun`, `abandoned`, `discarded` and `retains` of a Cell only record what happened: no step
  reads them. `observed` records the observations prepared; the registry's step reads it only to pass a
  new observation on.
- **Activity log** (`ActivityLog`, `ActivityService`, `ActivityPublication`): records, event stream,
  ordered publication, and the Workbench client that rebuilds the list.
- **Desktop window host** (`WindowHostModel`, `WindowHostSafety`, `WindowHostLaws`, `WindowHost`): the
  promise pairs of `openWindow` as tokens that move between queue, requests and records.
- **Photoshop plugin** (`DirectoryLists`, `DirectoryCache`, `DirectoryCacheSafety`, `DirectoryCacheLaws`,
  `DirectoryRuntime`, `ExportPipeline`, `CanvasPixels`, `RuntimeConnectionModel`,
  `RuntimeConnectionSafety`, `RuntimeConnectionLaws`, `RuntimeConnectionObject`): the revisioned directory
  cache, export from pixels to settlement, and the connection with its rounds, timers, sockets and leases.
- **Runtime control client** (`ControlFrames`, `ControlClient`): framing, requests and writes.
- **Encodings** (`AgentValues`, `AgentRecords`, `AgentReader`, `Crc32`, `PngLayout`, `PngEncoder`,
  `CommandLine`): Agent Records, PNG (RFC 2083), Windows command-line arguments, each with a reader.
- **Worker processes** (`ProcessOutput`, `ProcessAdmission`): bounded output and admission.

`Options`, `TextOrder`, `Flattening` and `BigEndian` are shared.

A `Safety` module proves what every reachable state keeps; a `Laws` module, and `OperationOutcomes` and
`OperationShown` likewise, prove what each event leads to, said of the state before and after it or of the
history, without the functions that compute the step.

## What the proofs found

- A Batch can stay Cancelling for ever: a cancel accepted after the worker found the flag clear and before
  it writes Succeeded. `OperationTheorems.StuckExactly` says exactly when, `StuckHappens` gives a run.
- The Workbench client keeps the Runtime's records but not their order: it appends what the Runtime
  puts in front. `ActivityLog.ClientOrderExactly` says when over a whole run, `ClientOrder` for one change,
  and `ClientOrderIsLost` gives two records.
- A frame reader may hold bytes no frame starts with: it judges a length only when all four bytes of it
  are there. `ControlFrames.RestStartsFrameExactly` says exactly when, `RestThatStartsNoFrame` gives a byte.
- A waiter is not woken for the commit warnings of a Batch item, which leave the change counter as it is:
  it sees those diagnostics with the next change. `OperationWait.SleepMissesNothing` says exactly when,
  `WarningIsMissed` gives a run.
- An old socket that opens late still arms the timer of its session start, which then does nothing
  (`RuntimeConnectionSafety.OldSocketsChangeNothing`).
- `RuntimeConnection.stop` leaves `immediateReconnect` set, so the announcement of an older session
  can decide how a later one is followed: `RuntimeConnectionSafety.ReconnectsAtOnce` says exactly when,
  `AnnouncementOutlivesStop` gives a run.
- An Agent Record can print a log and a field named `log` alike: `AgentReader.LogMistakenExactly` says
  exactly when, `LogIsMistaken` gives two results. The Runtime's own commands put a field of that name into
  records only, never into a result, so none of their results is ambiguous.
- The bounded tail reports truncation for one push of exactly the limit: `ProcessOutput.FalseAlarmExactly`
  says exactly when, `FalseAlarmHappens` gives a push. The reader of a process pushes at most 8192 bytes
  at a time, so this needs an output limit no larger than that; the default limit is 65536.
- The PNG length and dimension fields wrap at 2^32: `PngLayout.ChunkReadsBack` and
  `PngEncoder.PngReadsBack` say exactly when, `LongChunkDoesNotReadBack` gives a chunk.
- In `openRequestedWindow` the branch for a record that is still opening cannot be reached, since open
  operations run one after the other (`WindowHostSafety.NoCreationIsForgotten`).

## Assumptions

- Identifiers are fresh: no submission, request, item, caller or native window is given an identifier
  that was given out before.
- Counters do not overflow: sequence numbers, revisions and change counters are unbounded here, where the
  code panics at 2^64.
- The executor, observers and callbacks do not call back into the service they are called from, except a
  plugin message handler whose failing send retires its session.
- A plugin snapshot names each Project once, and no Project goes back in revision from one snapshot to
  the next; a directory answer names each directory once, as the protocol's parser demands.
- No Project root holds a NUL, as no path does, where the pages of different Projects must not be mixed up
  (`PlainRoots` in `DirectoryCacheLaws`).
- Names and keys of Agent Records are identifiers, and a number prints without blanks, quotes, `=` or
  backslashes.
- A step of the Operation protocol asks that no `expect` fails; `OperationTheorems.NeverPanics` proves
  that this excludes nothing.

## Model

| member | source | states |
|---|---|---|
| `OperationTheorems.NoCommitAfterCancel` | apps/runtime/src/model_operation.rs:887-936 | once `cancel` has answered Cancelling or Cancelled, no later step of any thread calls the executor's commit for that Operation, in every interleaving |
| `OperationTheorems.SingleCommitStands` | apps/runtime/src/model_operation.rs:1044-1079 | a Single Operation's commit succeeded exactly when it ended Succeeded with that commit's artifacts, although the final write does not look at the state; how it ends otherwise is `OperationOutcomes.SingleEnding` |
| `OperationTheorems.ItemCommitStands` | apps/runtime/src/model_operation.rs:1189-1214 | at any moment an item's commit has succeeded exactly when one Succeeded outcome shows its artifacts or a thread is about to settle it with them; once the threads are done only the outcome is left; no item has two outcomes |
| `OperationCommits.CommitAtMostOnce` | apps/runtime/src/model_operation.rs:1044-1209 | in every interleaving the executor's commit is called at most once for an item, and only for an item that was begun (item 0 of a Single) |
| `OperationLock.HolderReleases` | apps/runtime/src/model_operation.rs:887-936 | whoever holds a completion lock gives it back after at most five steps of its own, and no step of anybody else takes it away or sets it back |
| `OperationLock.HolderCanMove` | apps/runtime/src/model_operation.rs:1041-1079 | and its next step is always enabled, whatever the executor answers |
| `OperationProgress.StepsAreBounded` | apps/runtime/src/model_operation.rs:987-1341 | termination: over any run, with any number of cancellers, the worker and the threads of an Operation together take at most 11 + 2 · concurrency + 10 · items steps, whatever the executor answers |
| `OperationProgress.SomebodyCanMove` | apps/runtime/src/model_operation.rs:987-1341 | no deadlock: as long as the worker of an Operation is not gone, a step of its own threads or of the holder of its completion lock can be taken in every reachable registry |
| `OperationTheorems.BatchConservation` | apps/runtime/src/model_operation.rs:1157-1269 | each index is begun at most once and is then in one thread's hands, in one outcome, or discarded after an accepted cancel; begun = active + succeeded + failed + discarded; succeeded + failed = number of outcomes; active never exceeds the concurrency |
| `OperationTheorems.NeverPanics` | apps/runtime/src/model_operation.rs:1011-1026 | no reachable step of any thread finds the condition of an `expect` (taken binding, active count) false |
| `OperationTheorems.SucceededBatchIsComplete` | apps/runtime/src/model_operation.rs:1271-1292 | a Succeeded Batch has nothing active and exactly one outcome for every item |
| `OperationTheorems.BatchEnding` | apps/runtime/src/model_operation.rs:1140-1155 | the final state and log of a Batch whose worker ran are the function `Ending` of its history: cancel accepted or not, flag found clear or not, first failure of its own after the cancel |
| `OperationOutcomes.SingleEnding` | apps/runtime/src/model_operation.rs:1011-1079 | the counterpart for a Single: its final state and log are fixed by what it was answered along its run. Succeeded exactly when the commit succeeded; Failed, with that error's log, when run, stage or commit answered an error of its own, or the start was lost before a cancel; Cancelled when the error answered was a cancellation, or a cancel came before any work |
| `OperationOutcomes.OutcomesShowAnswers` | apps/runtime/src/model_operation.rs:1216-1269 | every outcome of a Batch shows what was answered for its own item: the staged artifacts if the commit succeeded, else the log of the first error, and the item's own model |
| `OperationOutcomes.SettledAsAnswered` | apps/runtime/src/model_operation.rs:1189-1269 | an item is settled with what run, stage and commit answered for it, shown or not, so the failure a cancelled Batch reports is one the executor answered |
| `OperationShown.SubmissionIsKept` | apps/runtime/src/model_operation.rs:607-686 | an Operation keeps the shape, the models and the concurrency it was submitted with, whatever runs, and its Batch has that many threads |
| `OperationShown.WarningsAreCounted` | apps/runtime/src/model_operation.rs:1447-1518 | once the threads are gone the two failure counts are the sums of what the commits of that Operation reported, each of its own kind |
| `OperationShown.TerminalIsShown` | apps/runtime/src/model_operation.rs:479-504 | the last observation prepared for a terminal Operation shows its record field by field: state, artifacts, outcomes, active, succeeded and failed, log and failure counts |
| `OperationShown.CancelAnswersExactly` | apps/runtime/src/model_operation.rs:887-936 | what `cancel` answers and writes for every state it may find, and that the answer shows the record as it is then |
| `OperationShown.ThreadGoesOn` | apps/runtime/src/model_operation.rs:1094-1187 | a Batch thread looks for work until a cancel was accepted, claims the items in order and each once, and begins the one it claimed exactly if no cancel was accepted before |
| `OperationBindings.BindingsAreReleased` | apps/runtime/src/model_operation.rs:506-510 | in every reachable registry a terminal Operation holds no Model binding, an active Batch exactly those of the items not begun, and a Single its own until its worker takes it and not while it uses it |
| `OperationTheorems.StuckExactly` | apps/runtime/src/model_operation.rs:1150-1277 | a Batch whose worker is gone stays Cancelling exactly when a cancel was accepted after the worker had found the flag clear; nothing is active then and every item is settled |
| `OperationTheorems.StuckForever` | apps/runtime/src/model_operation.rs:1271-1292 | no later step of any thread takes such a Batch out of Cancelling |
| `OperationTheorems.StuckHappens` | apps/runtime/src/model_operation.rs:1150-1277 | a concrete run of a one-item Batch ends that way |
| `OperationTheorems.TerminalIsAbsorbing` | apps/runtime/src/model_operation.rs:900-933 | a terminal record is never changed by any step, and a terminal state is entered at most once |
| `OperationTheorems.RetentionIsSound` | apps/runtime/src/model_operation.rs:1343-1354 | the retention queue holds at most 100 ids, none twice, all of them of terminal Operations that the registry still holds; an Operation is retained at most once and an active one is never evicted |
| `OperationTheorems.RegistryAtQuiescence` | apps/runtime/src/model_operation.rs:1343-1354 | with no retention under way an id is in the registry exactly when it is active or in the queue |
| `OperationTheorems.PreparedIsPath` | apps/runtime/src/model_operation.rs:1370-1386 | the snapshots prepared for one Operation are a path of its state machine from Queued to its present state, with counters that never go down |
| `OperationRegistry.StepKeepsInv` | apps/runtime/src/model_operation.rs:887-1354 | every submission and every step of every thread of every Operation keeps the whole-registry invariant |
| `OperationRegistry.ReachableInv` | apps/runtime/src/model_operation.rs:607-1354 | the whole-registry invariant holds after every run |
| `OperationPreservation.ActionKeepsInv` | apps/runtime/src/model_operation.rs:887-1341 | every critical section keeps the invariant of one Operation: locks, phases, counts, histories, retention, observations |
| `ObserverDispatch.DeliveredInOrder` | apps/runtime/src/model_operation.rs:1388-1426 | at most one publisher drains; revisions are delivered 1, 2, 3, … without gap or repeat; while nobody drains the next revision is not queued |
| `ObserverDispatch.NeverQueuedTwice` | apps/runtime/src/model_operation.rs:1391-1397 | the assertion that a revision is not queued twice never fires |
| `ObserverDispatch.CalledExactly` | apps/runtime/src/model_operation.rs:1370-1426 | over any run, the observer is called with a delivered revision exactly if it was installed before that revision was prepared |
| `ObserverDispatch.AllDeliveredAtQuiescence` | apps/runtime/src/model_operation.rs:1388-1426 | when every publisher has returned, every prepared revision was delivered and the queue is empty |
| `OperationWait.Wait` | apps/runtime/src/model_operation.rs:841-880 | the wait loop ends Terminal, NotFound or Disconnected at the poll, and with the outcomes forwarded, that its polls and callbacks determine; it goes past a poll only if every callback accepted |
| `OperationWait.WaitIsDetermined` | apps/runtime/src/model_operation.rs:841-880 | polls and answers of the callbacks leave the loop exactly one way to come out |
| `OperationWait.SleepMissesNothing` | apps/runtime/src/model_operation.rs:1428-1438 | while a waiter sleeps on the change it polled, the record has no outcome that was not forwarded and shows what it showed then, except that the diagnostics differ exactly when a Batch item recorded commit warnings in between |
| `OperationWait.WarningIsMissed` | apps/runtime/src/model_operation.rs:1199-1212 | a run in which that happens |
| `OperationWait.PollsGrow` | apps/runtime/src/model_operation.rs:841-880 | for any interleaving the outcomes a waiter polls only grow, so what it delivered stays a prefix |
| `OperationWait.WaitDeliversEverything` | apps/runtime/src/model_operation.rs:841-880 | a wait over the polls of any run that ends on a terminal snapshot has forwarded all the outcomes the Operation will ever have, each item at most once, as many as succeeded + failed |
| `OperationObservers.ToldIsPath` | apps/runtime/src/model_operation.rs:1370-1426 | registry and dispatcher interleaved: the calls an observer gets for one Operation are a stretch of its path of snapshots, each following the one before; they reach the present state once every publisher returned, and start at Queued if the observer was there throughout |
| `OperationService.ModelOperationService.Submit` | apps/runtime/src/model_operation.rs:607-686 | a submission under a fresh id is the Submit step of the registry the fields represent; what it publishes is what that step prepared |
| `OperationService.ModelOperationService.Execute` | apps/runtime/src/model_operation.rs:987-1009 | entered when it is due in a reachable registry that the fields represent, it takes the Execute step, publishes what the step prepared, and answers with the branch the worker then takes |
| `OperationService.ModelOperationService.TakeSingleBinding` | apps/runtime/src/model_operation.rs:1011-1035 | likewise the first critical section of execute_single; its `expect` never fails |
| `OperationService.ModelOperationService.BatchSize` | apps/runtime/src/model_operation.rs:1081-1092 | likewise the first critical section of execute_batch: it starts as many threads as the protocol's step |
| `OperationService.ModelOperationService.BeginItem` | apps/runtime/src/model_operation.rs:1157-1187 | entered when it is due in a reachable registry that the fields represent, it takes the begin step, its `expect` never fails, and the thread gets an item exactly if it then executes it |
| `OperationService.ModelOperationService.FinishItem` | apps/runtime/src/model_operation.rs:1216-1269 | entered when it is due in a reachable registry that the fields represent, it takes the settle step, its `expect` never fails, and it publishes the settled snapshot |
| `OperationService.ModelOperationService.RecordCommitWarnings` | apps/runtime/src/model_operation.rs:1507-1518 | entered when it is due in a reachable registry that the fields represent, it takes the warning step and publishes nothing |
| `OperationService.ModelOperationService.SucceedSingle` | apps/runtime/src/model_operation.rs:1049-1068 | entered when it is due in a reachable registry that the fields represent, the unconditional write is the write step of the protocol |
| `OperationService.ModelOperationService.FinishSucceededBatch` | apps/runtime/src/model_operation.rs:1271-1292 | entered when it is due in a reachable registry that the fields represent, it takes the last step of an uncancelled Batch and goes on to retain exactly if the protocol does |
| `OperationService.ModelOperationService.FinishCancelled` | apps/runtime/src/model_operation.rs:1294-1316 | the same for a worker that ends Cancelled |
| `OperationService.ModelOperationService.FinishFailed` | apps/runtime/src/model_operation.rs:1318-1341 | the same for a worker that fails, or never started |
| `OperationService.ModelOperationService.CancellationFailure` | apps/runtime/src/model_operation.rs:1140-1149 | entered when it is due in a reachable registry that the fields represent, it reads the failure on which the worker branches |
| `OperationService.ModelOperationService.CancelRecord` | apps/runtime/src/model_operation.rs:895-924 | entered when it is due in a reachable registry that the fields represent, it takes the linearization step of `cancel`, gives the answer that step logs, and goes on to retain exactly if the protocol does |
| `OperationService.ModelOperationService.RetainTerminal` | apps/runtime/src/model_operation.rs:1343-1354 | the retention loop leaves the newest 100 of the queue, removes the others' records, and is the retention step of the worker or the canceller |
| `OperationService.ModelOperationService.PublishObserved` | apps/runtime/src/model_operation.rs:1388-1426 | the drain loop calls the observer for exactly the queued revisions from the next one up to the first gap |
| `OperationRefinement.ActionIsStep` | apps/runtime/src/model_operation.rs:1370-1386 | an action that is due raises no panic; to the fields it is one record rewritten, if still held, and at most one observation prepared |
| `OperationRefinement.OtherActionsTouchNothing` | apps/runtime/src/model_operation.rs:987-1155 | the actions that are no method of the object leave its fields as they are |
| `OperationService.Gap` | apps/runtime/src/model_operation.rs:1388-1426 | the first revision that is not queued: every one before it is |
| `OperationListing.PageIsNewest` | apps/runtime/src/model_operation.rs:943-985 | a page is the newest eligible Operations, newest first, at most `limit`; there is a next cursor exactly when one was left over, and it separates what was listed from what was not |
| `OperationListing.WalkDescends` | apps/runtime/src/model_operation.rs:943-985 | a walk through the pages lists in strictly decreasing sequence, so nothing twice, whatever changes between the pages |
| `OperationListing.WalkIsComplete` | apps/runtime/src/model_operation.rs:943-985 | an Operation retained and matching at every page of a walk is listed by it |
| `OperationListing.RegistryHasDistinctSequences` | apps/runtime/src/model_operation.rs:638-646 | the retained Operations of every reachable registry have distinct sequence numbers |
| `OperationListing.CursorReadsBack` | apps/runtime/src/model_operation.rs:1356-1364 | a cursor is read back by its own Runtime for every identifier and every 64-bit sequence, and refused by every other |
| `ActivityLog.SnapshotPlusLaterEvents` | apps/runtime/src/activity.rs:317-323 | a snapshot at any revision followed by the later events gives the current records |
| `ActivityLog.ClientHoldsTheRecords` | apps/web/src/workbench/services/WorkbenchActivities.ts:205-252 | from the same snapshot, the Workbench client always holds exactly the Runtime's records |
| `ActivityLog.ClientOrder` | apps/web/src/workbench/services/WorkbenchActivities.ts:249-252 | but from equal lists in the Runtime's order exactly when the change adds no new record to a list that holds any |
| `ActivityLog.ClientOrderExactly` | apps/web/src/workbench/services/WorkbenchActivities.ts:205-252 | after any events the order is the Runtime's exactly when no record added since the snapshot is left, or only one record is left at all |
| `ActivityLog.ClearTerminalIsRemove` | apps/runtime/src/activity.rs:497-521 | keeping the active tasks is the same as removing the terminal ids that the event names |
| `ActivityService.ActivityService.Insert` | apps/runtime/src/activity.rs:523-553 | a new record goes to the front and its event replays to the new list |
| `ActivityService.ActivityService.UpsertTask` | apps/runtime/src/activity.rs:361-428 | a task is replaced in place or inserted, or refused; the events replay to the records in every case |
| `ActivityService.ActivityService.UpdateTask` | apps/runtime/src/activity.rs:430-473 | an update changes the active task in place and refuses the others |
| `ActivityService.ActivityService.DismissTerminal` | apps/runtime/src/activity.rs:475-495 | only a terminal record is removed, by an event that removes just its id |
| `ActivityService.ActivityService.ClearTerminal` | apps/runtime/src/activity.rs:497-521 | the loop keeps exactly the active tasks and emits the removed ids, or nothing |
| `ActivityService.ActivityService.SyncSnapshot` | apps/runtime/src/activity.rs:317-323 | a snapshot is the records together with their revision |
| `ActivityPublication.PublishedInOrder` | apps/runtime/src/activity.rs:555-577 | revisions are published 1, 2, 3, …, the assertion never fires, and the next revision is always held by a publisher whose step publishes it |
| `ActivityPublication.EveryChangeIsCarried` | apps/runtime/src/activity.rs:523-577 | every change takes the next revision, and a publisher that carries it |
| `ActivityPublication.SubscriberCatchesUp` | apps/runtime/src/workbench/routes.rs:200-264 | a subscriber that takes its snapshot after subscribing, at any point of publication, and drops the events up to that snapshot, holds the records of the later of the snapshot and the last event published |
| `WindowHostSafety.CreationsAreLinear` | apps/desktop/src/electron/desktopWindowHost.ts:112-136 | at every await each creation is in exactly one of the queue, a pending request, a window record, the settled ones; no settlement is attempted twice |
| `WindowHostSafety.NoCreationIsForgotten` | apps/desktop/src/electron/desktopWindowHost.ts:171-277 | pending and record keys are disjoint, a pending request has an operation coming for it, and a record that holds a creation is the one whose load is awaited |
| `WindowHostSafety.QuietCreations` | apps/desktop/src/electron/desktopWindowHost.ts:198-277 | with no open operation left, an unsettled creation still waits in the queue |
| `WindowHostSafety.ShutdownSettlesAll` | apps/desktop/src/electron/desktopWindowHost.ts:373-398 | every creation made before the Desktop shuts down is settled, and no request or record is left |
| `WindowHostSafety.LateCreationIsRejected` | apps/desktop/src/electron/desktopWindowHost.ts:112-136 | a creation made after the shutdown, which closes the control channel, is rejected once its activation is answered; until then it is queued, the answer can only be a refusal, and that refusal rejects it |
| `WindowHostSafety.LateCreationWaits` | apps/desktop/src/electron/desktopWindowHost.ts:112-136 | and of all steps nothing but that refusal settles it |
| `WindowHostSafety.ExitKeeps` | apps/desktop/src/electron/desktopWindowHost.ts:373-398 | shutting down empties every place and settles each creation once, wherever it was |
| `WindowHostLaws.ResolvedExactly` | apps/desktop/src/electron/desktopWindowHost.ts:250-277 | over any run, a creation is settled with window `id` exactly if, before, the load of record `id`, which held it, succeeded while that record was current, its window not destroyed and the Desktop not shutting down; any other settlement is a rejection |
| `WindowHostLaws.StepSettles` | apps/desktop/src/electron/desktopWindowHost.ts:112-416 | one step: such a load resolves its creation and leaves the record live under the root it had; every other settlement of any step is a rejection, and none is changed later |
| `WindowHostLaws.OpensItsRoot` | apps/desktop/src/electron/desktopWindowHost.ts:112-125 | the window that opens for a creation opens for the Project root that creation was made with |
| `WindowHostLaws.RequestServesOldest` | apps/desktop/src/electron/desktopWindowHost.ts:182-196 | a request for a window that is neither there nor asked for takes over the creation that waits longest, with its root, and leaves the others in the queue; every other request takes none; the operation goes to the end of the chain |
| `WindowHostLaws.StartsExactly` | apps/desktop/src/electron/desktopWindowHost.ts:204-226 | the next operation is over at once if its window is there, and awaits its ticket otherwise, with the request kept; a destroyed window is forgotten first |
| `WindowHostLaws.OperationGoesOn` | apps/desktop/src/electron/desktopWindowHost.ts:204-334 | where each step leaves the running operation: from ticket to load, to the cleanup exactly if the opening fails, else over; no outside event touches it |
| `WindowHostLaws.FailureForgets` | apps/desktop/src/electron/desktopWindowHost.ts:264-311 | an opening that fails leaves neither window nor request for its key, destroys the window it had and no other, and touches no other key |
| `WindowHostLaws.NothingElseDestroys` | apps/desktop/src/electron/desktopWindowHost.ts:400-416 | only a failed opening, the end of the Desktop and the outside world destroy windows |
| `WindowHostLaws.OldWindowsChangeNothing` | apps/desktop/src/electron/desktopWindowHost.ts:336-340 | the load or the close of a window that is no longer its key's present one changes nothing, but that the operation waiting for that load is over |
| `WindowHostLaws.EndsExactly` | apps/desktop/src/electron/desktopWindowHost.ts:311-398 | which steps end the Desktop: a failed report, the end of the product, a failed cleanup, and a cleanup or a close that leaves no window; the open windows are destroyed then |
| `WindowHostLaws.FocusIsRemembered` | apps/desktop/src/electron/desktopWindowHost.ts:279-300 | a focus request is remembered by the request or the opening window of its key and changes nothing else, and the window takes over what its request remembers |
| `WindowHostSafety.StepKeepsInv` | apps/desktop/src/electron/desktopWindowHost.ts:112-416 | every stretch of code between awaits keeps the invariant |
| `WindowHost.DesktopWindowHost.OpenWindow` | apps/desktop/src/electron/desktopWindowHost.ts:112-125 | takes the step of that name and keeps the creations linear: the new creation is in the queue, under a token never used, and unsettled |
| `WindowHost.DesktopWindowHost.ActivationFailed` | apps/desktop/src/electron/desktopWindowHost.ts:126-135 | a creation whose activation failed is rejected exactly if it is still queued; the creations stay linear |
| `WindowHost.DesktopWindowHost.ReceiveOpenRequested` | apps/desktop/src/electron/desktopWindowHost.ts:171-196 | takes the step of that name and keeps the creations linear while the oldest moves from the queue to the request |
| `WindowHost.DesktopWindowHost.TicketArrived` | apps/desktop/src/electron/desktopWindowHost.ts:204-250 | takes the step of that name and keeps the creations linear while one moves from the request to the record, or is rejected |
| `WindowHost.DesktopWindowHost.LoadSettled` | apps/desktop/src/electron/desktopWindowHost.ts:250-277 | takes the step of that name and keeps the creations linear: the record's creation is resolved or rejected, once; which of the two is `WindowHostLaws.ResolvedExactly` |
| `WindowHost.DesktopWindowHost.HandleWindowClosed` | apps/desktop/src/electron/desktopWindowHost.ts:336-349 | takes the step of that name and keeps the invariant, also when the last window ends the Desktop |
| `WindowHost.DesktopWindowHost.ExitDesktopOnly` | apps/desktop/src/electron/desktopWindowHost.ts:373-398 | the three loops of the shutdown, in any order, settle every creation made so far exactly once and leave what the model's exit leaves |
| `DirectoryCacheSafety.PagesAreCoherent` | apps/photoshop-uxp-plugin/src/PhotoshopPluginRuntime.ts:521-661 | all pages of a Project carry the live revision, or while a request is pending its base, which the live one exceeds by one at most; a loading page is one the pending request asks for; no directory has two pages; no page outlives its Project |
| `DirectoryCacheSafety.RequestsAreLive` | apps/photoshop-uxp-plugin/src/PhotoshopPluginRuntime.ts:191-245 | a pending request is for a live Project, and an answer set aside for it is ahead of that Project |
| `DirectoryCacheSafety.DestinationIsCurrent` | apps/photoshop-uxp-plugin/src/PhotoshopPluginRuntime.ts:93-108 | a destination in a live Project carries its revision, so it resolves exactly when its directory is the root or a loaded child; while the Project is ahead of a pending request only the root resolves |
| `DirectoryCacheSafety.AnswersOnlyAnswer` | apps/photoshop-uxp-plugin/src/PhotoshopPluginRuntime.ts:572-661 | an answer that fits puts exactly its pages in place and promotes the others; any other answer adds and changes no page and drops at most those of its own Project |
| `DirectoryCacheSafety.KeysTellSlotsApart` | apps/photoshop-uxp-plugin/src/PhotoshopPluginRuntime.ts:851-864 | the key pages are replaced by tells directories apart as long as no Project root holds a NUL |
| `DirectoryCacheSafety.StepKeepsInv` | apps/photoshop-uxp-plugin/src/PhotoshopPluginRuntime.ts:191-661 | every message, request, choice and change of connection keeps the cache coherent |
| `DirectoryCacheSafety.HandleSnapshotKeeps` | apps/photoshop-uxp-plugin/src/PhotoshopPluginRuntime.ts:521-570 | so does a snapshot with all its four loops, deferred answers and renewed requests |
| `DirectoryCacheLaws.SelectsExactly` | apps/photoshop-uxp-plugin/src/PhotoshopPluginRuntime.ts:259-277 | a directory that is the root of a live Project, or listed by the loaded page above it, becomes the destination: exactly that root and directory under the live name and revision, and it resolves; every entry above it is expanded, no other is added, and nothing else changes. Any other choice changes nothing |
| `DirectoryCacheLaws.ActivatesExactly` | apps/photoshop-uxp-plugin/src/PhotoshopPluginRuntime.ts:247-257 | activating selects likewise and turns the entry of the directory: collapsed if it was expanded, and otherwise expanded and its directory asked for; no entry but those above it changes |
| `DirectoryCacheLaws.ExpandsExactly` | apps/photoshop-uxp-plugin/src/PhotoshopPluginRuntime.ts:279-293 | expanding an entry that may be chosen and is not expanded adds it and the entries above it, and asks for just its directory; anything else changes nothing |
| `DirectoryCacheLaws.RequestsExactly` | apps/photoshop-uxp-plugin/src/PhotoshopPluginRuntime.ts:191-245 | a request goes out exactly when the connection is ready, the Project live, none pending for it, a session there and something to ask for; it asks for exactly those directories, once each, at the live revision, which then show as loading; a send that fails takes the connection with it |
| `DirectoryCacheLaws.AnswersExactly` | apps/photoshop-uxp-plugin/src/PhotoshopPluginRuntime.ts:572-661 | an answer that is not expected changes nothing; one ahead of the live Project is set aside whole; one behind, stale or about other directories gives up the request and the pages; any other puts its pages in place with their children and messages, drops exactly the entries known to be missing, and keeps the destination unless it is |
| `DirectoryCacheLaws.DeferredIsApplied` | apps/photoshop-uxp-plugin/src/PhotoshopPluginRuntime.ts:562-567 | an answer set aside is applied when a snapshot brings its revision, as it would have been had it come then |
| `DirectoryCacheLaws.DueAnswerShows` | apps/photoshop-uxp-plugin/src/PhotoshopPluginRuntime.ts:521-570 | and in the end its loaded pages show and its request is done, unless the connection is lost on the way |
| `DirectoryCacheLaws.SnapshotKeepsPages` | apps/photoshop-uxp-plugin/src/PhotoshopPluginRuntime.ts:521-541 | a snapshot leaves the pages of a Project alone that is live at the same revision or waits for an answer that is not due |
| `DirectoryCacheLaws.SnapshotMovesChoice` | apps/photoshop-uxp-plugin/src/PhotoshopPluginRuntime.ts:521-570 | a snapshot moves the destination along with its Project, name and revision, drops it with a Project that is gone, and keeps entries expanded; only an answer that is due can end either besides |
| `DirectoryCacheLaws.SnapshotAsksAgain` | apps/photoshop-uxp-plugin/src/PhotoshopPluginRuntime.ts:562-570 | a snapshot leaves nothing unasked: for every Project whose request can be sent, a request is pending afterwards or no directory is wanted, unless the connection is lost on the way |
| `DirectoryCacheLaws.ConnectionExactly` | apps/photoshop-uxp-plugin/src/PhotoshopPluginRuntime.ts:475-486 | a connection that gets ready opens a new session and keeps the cache; one that is not ready leaves no request, Project or page, but the choice of the user |
| `DirectoryLists.SameDirectorySetMeans` | apps/photoshop-uxp-plugin/src/PhotoshopPluginRuntime.ts:878-881 | for a request without repetition the comparison is exactly: as many directories, and the same ones |
| `DirectoryLists.UniqueIs` | apps/photoshop-uxp-plugin/src/PhotoshopPluginRuntime.ts:792-794 | sorting the unique directories keeps each once, in order, and drops none |
| `DirectoryLists.AncestorsOf` | apps/photoshop-uxp-plugin/src/PhotoshopPluginRuntime.ts:904-907 | the ancestors of a directory are its prefixes at each slash, and the last is its parent |
| `DirectoryCache.Upsert` | apps/photoshop-uxp-plugin/src/PhotoshopPluginRuntime.ts:851-864 | a page is in the result if it is new, or was there and its key is not replaced |
| `DirectoryCache.UpsertIsOrdered` | apps/photoshop-uxp-plugin/src/PhotoshopPluginRuntime.ts:851-864 | each page that is kept or new is in the result as often as it was there, and the result is in the order of roots and directories |
| `DirectoryRuntime.PhotoshopPluginRuntime.RequestDirectories` | apps/photoshop-uxp-plugin/src/PhotoshopPluginRuntime.ts:191-245 | asking for directories, with a send that may fail and take the session with it |
| `DirectoryRuntime.PhotoshopPluginRuntime.HandleProjectsSnapshot` | apps/photoshop-uxp-plugin/src/PhotoshopPluginRuntime.ts:521-570 | the snapshot's loops leave what the model's snapshot leaves |
| `DirectoryRuntime.PhotoshopPluginRuntime.HandleDirectoryResult` | apps/photoshop-uxp-plugin/src/PhotoshopPluginRuntime.ts:572-603 | an answer is ignored, set aside, dropped or applied |
| `DirectoryRuntime.PhotoshopPluginRuntime.HandleConnectionState` | apps/photoshop-uxp-plugin/src/PhotoshopPluginRuntime.ts:475-486 | a connection that is not ready clears requests, Projects and pages |
| `DirectoryRuntime.PhotoshopPluginRuntime.SelectDestination` | apps/photoshop-uxp-plugin/src/PhotoshopPluginRuntime.ts:259-277 | leaves the fields as `SelectsExactly` says, and reports whether the directory was selected |
| `DirectoryRuntime.PhotoshopPluginRuntime.ActivateDestination` | apps/photoshop-uxp-plugin/src/PhotoshopPluginRuntime.ts:247-257 | takes the step of which `ActivatesExactly` speaks: the fields hold the chosen destination and the turned entry, or are left alone |
| `ExportPipeline.CapturesAreBounded` | apps/photoshop-uxp-plugin/src/PhotoshopHost.ts:195-246 | one capture per item in order, each file at most 256 MiB and all staged bytes at most 1 GiB |
| `ExportPipeline.CapturedExactly` | apps/photoshop-uxp-plugin/src/PhotoshopHost.ts:199-243 | an item is captured exactly when its PNG fits a file, is written, and neither it nor an item before it takes the batch over its limit |
| `ExportPipeline.CapturedInItsFile` | apps/photoshop-uxp-plugin/src/PhotoshopHost.ts:217-243 | a captured item has its own PNG, in a file of its own: the next one after those made for the items before it |
| `ExportPipeline.SettlementsAreOrdered` | apps/photoshop-uxp-plugin/src/PhotoshopPluginRuntime.ts:404-473 | one settlement per item in order: decided ones first, then at most one unknown or not attempted, then only not attempted |
| `ExportPipeline.CommittedExactly` | apps/photoshop-uxp-plugin/src/PhotoshopPluginRuntime.ts:404-473 | an item is committed under a name exactly when it was captured, its upload confirmed that name, and no item before it stopped the batch |
| `ExportPipeline.ExportedExactly` | apps/photoshop-uxp-plugin/src/PhotoshopPluginRuntime.ts:306-402 | the same over the whole pipeline, from the pixels to the settlement |
| `ExportPipeline.ReportedExactly` | apps/photoshop-uxp-plugin/src/PhotoshopPluginRuntime.ts:404-473 | and what every item is reported as: while no staged item before it ended the batch, committed if it was staged and confirmed, unknown if its outcome is unknown, not attempted if its own upload found the session gone, failed otherwise; and not attempted after the batch has ended |
| `ExportPipeline.OutcomeExactly` | apps/photoshop-uxp-plugin/src/PhotoshopPluginRuntime.ts:306-402 | the same for an admitted export; if the capture as a whole failed, all items alike, failed while the session lasts and not attempted without it |
| `ExportPipeline.OutcomeIsTotal` | apps/photoshop-uxp-plugin/src/PhotoshopPluginRuntime.ts:358-402 | an admitted export settles every item once and in order, also when the capture as a whole failed |
| `ExportPipeline.PhotoshopExport.CapturePngs` | apps/photoshop-uxp-plugin/src/PhotoshopHost.ts:188-262 | the capture loop, and the deletion of every staged file when the modal command fails |
| `ExportPipeline.PhotoshopExport.UploadCaptured` | apps/photoshop-uxp-plugin/src/PhotoshopPluginRuntime.ts:404-473 | the upload loop computes those settlements, of which `ReportedExactly` says what they are |
| `ExportPipeline.PhotoshopExport.SendSelection` | apps/photoshop-uxp-plugin/src/PhotoshopPluginRuntime.ts:306-402 | every file made has its deletion attempted exactly once on every path; Runtime is told once, of all items, exactly when all are decided and the session lasts; an export that is not admitted ends the session and does nothing else; refusals change nothing |
| `CanvasPixels.ComposeFullCanvasRgba` | apps/photoshop-uxp-plugin/src/PhotoshopHost.ts:467-501 | every byte of the canvas is the layer's where the layer covers it (opaque if it has no alpha) and zero elsewhere; other component counts are refused |
| `CanvasPixels.LayerIsShown` | apps/photoshop-uxp-plugin/src/PhotoshopHost.ts:487-497 | a pixel of the layer that lies on the canvas is shown where it lies, with its own colours and alpha, or opaque if the layer has none |
| `CanvasPixels.RestIsTransparent` | apps/photoshop-uxp-plugin/src/PhotoshopHost.ts:475-486 | everything else on the canvas is transparent black |
| `CanvasPixels.PixelBytes` | apps/photoshop-uxp-plugin/src/PhotoshopHost.ts:487-497 | the four bytes written for a pixel are those of that pixel and of no other |
| `RuntimeConnectionSafety.NeverWedged` | apps/photoshop-uxp-plugin/src/RuntimeConnection.ts:107-356 | between callbacks a started connection is in exactly one of: round with candidate and both deadlines armed, session, retry scheduled; a stopped one has nothing armed |
| `RuntimeConnectionSafety.OneLiveLease` | apps/photoshop-uxp-plugin/src/RuntimeConnection.ts:232-264 | the only live lease is that of the active socket and exists exactly while the status is ready; every other socket but the candidate is closed, and no timer is left over |
| `RuntimeConnectionSafety.OldSocketsChangeNothing` | apps/photoshop-uxp-plugin/src/RuntimeConnection.ts:173-205 | the events of a socket that is neither candidate nor active change nothing but the timer of its session start: opening arms it, and when it fires only the timer is gone |
| `RuntimeConnectionSafety.PortsInOrder` | apps/photoshop-uxp-plugin/src/RuntimeConnection.ts:151-188 | a round tries the eight ports in order, each at most once; whenever its candidate is rejected it has moved on to a later port, or it is over and a retry is scheduled |
| `RuntimeConnectionSafety.ReconnectsAtOnce` | apps/photoshop-uxp-plugin/src/RuntimeConnection.ts:266-316 | the steps that lose a session, a stop apart, are the end of its socket, a failing send and a refused message; a round follows at once exactly when the session announced a replacement or a stop left an older announcement behind, the loss is not by a refused message, and some socket can be created; otherwise a retry is scheduled |
| `RuntimeConnectionLaws.SessionStartDecides` | apps/photoshop-uxp-plugin/src/RuntimeConnection.ts:187-203 | when the session start of the present candidate is due, its socket stays the candidate, open, exactly if it speaks the right protocol and the start message was sent; otherwise it is closed and the round is on the first later port that gives a socket, or over |
| `RuntimeConnectionLaws.CandidateFails` | apps/photoshop-uxp-plugin/src/RuntimeConnection.ts:173-230 | a candidate is given up likewise when its deadline fires, its socket ends, or it gets any message but the one that opens a session |
| `RuntimeConnectionLaws.SessionStartsExactly` | apps/photoshop-uxp-plugin/src/RuntimeConnection.ts:205-264 | without a session, one starts exactly when the present candidate gets the message that opens one, on that socket and with its lease live |
| `RuntimeConnectionLaws.RoundsBegin` | apps/photoshop-uxp-plugin/src/RuntimeConnection.ts:107-171 | a start of a stopped connection and a retry that fires begin a round on the first port that gives a socket, or schedule a retry if none does; a start of a started one changes nothing |
| `RuntimeConnectionLaws.RoundDeadlineEnds` | apps/photoshop-uxp-plugin/src/RuntimeConnection.ts:318-340 | when the deadline of a round fires its candidate is closed and a retry is scheduled |
| `RuntimeConnectionLaws.AnnouncementsExactly` | apps/photoshop-uxp-plugin/src/RuntimeConnection.ts:266-292 | which announcements of a replacement are remembered, step by step; a message that announces closes the socket, and another good one changes nothing |
| `RuntimeConnectionSafety.AnnouncementOutlivesStop` | apps/photoshop-uxp-plugin/src/RuntimeConnection.ts:115-131 | a concrete run in which `stop` leaves the announcement of an older session behind |
| `RuntimeConnectionSafety.StepKeepsInv` | apps/photoshop-uxp-plugin/src/RuntimeConnection.ts:107-374 | every callback keeps the invariant |
| `RuntimeConnectionObject.RuntimeConnection.OnTimer` | apps/photoshop-uxp-plugin/src/RuntimeConnection.ts:140-203 | a fired timer takes the model's step for it and keeps the invariant, also when probing runs through ports that give no socket; what that step is, is `RuntimeConnectionLaws.SessionStartDecides`, `CandidateFails`, `RoundsBegin` and `RoundDeadlineEnds` |
| `RuntimeConnectionObject.RuntimeConnection.OnMessage` | apps/photoshop-uxp-plugin/src/RuntimeConnection.ts:205-292 | a message to a candidate or to the session takes the model's step and keeps the invariant |
| `RuntimeConnectionObject.RuntimeConnection.OnEnd` | apps/photoshop-uxp-plugin/src/RuntimeConnection.ts:173-183 | a socket that ends takes the model's step and keeps the invariant: its lease is revoked, and a round or a retry follows |
| `RuntimeConnectionObject.RuntimeConnection.OnSendFailed` | apps/photoshop-uxp-plugin/src/RuntimeConnection.ts:250-316 | a failing send retires the lease, takes the model's step and keeps the invariant |
| `RuntimeConnectionObject.RuntimeConnection.Stop` | apps/photoshop-uxp-plugin/src/RuntimeConnection.ts:115-131 | stopping takes the model's step and keeps the invariant: nothing is left armed, open or live |
| `ControlFrames.ChunkIndependent` | packages/runtime-control-client/src/runtimeControlClient.ts:326-357 | however the stream is cut, the reader passes on, fails and leaves over what reading it at once does |
| `ControlFrames.StreamIsKept` | packages/runtime-control-client/src/runtimeControlClient.ts:326-357 | what was passed on, framed again and followed by the rest, is the stream; the rest is shorter than the largest frame |
| `ControlFrames.RestIsStable` | packages/runtime-control-client/src/runtimeControlClient.ts:331-341 | what is left has less than a length field, or a length within the limit and less than that frame; read again it stays |
| `ControlFrames.RestStartsFrameExactly` | packages/runtime-control-client/src/runtimeControlClient.ts:331-341 | what is left is a proper prefix of some frame exactly when the part of a length field in it may still become a length within the limit |
| `ControlFrames.RestThatStartsNoFrame` | packages/runtime-control-client/src/runtimeControlClient.ts:331-341 | a byte that starts no frame and is kept until the other three arrive |
| `ControlFrames.FramesReadBack` | packages/runtime-control-client/src/runtimeControlClient.ts:306-314 | frames written one after the other read back to their payloads |
| `ControlFrames.FrameReadsBackExactly` | packages/runtime-control-client/src/runtimeControlClient.ts:306-341 | a payload within the limit reads back exactly when it is not empty |
| `ControlFrames.RefusedPayloadEnds` | packages/runtime-control-client/src/runtimeControlClient.ts:342-357 | a payload that is not accepted is passed on and ends the reading, whatever follows it |
| `ControlFrames.BadLengthEnds` | packages/runtime-control-client/src/runtimeControlClient.ts:331-341 | a length that is zero or above the limit ends the reading after the payloads before it |
| `ControlFrames.FrameReader.ReceiveChunk` | packages/runtime-control-client/src/runtimeControlClient.ts:326-357 | the receive loop is that reader |
| `BigEndian.ReadsBack` | packages/runtime-control-client/src/runtimeControlClient.ts:312-313 | a 32-bit number reads back modulo 2^32 |
| `ControlClient.RequestsAreSettledOnce` | packages/runtime-control-client/src/runtimeControlClient.ts:280-297 | every request is pending, resolved, rejected or taken back, and only one of these; after a failure with an empty queue none is pending |
| `ControlClient.SettledExactly` | packages/runtime-control-client/src/runtimeControlClient.ts:280-451 | what settles a pending request, and how: its own answer resolves it, the failure of the client rejects it, and after a failure giving up its own message takes it back; nothing else does |
| `ControlClient.FailsExactly` | packages/runtime-control-client/src/runtimeControlClient.ts:280-451 | the steps at which the client fails: told so, an answer to nothing pending, a full queue, a message too long for a frame, a failed write; and where a new request then is |
| `ControlClient.WritesExactly` | packages/runtime-control-client/src/runtimeControlClient.ts:299-324 | what each step does to the queue: messages are written one at a time from its front, one that is given up leaves it unwritten, and new ones go to its end |
| `ControlClient.WireReadsBack` | packages/runtime-control-client/src/runtimeControlClient.ts:299-324 | the wire carries the frames of the queued messages in order, a peer reads exactly those, and the queue never exceeds 64 |
| `ControlClient.StepKeepsInv` | packages/runtime-control-client/src/runtimeControlClient.ts:280-451 | every request, write, response and failure keeps the invariant |
| `ControlClient.NodeRuntimeControlClient.MakeRequest` | packages/runtime-control-client/src/runtimeControlClient.ts:280-297 | a request that is registered is afterwards in exactly one place (pending, resolved, rejected or taken back), also when the client failed while it waited or its queue is full; one refused at once is in none |
| `ControlClient.NodeRuntimeControlClient.EndWrite` | packages/runtime-control-client/src/runtimeControlClient.ts:315-324 | a write that ends keeps that invariant; one that fails fails the client and takes its request back |
| `AgentReader.ResultReadsBack` | apps/runtime/src/cli/records.rs:222-258 | a reader recovers from the printed text every line, name, key and value, in order |
| `AgentReader.PrintedAlike` | apps/runtime/src/cli/records.rs:222-258 | two results are printed alike exactly when they look alike line by line |
| `AgentReader.NothingIsLost` | apps/runtime/src/cli/records.rs:222-258 | of two results that both have a log or both have none, everything is recovered: status, command, code, log, records and fields |
| `AgentReader.LogMistakenExactly` | apps/runtime/src/cli/records.rs:229-257 | a log is mistaken for a field exactly when there are no records and the first printed field is a `log` with that text |
| `AgentReader.LogIsMistaken` | apps/runtime/src/cli/records.rs:229-257 | two different results that print alike |
| `AgentRecords.AgentRecord` | apps/runtime/src/cli/records.rs:222-258 | the printer's loops push exactly those lines |
| `AgentRecords.OrderedFields` | apps/runtime/src/cli/records.rs:290-306 | the two loops list the prioritised fields in priority order and then the others |
| `AgentRecords.OrderingKeepsFields` | apps/runtime/src/cli/records.rs:290-306 | ordering lists every field exactly once |
| `AgentValues.ValueReadsBack` | apps/runtime/src/cli/records.rs:308-322 | a printed value reads back whatever follows it on the line |
| `AgentValues.EscapeIsInjective` | apps/runtime/src/cli/records.rs:324-340 | escaping loses nothing |
| `AgentValues.EscapeHasNoControls` | apps/runtime/src/cli/records.rs:324-340 | and leaves no control character |
| `AgentValues.PrintsAlike` | apps/runtime/src/cli/records.rs:308-322 | two values print alike exactly when they mean the same to a reader |
| `AgentValues.EscapeValue` | apps/runtime/src/cli/records.rs:324-340 | the escaping loop |
| `Crc32.TableStep` | apps/photoshop-uxp-plugin/src/pngEncoder.ts:60-66 | one table look-up does what taking in the eight bits of a byte does, by linearity of the bit step |
| `Crc32.TableCrc` | apps/photoshop-uxp-plugin/src/pngEncoder.ts:60-66 | the table-driven loop computes the bit-by-bit CRC of every byte string |
| `Crc32.BuildCrcTable` | apps/photoshop-uxp-plugin/src/pngEncoder.ts:68-78 | the table holds eight bit steps of every byte |
| `Crc32.StepIsLinear` | apps/photoshop-uxp-plugin/src/pngEncoder.ts:71-73 | the bit step is linear over exclusive or |
| `PngLayout.ChunkReadsBack` | apps/photoshop-uxp-plugin/src/pngEncoder.ts:38-47 | a chunk reads back with a valid length and CRC exactly when its data is shorter than 4 GiB |
| `PngEncoder.PngReadsBack` | apps/photoshop-uxp-plugin/src/pngEncoder.ts:6-27 | for every image and compression the stream reads back as a signature and intact IHDR, IDAT and IEND chunks exactly when the compressed data is shorter than 4 GiB, and the header then gives each dimension back exactly when it fits 32 bits |
| `PngEncoder.ScanlinesReadBack` | apps/photoshop-uxp-plugin/src/pngEncoder.ts:15-20 | dropping the filter byte of each scanline gives the pixels back |
| `PngEncoder.ScanlineIs` | apps/photoshop-uxp-plugin/src/pngEncoder.ts:15-20 | each scanline is a filter byte of zero and the bytes of its own row |
| `PngEncoder.EncodeScanlines` | apps/photoshop-uxp-plugin/src/pngEncoder.ts:14-20 | the scanline loop |
| `PngEncoder.PngChunk` | apps/photoshop-uxp-plugin/src/pngEncoder.ts:38-47 | a chunk is built in place in its buffer |
| `PngEncoder.EncodeRgbaPng` | apps/photoshop-uxp-plugin/src/pngEncoder.ts:6-27 | bad dimensions and a buffer of the wrong size are refused, everything else is encoded |
| `PngLayout.Concatenate` | apps/photoshop-uxp-plugin/src/pngEncoder.ts:80-88 | the parts are copied one after the other |
| `CommandLine.ArgumentReadsBack` | apps/desktop/src/electron/nativeRecentProjects.ts:84-104 | for every text the quoted argument is read as exactly that one argument and the rest of the command line is left as it is |
| `CommandLine.QuotedReadsBack` | apps/desktop/src/electron/nativeRecentProjects.ts:84-104 | the same with backslashes still to be written |
| `CommandLine.QuoteWindowsCommandLineArgument` | apps/desktop/src/electron/nativeRecentProjects.ts:84-104 | the quoting loop |
| `ProcessOutput.BoundedTail.Push` | apps/runtime/src/process.rs:635-660 | after any pushes the tail is the last bytes of everything pushed; it is reported truncated exactly when bytes were lost or one push reached the limit |
| `ProcessOutput.FalseAlarmExactly` | apps/runtime/src/process.rs:644-655 | it is reported truncated without a loss exactly when everything came in one push of just the limit |
| `ProcessOutput.FirstCauseIsReported` | apps/runtime/src/process.rs:563-573 | of all recorded failures the first that is not about cleanup is reported |
| `ProcessOutput.DiagnosticsAreKept` | apps/runtime/src/process.rs:563-590 | what the worker wrote and every diagnostic recorded after it are kept, in order, each that is not empty on its own line |
| `ProcessAdmission.CountersCount` | apps/runtime/src/process.rs:307-376 | in every interleaving `active` counts the permits, at most the capacity, `waiters` the waiting callers, at most 32, and no counter goes below zero |
| `ProcessAdmission.RefusedExactly` | apps/runtime/src/process.rs:307-356 | when a call is refused, and why |
| `ProcessAdmission.BoundedProcessSupervisor.AcquirePermit` | apps/runtime/src/process.rs:307-356 | up to its first wait a call holds a permit, waits, or is refused, exactly as reported, and the counters still count |
| `ProcessAdmission.BoundedProcessSupervisor.DropPermit` | apps/runtime/src/process.rs:363-376 | a dropped permit is free again and the counters still count |

## Left out

- Publication by a thread is a separate activity once its observation is prepared: more interleavings
  than the code has, none fewer.
- The text of diagnostics, timestamps, time-outs, working directories, output-directory validation,
  provenance, Model bindings beyond who owns them, JSON parsing and the protocol's shape validators.
- Start-up, shutdown and joining of Model Operation workers; configuration and validation of submissions
  are inputs.
- `model_kind` and the state filter of a listing are one free predicate.
- `reload`, launch tickets' contents, presentation and showing of windows; the tray and the menus.
- The order of directories and pages is that of their characters, where the plugin uses `localeCompare`.
- Placement of incoming files, host snapshots, the presentation of an export's result.
- Bearer handling, byte transfers and time-outs of a lease; the HTTP side of uploads is an input.
- The handshake, the ready deadline and the listeners of the control client; a message is its payload
  and whether it leaves the client usable.
- `progress_record`, which prints records as `agent_record` does; JSON conversion of CLI results.
- zlib compression, which is any function; reading pixels from Photoshop; chunk types are constants.
- Deadlines, polling and fairness of process admission: a wake-up may come at any time, and no order
  among waiting callers is claimed, as the code gives none.
- Spawning, killing and reaping of processes, and conversion of the tail to text.
- In which order the files of one export are deleted; only that each is, once.

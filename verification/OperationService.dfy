/** ModelOperationService as an object: its registry and dispatcher fields, one method per critical
    section, and the two loops (retain_terminal and the observer drain).

    The object refines the concurrent registry. `Represents(s)` says that the fields stand for the
    registry `s`. Every critical section, entered while the fields stand for a reachable registry in
    which it is due, raises no panic, leaves fields that stand for the registry after that step,
    publishes the observation the step prepared, and answers what the thread does next in the protocol.
    What is proved of every reachable registry therefore holds of the object between its methods. */
module OperationService {
  import opened Options
  import opened OperationRecord
  import opened OperationProtocol
  import opened OperationRegistry
  import opened OperationRefinement
  import Change = OperationRecord

  /** The first revision from `next` on that is not queued. */
  function Gap(next: nat, pending: map<nat, Observation>): (gap: nat)
    ensures next <= gap && gap !in pending
    ensures forall r: nat :: next <= r < gap ==> r in pending
    decreases |pending|
  {
    if next in pending then
      assert |pending - {next}| < |pending| by {
        assert pending.Keys == (pending - {next}).Keys + {next};
      }
      assert forall r :: r in pending - {next} <==> r in pending && r != next;
      var gap := Gap(next + 1, pending - {next});
      assert gap != next;
      gap
    else next
  }

  /** What the observer is called with while the revisions from `first` up to `last` are drained. */
  function Calls(pending: map<nat, Observation>, first: nat, last: nat): seq<(OpId, Snapshot)>
    requires first <= last
    requires forall r: nat :: first <= r < last ==> r in pending
    decreases last
  {
    if first == last then []
    else Calls(pending, first, last - 1)
         + if pending[last - 1].observed then [(pending[last - 1].id, pending[last - 1].snapshot)] else []
  }

  /** What is still queued once the revisions from `first` up to `last` are drained. */
  function Left(pending: map<nat, Observation>, first: nat, last: nat): map<nat, Observation> {
    map r | r in pending && !(first <= r < last) :: pending[r]
  }

  lemma OneMoreDrained(pending: map<nat, Observation>, first: nat, last: nat)
    requires first <= last
    ensures last in Left(pending, first, last) <==> last in pending
    ensures Left(pending, first, last) - {last} == Left(pending, first, last + 1)
  {}

  function ModelOf(r: Record, item: nat): string {
    if item < |r.models| then r.models[item] else ""
  }

  predicate Settles(c: Cell, w: nat, item: nat, model: string, result: ItemResult) {
    && w < |c.subs| && c.subs[w].Settle?
    && c.subs[w].i == item && c.subs[w].result == result && model == ModelOf(c.r, item)
  }

  // finish_failed is called with the log of a failure, or by the submitter of a worker that never started.
  predicate FailsWith(worker: WorkerPc, log: string) {
    (worker.FailPending? && worker.log == log) || (worker.StartLost? && log == NEVER_STARTED)
  }

  class ModelOperationService {
    var nextSequence: nat
    var operations: map<OpId, Record>
    var terminalOrder: seq<OpId>
    var observerInstalled: bool
    var observerRevision: nat
    var nextRevision: nat
    var pending: map<nat, Observation>
    var draining: bool
    var calls: seq<(OpId, Snapshot)>     // what the observer has been called with

    constructor ()
      ensures nextSequence == 1 && operations == map[] && terminalOrder == []
      ensures !observerInstalled && observerRevision == 1
      ensures nextRevision == 1 && pending == map[] && !draining && calls == []
      ensures Represents(EMPTY) && Reachable(EMPTY)
    {
      nextSequence, operations, terminalOrder := 1, map[], [];
      observerInstalled, observerRevision := false, 1;
      nextRevision, pending, draining, calls := 1, map[], false, [];
      new;
      assert IsRun([EMPTY], []) && [EMPTY][|[EMPTY]| - 1] == EMPTY;
    }

    ghost predicate Represents(s: Registry)
      reads this
    {
      && operations == Present(s.cells)
      && terminalOrder == s.terminalOrder
      && nextSequence == s.nextSequence
      && observerRevision == |s.prepared| + 1
    }

    /** The fields stand for a reachable registry in which action `a` of Operation `id` is due. */
    ghost predicate Before(s: Registry, id: OpId, a: Action)
      reads this
    {
      Represents(s) && Due(s, id, a)
    }

    /** The fields stand for the registry after that action, and its observation is the one given. */
    ghost predicate After(s: Registry, id: OpId, a: Action, observation: Option<Observation>)
      reads this
    {
      && CanStep(s, Act(id, a))
      && Represents(TakeStep(s, Act(id, a)))
      && observation == Prepared(s, TakeStep(s, Act(id, a)), observerInstalled)
    }

    method InstallObserver() returns (installed: bool)
      modifies `observerInstalled
      ensures installed == !old(observerInstalled) && observerInstalled
    {
      if observerInstalled {
        return false;
      }
      observerInstalled := true;
      installed := true;
    }

    method PrepareObserved(id: OpId, snapshot: Snapshot) returns (observation: Observation)
      modifies `observerRevision
      ensures observation == Observation(old(observerRevision), observerInstalled, id, snapshot)
      ensures observerRevision == old(observerRevision) + 1
    {
      var revision := observerRevision;
      observerRevision := observerRevision + 1;
      observation := Observation(revision, observerInstalled, id, snapshot);
    }

    // The record of `id` becomes `r`, and an observation of it is prepared under the same lock.
    method Rewrite(id: OpId, r: Record) returns (observation: Observation)
      modifies `operations, `observerRevision
      ensures operations == old(operations)[id := r]
      ensures observation == Observation(old(observerRevision), observerInstalled, id, SnapshotOf(r))
      ensures observerRevision == old(observerRevision) + 1
    {
      operations := operations[id := r];
      observation := PrepareObserved(id, SnapshotOf(r));
    }

    method Submit(id: OpId, shape: ExecutionShape, models: seq<string>, concurrency: nat, ghost s: Registry)
      returns (snapshot: Snapshot, observation: Observation)
      requires id !in operations && ValidSubmission(shape, models, concurrency)
      modifies `nextSequence, `operations, `observerRevision
      ensures nextSequence == old(nextSequence) + 1
      ensures operations == old(operations)[id := Accepted(old(nextSequence), shape, models, concurrency)]
      ensures snapshot == SnapshotOf(operations[id]) && snapshot.state.Queued?
      ensures observation == Observation(old(observerRevision), observerInstalled, id, snapshot)
      ensures observerRevision == old(observerRevision) + 1
      ensures old(Represents(s)) && id !in s.cells ==>
                var t := TakeStep(s, Step.Submit(id, shape, models, concurrency));
                Represents(t) && Some(observation) == Prepared(s, t, observerInstalled)
    {
      var sequence := nextSequence;
      nextSequence := nextSequence + 1;
      var bindings := seq(|models|, _ => true);
      var record := Record(sequence, models, bindings, shape, concurrency, Queued, false, [],
                           0, 0, 0, [], None, None, 0, 0, 1);
      snapshot := SnapshotOf(record);
      observation := Rewrite(id, record);
    }

    /** The first critical section of a started worker. */
    method Execute(id: OpId, ghost s: Registry)
      returns (shape: Option<ExecutionShape>, observation: Option<Observation>)
      modifies `operations, `observerRevision
      ensures id in old(operations) && old(operations)[id].state.Queued? ==>
                && operations == old(operations)[id := Launch(old(operations)[id])]
                && shape == Some(old(operations)[id].shape)
                && observation
                    == Some(Observation(old(observerRevision), observerInstalled, id, SnapshotOf(operations[id])))
      ensures !(id in old(operations) && old(operations)[id].state.Queued?) ==>
                operations == old(operations) && shape == None && observation == None
      ensures observerRevision == old(observerRevision) + if observation.Some? then 1 else 0
      ensures old(Before(s, id, Action.Execute)) ==>
                && After(s, id, Action.Execute, observation)
                && Apply(s.cells[id], Action.Execute).worker
                   == if shape == Some(Single) then TakeSingle else if shape == Some(Batch) then ReadBatch else Exited
    {
      if Before(s, id, Action.Execute) {
        ActionIsStep(s, id, Action.Execute);
      }
      if id !in operations {
        return None, None;
      }
      var record := operations[id];
      if !record.state.Queued? {
        return None, None;
      }
      record := record.(state := Running, change := record.change + 1);
      var prepared := Rewrite(id, record);
      return Some(record.shape), Some(prepared);
    }

    /** The first critical section of execute_single. */
    method TakeSingleBinding(id: OpId, ghost s: Registry) returns (taken: bool, panicked: bool)
      modifies `operations
      ensures panicked <==>
                  id in old(operations) && !(|old(operations)[id].bindings| > 0 && old(operations)[id].bindings[0])
      ensures taken <==> id in old(operations) && !panicked
      ensures operations == if taken then old(operations)[id := TakeBinding(old(operations)[id], 0)]
                  else old(operations)
      ensures old(Before(s, id, TakeBindingStep)) ==>
                && !panicked && After(s, id, TakeBindingStep, None)
                && Apply(s.cells[id], TakeBindingStep).worker == if taken then RunSingle else Exited
    {
      if Before(s, id, TakeBindingStep) {
        ActionIsStep(s, id, TakeBindingStep);
      }
      if id !in operations {
        return false, false;
      }
      var record := operations[id];
      if |record.bindings| == 0 || !record.bindings[0] {
        return false, true;
      }
      operations := operations[id := record.(bindings := record.bindings[0 := false])];
      return true, false;
    }

    /** The first critical section of execute_batch: how many items, and how many threads for them. */
    method BatchSize(id: OpId, ghost s: Registry) returns (size: Option<(nat, nat)>)
      ensures size == if id in operations then Some((|operations[id].models|, operations[id].concurrency)) else None
      ensures Before(s, id, ReadBatchStep) ==>
                && After(s, id, ReadBatchStep, None)
                && var n := Apply(s.cells[id], ReadBatchStep);
                   && (size.Some? <==> n.worker.ScopeBatch?)
                   && (size.Some? ==> size.value == (|n.r.models|, |n.subs|))
    {
      if Before(s, id, ReadBatchStep) {
        ActionIsStep(s, id, ReadBatchStep);
      }
      if id !in operations {
        return None;
      }
      size := Some((|operations[id].models|, operations[id].concurrency));
    }

    /** Thread `w` of a Batch begins the item it claimed. */
    method BeginItem(id: OpId, item: nat, ghost w: nat, ghost s: Registry)
      returns (model: Option<string>, panicked: bool)
      modifies `operations
      ensures panicked <==> id in old(operations) && CanBegin(old(operations)[id])
                            && !(item < |old(operations)[id].bindings| && old(operations)[id].bindings[item])
      ensures id in old(operations) && CanBegin(old(operations)[id]) && !panicked ==>
                && operations == old(operations)[id := Change.BeginItem(old(operations)[id], item)]
                && model == Some(ModelOf(old(operations)[id], item))
      ensures !(id in old(operations) && CanBegin(old(operations)[id])) || panicked ==>
                operations == old(operations) && model == None
      ensures old(Before(s, id, SubAction(w, DoBegin))) && s.cells[id].subs[w] == Begin(item) ==>
                && !panicked && After(s, id, SubAction(w, DoBegin), None)
                && Apply(s.cells[id], SubAction(w, DoBegin)).subs[w] == if model.Some? then RunItem(item) else SubExited
    {
      if Before(s, id, SubAction(w, DoBegin)) {
        ActionIsStep(s, id, SubAction(w, DoBegin));
      }
      if id !in operations {
        return None, false;
      }
      var record := operations[id];
      if !record.state.Running? || record.cancelled {
        return None, false;
      }
      if item >= |record.bindings| || !record.bindings[item] {
        return None, true;
      }
      record := record.(bindings := record.bindings[item := false]);
      record := record.(active := record.active + 1, change := record.change + 1);
      operations := operations[id := record];
      return Some(ModelOf(record, item)), false;
    }

    method SettleRecord(id: OpId, item: nat, model: string, result: ItemResult)
      returns (observation: Option<Observation>, panicked: bool)
      modifies `operations, `observerRevision
      ensures panicked <==> id in old(operations) && old(operations)[id].active == 0
      ensures id in old(operations) && !panicked ==>
                && operations == old(operations)[id := SettleItem(old(operations)[id], item, model, result)]
                && observation
                    == Some(Observation(old(observerRevision), observerInstalled, id, SnapshotOf(operations[id])))
      ensures id !in old(operations) || panicked ==> operations == old(operations) && observation == None
      ensures observerRevision == old(observerRevision) + if observation.Some? then 1 else 0
    {
      if id !in operations {
        return None, false;
      }
      if operations[id].active == 0 {
        return None, true;
      }
      var record := operations[id];
      record := record.(active := record.active - 1);
      var outcome: Option<Outcome> := None;
      match result {
        case ItemOk(artifacts) =>
          record := record.(succeeded := record.succeeded + 1);
          outcome := Some(Outcome(item, model, ItemSucceeded, artifacts, None));
        case ItemErr(error) =>
          if record.cancelled {
            if !error.cancelled && record.cancellationFailure.None? {
              record := record.(cancellationFailure := Some(error.log));
            }
          } else {
            record := record.(failed := record.failed + 1);
            outcome := Some(Outcome(item, model, ItemFailed, [], Some(error.log)));
          }
      }
      if outcome.Some? {
        record := record.(outcomes := record.outcomes + [outcome.value]);
      }
      record := record.(change := record.change + 1);
      var prepared := Rewrite(id, record);
      return Some(prepared), false;
    }

    /** Thread `w` of a Batch settles the item it executed. */
    method FinishItem(id: OpId, item: nat, model: string, result: ItemResult, ghost w: nat, ghost s: Registry)
      returns (observation: Option<Observation>, panicked: bool)
      modifies `operations, `observerRevision
      ensures panicked <==> id in old(operations) && old(operations)[id].active == 0
      ensures id in old(operations) && !panicked ==>
                && operations == old(operations)[id := SettleItem(old(operations)[id], item, model, result)]
                && observation
                    == Some(Observation(old(observerRevision), observerInstalled, id, SnapshotOf(operations[id])))
      ensures id !in old(operations) || panicked ==> operations == old(operations) && observation == None
      ensures observerRevision == old(observerRevision) + if observation.Some? then 1 else 0
      ensures old(Before(s, id, SubAction(w, DoSettle))) && Settles(s.cells[id], w, item, model, result) ==>
                !panicked && After(s, id, SubAction(w, DoSettle), observation)
    {
      if Before(s, id, SubAction(w, DoSettle)) {
        ActionIsStep(s, id, SubAction(w, DoSettle));
      }
      observation, panicked := SettleRecord(id, item, model, result);
    }

    method RecordCommitWarnings(id: OpId, warnings: CommitWarnings, ghost w: nat, ghost s: Registry)
      modifies `operations
      ensures operations == if id in old(operations)
                            then old(operations)[id := RecordWarnings(old(operations)[id], warnings)]
                            else old(operations)
      ensures old(Before(s, id, SubAction(w, DoWarn))) && s.cells[id].subs[w].warnings == warnings ==>
                After(s, id, SubAction(w, DoWarn), None)
    {
      if Before(s, id, SubAction(w, DoWarn)) {
        ActionIsStep(s, id, SubAction(w, DoWarn));
      }
      if warnings != NO_WARNINGS && id in operations {
        var record := operations[id];
        operations := operations[id := record.(
          provenanceFailures := record.provenanceFailures + warnings.provenanceFailures,
          cleanupFailures := record.cleanupFailures + warnings.cleanupFailures)];
      } else if id in operations {
        assert operations[id := operations[id]] == operations;
      }
    }

    /** The write after a successful Single commit: no test of the state before it. */
    method SucceedSingle(id: OpId, artifacts: seq<Artifact>, warnings: CommitWarnings, ghost s: Registry)
      returns (observation: Option<Observation>)
      modifies `operations, `observerRevision
      ensures id in old(operations) ==>
                && operations == old(operations)[id := Change.SucceedSingle(old(operations)[id], artifacts, warnings)]
                && observation
                    == Some(Observation(old(observerRevision), observerInstalled, id, SnapshotOf(operations[id])))
      ensures id !in old(operations) ==> operations == old(operations) && observation == None
      ensures observerRevision == old(observerRevision) + if observation.Some? then 1 else 0
      ensures old(Before(s, id, WriteStep)) && s.cells[id].worker == WriteSingle(artifacts, warnings) ==>
                && After(s, id, WriteStep, observation)
                && Apply(s.cells[id], WriteStep).worker == if observation.Some? then RetainPending(true)
                    else UnlockPending
    {
      if Before(s, id, WriteStep) {
        ActionIsStep(s, id, WriteStep);
      }
      if id !in operations {
        return None;
      }
      var record := operations[id];
      record := record.(singleArtifacts := artifacts);
      record := RecordWarnings(record, warnings);
      record := record.(state := Succeeded);
      record := ReleaseBindings(record);
      record := record.(change := record.change + 1);
      var prepared := Rewrite(id, record);
      return Some(prepared);
    }

    // What finish_succeeded_batch, finish_cancelled and finish_failed share: a record that changes
    // is rewritten and observed, one that does not is left alone.
    ghost predicate Finished(before: map<OpId, Record>, revision: nat, id: OpId, after: Record,
                             observation: Option<Observation>)
      reads this
      requires id in before
    {
      if after == before[id] then
        operations == before && observation == None && observerRevision == revision
      else
        && operations == before[id := after]
        && observation == Some(Observation(revision, observerInstalled, id, SnapshotOf(after)))
        && observerRevision == revision + 1
    }

    method FinishSucceededBatch(id: OpId, ghost s: Registry) returns (observation: Option<Observation>)
      modifies `operations, `observerRevision
      ensures id in old(operations) ==>
                Finished(old(operations), old(observerRevision), id, SucceedBatch(old(operations)[id]), observation)
      ensures id !in old(operations) ==>
                operations == old(operations) && observation == None && observerRevision == old(observerRevision)
      ensures old(Before(s, id, SucceedBatchStep)) ==>
                && After(s, id, SucceedBatchStep, observation)
                && (observation.Some? <==> Apply(s.cells[id], SucceedBatchStep).worker.RetainPending?)
    {
      if Before(s, id, SucceedBatchStep) {
        EndingIsStep(s, id, SucceedBatchStep, SucceedBatch(s.cells[id].r));
      }
      if id !in operations {
        return None;
      }
      var record := operations[id];
      if !record.state.Running? {
        return None;
      }
      record := ReleaseBindings(record.(state := Succeeded, change := record.change + 1));
      var prepared := Rewrite(id, record);
      return Some(prepared);
    }

    method FinishCancelled(id: OpId, ghost s: Registry) returns (observation: Option<Observation>)
      modifies `operations, `observerRevision
      ensures id in old(operations) ==>
                Finished(old(operations), old(observerRevision), id, Change.FinishCancelled(old(operations)[id]),
                    observation)
      ensures id !in old(operations) ==>
                operations == old(operations) && observation == None && observerRevision == old(observerRevision)
      ensures old(Before(s, id, FinishStep)) && s.cells[id].worker.CancelPending? ==>
                && After(s, id, FinishStep, observation)
                && (observation.Some? <==> Apply(s.cells[id], FinishStep).worker.RetainPending?)
    {
      if Before(s, id, FinishStep) && s.cells[id].worker.CancelPending? {
        EndingIsStep(s, id, FinishStep, Change.FinishCancelled(s.cells[id].r));
      }
      if id !in operations {
        return None;
      }
      var record := operations[id];
      if record.state.IsTerminal() {
        return None;
      }
      record := ReleaseBindings(record.(state := Cancelled, active := 0, change := record.change + 1));
      var prepared := Rewrite(id, record);
      return Some(prepared);
    }

    method FinishFailed(id: OpId, log: string, ghost s: Registry) returns (observation: Option<Observation>)
      modifies `operations, `observerRevision
      ensures id in old(operations) ==>
                Finished(old(operations), old(observerRevision), id, Change.FinishFailed(old(operations)[id], log),
                    observation)
      ensures id !in old(operations) ==>
                operations == old(operations) && observation == None && observerRevision == old(observerRevision)
      ensures old(Before(s, id, FinishStep)) && FailsWith(s.cells[id].worker, log) ==>
                && After(s, id, FinishStep, observation)
                && (observation.Some? <==> Apply(s.cells[id], FinishStep).worker.RetainPending?)
    {
      if Before(s, id, FinishStep) && FailsWith(s.cells[id].worker, log) {
        EndingIsStep(s, id, FinishStep, Change.FinishFailed(s.cells[id].r, log));
      }
      if id !in operations {
        return None;
      }
      var record := operations[id];
      if record.state.IsTerminal() {
        return None;
      }
      record := ReleaseBindings(record.(state := Failed, active := 0, log := Some(log), change := record.change + 1));
      var prepared := Rewrite(id, record);
      return Some(prepared);
    }

    /** After the threads of a Batch are joined: the failure that a cancelled Batch must report. */
    method CancellationFailure(id: OpId, ghost s: Registry) returns (log: Option<string>)
      ensures log == if id in operations && operations[id].state.Cancelling? then operations[id].cancellationFailure
                  else None
      ensures Before(s, id, ReadFailureStep) ==>
                && After(s, id, ReadFailureStep, None)
                && Apply(s.cells[id], ReadFailureStep).worker
                   == if log.Some? then FailPending(log.value, false) else DecideBatch
    {
      if Before(s, id, ReadFailureStep) {
        ActionIsStep(s, id, ReadFailureStep);
      }
      if id !in operations || !operations[id].state.Cancelling? {
        return None;
      }
      log := operations[id].cancellationFailure;
    }

    /** The linearization point of `cancel`, under the completion lock. */
    method CancelRecord(id: OpId, ghost canceller: nat, ghost s: Registry)
      returns (reply: CancelReply, observation: Option<Observation>)
      modifies `operations, `observerRevision
      ensures id !in old(operations) ==>
                reply == NotFound && operations == old(operations) && observation == None
      ensures id in old(operations) ==>
                && operations == old(operations)[id := Cancel(old(operations)[id])]
                && (observation.Some? <==> CancelChanges(old(operations)[id]))
                && (observation.Some? ==>
                      observation
                          == Some(Observation(old(observerRevision), observerInstalled, id,
                          SnapshotOf(operations[id]))))
                && (if old(operations)[id].state.Succeeded? || old(operations)[id].state.Failed?
                    then reply == AlreadyTerminal(SnapshotOf(operations[id]))
                    else reply == Answer(SnapshotOf(operations[id])))
      ensures observerRevision == old(observerRevision) + if observation.Some? then 1 else 0
      ensures old(Before(s, id, CancelWrite(canceller))) ==>
                && After(s, id, CancelWrite(canceller), observation)
                && Apply(s.cells[id], CancelWrite(canceller)).cancels[canceller]
                   == if observation.Some? && reply.snapshot.state.Cancelled? then RetainCancelled(reply)
                       else ReleaseCancel(reply)
    {
      if Before(s, id, CancelWrite(canceller)) {
        CancelIsStep(s, id, canceller);
      }
      if id !in operations {
        return NotFound, None;
      }
      var record := operations[id];
      match record.state {
        case Queued =>
            record := ReleaseBindings(record.(cancelled := true, state := Cancelled, change := record.change + 1));
        case Running => record := record.(cancelled := true, state := Cancelling, change := record.change + 1);
        case Cancelling =>
        case Cancelled =>
        case Succeeded => return AlreadyTerminal(SnapshotOf(record)), None;
        case Failed => return AlreadyTerminal(SnapshotOf(record)), None;
      }
      if record == operations[id] {
        return Answer(SnapshotOf(record)), None;
      }
      var prepared := Rewrite(id, record);
      return Answer(SnapshotOf(record)), Some(prepared);
    }

    // The queue is popped from the front while it is too long.
    method RetireOldest(ghost order: seq<OpId>, ghost id: OpId)
      requires id !in order && terminalOrder == order + [id]
      modifies `operations, `terminalOrder
      ensures terminalOrder == Retained(order, id)
      ensures operations == map k | k in old(operations) && k !in Retired(order, id) :: old(operations)[k]
    {
      ghost var all := terminalOrder;
      ghost var popped := 0;
      while |terminalOrder| > MAX_TERMINAL_OPERATIONS
        invariant 0 <= popped <= |all| && terminalOrder == all[popped..]
        invariant popped == 0 || |terminalOrder| >= MAX_TERMINAL_OPERATIONS
        invariant operations == map k | k in old(operations) && k !in all[..popped] :: old(operations)[k]
      {
        var retired := terminalOrder[0];
        terminalOrder := terminalOrder[1..];
        operations := operations - {retired};
        popped := popped + 1;
        assert all[..popped] == all[..popped - 1] + [retired];
      }
    }

    /** Pushes `id` and retires the oldest, unless `id` is retained already. */
    method RetainTerminal(id: OpId, ghost a: Action, ghost s: Registry)
      modifies `operations, `terminalOrder
      ensures terminalOrder == Retained(old(terminalOrder), id)
      ensures operations == map k | k in old(operations) && k !in Retired(old(terminalOrder), id) :: old(operations)[k]
      ensures old(Before(s, id, a)) && Retains(a) ==> After(s, id, a, None)
    {
      if Before(s, id, a) && Retains(a) {
        RetentionIsStep(s, id, a);
      }
      if id in terminalOrder {
        return;
      }
      terminalOrder := terminalOrder + [id];
      RetireOldest(old(terminalOrder), id);
    }

    // The loop of the publisher that drains: every queued revision up to the first gap.
    method Drain()
      modifies `pending, `draining, `nextRevision, `calls
      ensures !draining && nextRevision == Gap(old(nextRevision), old(pending))
      ensures pending == Left(old(pending), old(nextRevision), nextRevision)
      ensures calls == old(calls) + Calls(old(pending), old(nextRevision), nextRevision)
    {
      ghost var queued := pending;
      ghost var gap := Gap(nextRevision, queued);
      assert Left(queued, nextRevision, nextRevision) == queued;
      while nextRevision in pending
        invariant old(nextRevision) <= nextRevision <= gap
        invariant pending == Left(queued, old(nextRevision), nextRevision)
        invariant calls == old(calls) + Calls(queued, old(nextRevision), nextRevision)
        decreases gap - nextRevision
      {
        OneMoreDrained(queued, old(nextRevision), nextRevision);
        var next := pending[nextRevision];
        pending := pending - {nextRevision};
        nextRevision := nextRevision + 1;
        if next.observed {
          calls := calls + [(next.id, next.snapshot)];
        }
      }
      draining := false;
    }

    /** Queues one observation and, unless another publisher drains already, delivers every queued
        revision up to the first gap. */
    method PublishObserved(observation: Observation)
      requires observation.revision !in pending
      modifies `pending, `draining, `nextRevision, `calls
      ensures old(draining) ==>
                && pending == old(pending)[observation.revision := observation]
                && draining && nextRevision == old(nextRevision) && calls == old(calls)
      ensures !old(draining) ==>
                var queued := old(pending)[observation.revision := observation];
                && !draining
                && nextRevision == Gap(old(nextRevision), queued)
                && pending == Left(queued, old(nextRevision), nextRevision)
                && calls == old(calls) + Calls(queued, old(nextRevision), nextRevision)
    {
      pending := pending[observation.revision := observation];
      if draining {
        return;
      }
      draining := true;
      Drain();
    }
  }
}

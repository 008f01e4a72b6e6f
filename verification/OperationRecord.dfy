/** The record of one Model Operation, and what each critical section under the registry's
    `state` lock does to it. Every definition here is shared by the concurrent protocol
    (OperationProtocol) and by the imperative service (OperationService). */
module OperationRecord {
  import opened Options

  type OpId = string

  datatype OperationState = Queued | Running | Cancelling | Succeeded | Failed | Cancelled
  {
    predicate IsTerminal() {
      Succeeded? || Failed? || Cancelled?
    }
  }

  datatype ExecutionShape = Single | Batch

  datatype Artifact = Artifact(index: nat, outputPath: string)

  datatype CommitWarnings = CommitWarnings(provenanceFailures: nat, cleanupFailures: nat)

  const NO_WARNINGS := CommitWarnings(0, 0)

  datatype ExecutionError = ExecutionError(log: string, cancelled: bool)

  // ModelRequestExecutionError::cancelled()
  const CANCELLED_ERROR := ExecutionError("Model request was cancelled.", true)

  datatype ItemResult = ItemOk(artifacts: seq<Artifact>) | ItemErr(error: ExecutionError)

  datatype ItemStatus = ItemSucceeded | ItemFailed

  datatype Outcome = Outcome(
    itemIndex: nat, model: string, status: ItemStatus, artifacts: seq<Artifact>, log: Option<string>)

  /** `cancelled` is the shared cancellation flag; `bindings[i]` says whether the record still owns
      the Model binding of item `i`. */
  datatype Record = Record(
    sequence: nat,
    models: seq<string>,
    bindings: seq<bool>,
    shape: ExecutionShape,
    concurrency: nat,
    state: OperationState,
    cancelled: bool,
    singleArtifacts: seq<Artifact>,
    active: nat,
    succeeded: nat,
    failed: nat,
    outcomes: seq<Outcome>,
    log: Option<string>,
    cancellationFailure: Option<string>,
    provenanceFailures: nat,
    cleanupFailures: nat,
    change: nat)

  /** What an observer, a waiter or a canceller is given. */
  datatype Snapshot = Snapshot(
    state: OperationState,
    itemCount: nat,
    artifacts: seq<Artifact>,
    active: nat,
    succeeded: nat,
    failed: nat,
    log: Option<string>,
    provenanceFailures: nat,
    cleanupFailures: nat)

  // The diagnostics of a snapshot are the texts of its two failure counts.
  function SnapshotOf(r: Record): Snapshot {
    Snapshot(r.state, |r.models|, r.singleArtifacts, r.active, r.succeeded, r.failed, r.log,
             r.provenanceFailures, r.cleanupFailures)
  }

  /** A submission as validation leaves it: one request for a Single Operation, at least one for a
      Batch, and a positive concurrency no larger than the number of items. */
  predicate ValidSubmission(shape: ExecutionShape, models: seq<string>, concurrency: nat) {
    && 1 <= concurrency <= |models|
    && (shape.Single? ==> |models| == 1)
  }

  function Accepted(sequence: nat, shape: ExecutionShape, models: seq<string>, concurrency: nat): Record {
    Record(sequence, models, seq(|models|, _ => true), shape, concurrency, Queued, false, [],
           0, 0, 0, [], None, None, 0, 0, 1)
  }

  function ReleaseBindings(r: Record): Record {
    r.(bindings := seq(|r.bindings|, _ => false))
  }

  function Launch(r: Record): Record {
    r.(state := Running, change := r.change + 1)
  }

  /** `accepted.binding.take()` for item `i`. */
  function TakeBinding(r: Record, i: nat): Record
    requires i < |r.bindings|
  {
    r.(bindings := r.bindings[i := false])
  }

  predicate CanBegin(r: Record) {
    r.state.Running? && !r.cancelled
  }

  function BeginItem(r: Record, i: nat): Record
    requires i < |r.bindings|
  {
    TakeBinding(r, i).(active := r.active + 1, change := r.change + 1)
  }

  function RecordWarnings(r: Record, w: CommitWarnings): Record {
    r.(provenanceFailures := r.provenanceFailures + w.provenanceFailures,
       cleanupFailures := r.cleanupFailures + w.cleanupFailures)
  }

  function SettleItem(r: Record, i: nat, model: string, result: ItemResult): Record
    requires r.active > 0
  {
    var settled := r.(active := r.active - 1, change := r.change + 1);
    match result
    case ItemOk(artifacts) =>
      settled.(succeeded := r.succeeded + 1,
               outcomes := r.outcomes + [Outcome(i, model, ItemSucceeded, artifacts, None)])
    case ItemErr(error) =>
      if r.cancelled then
        if !error.cancelled && r.cancellationFailure.None?
        then settled.(cancellationFailure := Some(error.log))
        else settled
      else
        settled.(failed := r.failed + 1,
                 outcomes := r.outcomes + [Outcome(i, model, ItemFailed, [], Some(error.log))])
  }

  /** The unconditional write after a successful Single commit. */
  function SucceedSingle(r: Record, artifacts: seq<Artifact>, w: CommitWarnings): Record {
    ReleaseBindings(RecordWarnings(r.(singleArtifacts := artifacts), w))
      .(state := Succeeded, change := r.change + 1)
  }

  function SucceedBatch(r: Record): Record {
    if r.state.Running? then ReleaseBindings(r).(state := Succeeded, change := r.change + 1) else r
  }

  function FinishCancelled(r: Record): Record {
    if r.state.IsTerminal() then r
    else ReleaseBindings(r).(state := Cancelled, active := 0, change := r.change + 1)
  }

  function FinishFailed(r: Record, log: string): Record {
    if r.state.IsTerminal() then r
    else ReleaseBindings(r).(state := Failed, active := 0, log := Some(log), change := r.change + 1)
  }

  /** The critical section of `cancel` under both the completion lock and the state lock. */
  function Cancel(r: Record): Record {
    match r.state
    case Queued => ReleaseBindings(r).(cancelled := true, state := Cancelled, change := r.change + 1)
    case Running => r.(cancelled := true, state := Cancelling, change := r.change + 1)
    case _ => r
  }

  predicate CancelChanges(r: Record) {
    r.state.Queued? || r.state.Running?
  }
}

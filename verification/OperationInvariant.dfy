/** The invariant of one Operation's protocol: what holds of a Cell in every interleaving. */
module OperationInvariant {
  import opened Options
  import opened OperationRecord
  import opened OperationProtocol

  // ---------- Counting ----------

  predicate Holds(pc: SubPc) {
    pc.RunItem? || pc.StagedItem? || pc.CheckItem? || pc.CommitItem? || pc.WarnItem? || pc.Settle?
  }

  /** How many threads have claimed item `i` but not begun it. */
  function ClaimCount(subs: seq<SubPc>, i: nat): nat {
    if subs == [] then 0
    else ClaimCount(subs[..|subs| - 1], i) + One(subs[|subs| - 1] == Begin(i))
  }

  /** How many threads are executing item `i`. */
  function HoldCount(subs: seq<SubPc>, i: nat): nat {
    if subs == [] then 0
    else HoldCount(subs[..|subs| - 1], i) + One(Holds(subs[|subs| - 1]) && subs[|subs| - 1].i == i)
  }

  /** How many threads are executing any item. */
  function Busy(subs: seq<SubPc>): nat {
    if subs == [] then 0 else Busy(subs[..|subs| - 1]) + One(Holds(subs[|subs| - 1]))
  }

  function Occurrences(items: seq<nat>, i: nat): nat {
    if items == [] then 0
    else Occurrences(items[..|items| - 1], i) + One(items[|items| - 1] == i)
  }

  function OutcomeCount(outcomes: seq<Outcome>, i: nat): nat {
    if outcomes == [] then 0
    else OutcomeCount(outcomes[..|outcomes| - 1], i) + One(outcomes[|outcomes| - 1].itemIndex == i)
  }

  function StatusCount(outcomes: seq<Outcome>, status: ItemStatus): nat {
    if outcomes == [] then 0
    else StatusCount(outcomes[..|outcomes| - 1], status) + One(outcomes[|outcomes| - 1].status == status)
  }

  // ---------- What the history says ----------

  predicate Accepts(e: Event) {
    e.CancelAnswered? && e.accepted
  }

  // cancel answered with a Cancelling or a Cancelled snapshot
  predicate AnswersCancelled(e: Event) {
    e.CancelAnswered? && e.reply.Answer?
    && (e.reply.snapshot.state.Cancelling? || e.reply.snapshot.state.Cancelled?)
  }

  ghost predicate CancelAccepted(h: seq<Event>) {
    exists e :: e in h && Accepts(e)
  }

  predicate RealFailure(e: Event) {
    e.ItemSettled? && e.result.ItemErr? && !e.result.error.cancelled
  }

  ghost function LateFailureAfter(before: seq<Event>, e: Event, earlier: Option<string>): Option<string> {
    if earlier.None? && CancelAccepted(before) && RealFailure(e) then Some(e.result.error.log) else earlier
  }

  /** The log of the first item that failed, other than by cancellation, after an accepted cancel. */
  ghost function FirstLateFailure(h: seq<Event>): Option<string> {
    if h == [] then None
    else
      LateFailureAfter(h[..|h| - 1], h[|h| - 1], FirstLateFailure(h[..|h| - 1]))
  }

  // ---------- The conjuncts ----------

  predicate WellFormed(c: Cell) {
    && 1 <= c.r.concurrency <= |c.r.models|
    && |c.r.bindings| == |c.r.models|
    && (c.r.shape.Single? ==> |c.r.models| == 1)
  }

  /** The completion lock is held by the one thread that stands inside it. */
  predicate Locks(worker: WorkerPc, subs: seq<SubPc>, holder: Option<Holder>, cancels: map<nat, CancelPc>) {
    && (WorkerHolding(worker) <==> holder == Some(WorkerHolds))
    && (forall w :: 0 <= w < |subs| ==> (SubHolding(subs[w]) <==> holder == Some(SubHolds(w))))
    && (forall id :: id in cancels ==> (CancelHolding(cancels[id]) <==> holder == Some(CancelHolds(id))))
    && (holder.Some? && holder.value.SubHolds? ==> holder.value.w < |subs|)
    && (holder.Some? && holder.value.CancelHolds? ==> holder.value.c in cancels)
  }

  predicate Idle(c: Cell) {
    && c.subs == [] && c.next == 0 && c.begun == [] && c.abandoned == [] && c.discarded == []
    && c.r.outcomes == [] && c.r.active == 0
  }

  predicate AllExited(c: Cell) {
    forall w :: 0 <= w < |c.subs| ==> c.subs[w].SubExited?
  }

  predicate Ran(c: Cell) {
    |c.subs| == c.r.concurrency
  }

  predicate Active(c: Cell) {
    c.r.state.Running? || c.r.state.Cancelling?
  }

  predicate PhaseOfWorker(c: Cell) {
    match c.worker
    case AwaitStart => Idle(c) && (c.r.state.Queued? || (c.r.state.Cancelled? && c.r.cancelled))
    case StartLost => Idle(c) && (c.r.state.Queued? || (c.r.state.Cancelled? && c.r.cancelled))
    case TakeSingle => Idle(c) && c.r.shape.Single? && Active(c) && |c.r.bindings| > 0 && c.r.bindings[0]
    case RunSingle => Idle(c) && c.r.shape.Single? && Active(c)
    case StagedSingle(_) => Idle(c) && c.r.shape.Single? && Active(c)
    case CheckSingle(_) => Idle(c) && c.r.shape.Single? && Active(c)
    case CommitSingle(_) => Idle(c) && c.r.shape.Single? && c.r.state.Running?
    case WriteSingle(_, _) => Idle(c) && c.r.shape.Single? && c.r.state.Running?
    case ReadBatch => Idle(c) && c.r.shape.Batch? && Active(c)
    case ScopeBatch => c.r.shape.Batch? && Active(c) && Ran(c)
    case JoinedBatch => c.r.shape.Batch? && Active(c) && Ran(c) && AllExited(c)
    case DecideBatch => c.r.shape.Batch? && Active(c) && Ran(c) && AllExited(c) && c.r.cancellationFailure.None?
    case SucceedBatchPc => c.r.shape.Batch? && Active(c) && Ran(c) && AllExited(c) && c.r.cancellationFailure.None?
    case CancelPending(holding) =>
      && Active(c)
      && (c.r.shape.Single? ==> Idle(c))
      && (c.r.shape.Batch? ==> !holding && Ran(c) && AllExited(c) && c.r.cancelled && c.r.cancellationFailure.None?)
    case FailPending(log, holding) =>
      && Active(c)
      && (c.r.shape.Single? ==> Idle(c))
      && (c.r.shape.Batch? ==>
          !holding && Ran(c) && AllExited(c) && c.r.cancelled && c.r.cancellationFailure == Some(log))
    case RetainPending(holding) => c.r.state.IsTerminal() && AllExited(c) && (c.r.shape.Batch? ==> !holding)
    case UnlockPending => c.r.state.IsTerminal() && c.r.shape.Single?
    case Exited => AllExited(c) && (c.r.state.IsTerminal() || Stuck(c))
  }

  /** The one way a worker can be gone while its Operation is not terminal. */
  predicate Stuck(c: Cell) {
    c.worker.Exited? && c.r.shape.Batch? && c.r.state.Cancelling?
  }

  predicate Phase(c: Cell) {
    && PhaseOfWorker(c)
    && (c.r.state.Queued? ==> c.worker.AwaitStart? || c.worker.StartLost?)
    && (c.r.state.Queued? || c.r.state.Running? || c.r.state.Succeeded? ==> !c.r.cancelled)
    && (c.r.state.Cancelling? ==> c.r.cancelled)
    && (!c.r.state.IsTerminal() ==> c.present)
    && (c.r.shape.Single? ==> c.subs == [])
    && (c.subs == [] || Ran(c))
    && (forall w :: 0 <= w < |c.subs| ==> (c.subs[w].CommitItem? || c.subs[w].WarnItem? ==> c.r.state.Running?))
    && (forall w :: 0 <= w < |c.subs| && c.subs[w].Settle? && c.subs[w].result.ItemOk? ==>
          c.subs[w].holding && c.r.state.Running?)
    && (c.r.cancellationFailure.Some? ==> c.r.cancelled && c.r.shape.Batch?)
  }

  /** How a Batch whose worker ran must have ended. */
  predicate Verdict(c: Cell) {
    c.r.shape.Batch? && c.subs != [] && c.r.state.IsTerminal() ==>
      && (c.r.state.Succeeded? ==> !c.r.cancelled)
      && (c.r.state.Cancelled? ==> c.r.cancelled && c.r.cancellationFailure.None?)
      && (c.r.state.Failed? ==> c.r.cancelled && c.r.cancellationFailure.Some? && c.r.log == c.r.cancellationFailure)
  }

  /** Every index claimed so far was begun, is about to be, or was abandoned, exactly once. */
  predicate Claimed(begun: seq<nat>, subs: seq<SubPc>, abandoned: seq<nat>, next: nat, count: nat, i: nat) {
    Occurrences(begun, i) + ClaimCount(subs, i) + Occurrences(abandoned, i) == One(i < next && i < count)
  }

  /** Every begun item is in a thread's hands, in the outcomes, or was discarded, exactly once. */
  predicate Conserved(begun: seq<nat>, subs: seq<SubPc>, outcomes: seq<Outcome>, discarded: seq<nat>, i: nat) {
    Occurrences(begun, i) == HoldCount(subs, i) + OutcomeCount(outcomes, i) + Occurrences(discarded, i)
  }

  predicate BindingHeld(bindings: seq<bool>, begun: seq<nat>, i: nat) {
    i < |bindings| ==> (bindings[i] <==> Occurrences(begun, i) == 0)
  }

  ghost predicate CountsOf(
    begun: seq<nat>, subs: seq<SubPc>, abandoned: seq<nat>, discarded: seq<nat>, next: nat, r: Record)
  {
    && (forall i: nat :: Claimed(begun, subs, abandoned, next, |r.models|, i))
    && (forall i: nat :: Conserved(begun, subs, r.outcomes, discarded, i))
    && r.active == Busy(subs)
    && |begun| == r.active + |r.outcomes| + |discarded|
    && r.succeeded == StatusCount(r.outcomes, ItemSucceeded)
    && r.failed == StatusCount(r.outcomes, ItemFailed)
    && r.succeeded + r.failed == |r.outcomes|
    && (abandoned != [] || discarded != [] ==> r.cancelled)
    && (!r.cancelled ==> forall w :: 0 <= w < |subs| && subs[w].SubExited? ==> next >= |r.models|)
    && ((r.shape.Batch? && !r.state.IsTerminal()) || r.state.Queued? ==>
          forall i: nat :: BindingHeld(r.bindings, begun, i))
  }

  ghost predicate Counts(c: Cell) {
    CountsOf(c.begun, c.subs, c.abandoned, c.discarded, c.next, c.r)
  }

  ghost predicate CancelHistory(h: seq<Event>, cancelled: bool, state: OperationState, failure: Option<string>) {
    && (CancelAccepted(h) <==> cancelled)
    && (forall e :: e in h && AnswersCancelled(e) ==> cancelled || state.Cancelled?)
    && (forall i, j :: 0 <= i < j < |h| && AnswersCancelled(h[i]) ==> !h[j].CommitCalled?)
    && FirstLateFailure(h) == failure
  }

  /** The successful commit a thread is carrying to the record. */
  function CreditOf(pc: SubPc): Option<(nat, seq<Artifact>)> {
    if pc.WarnItem? then Some((pc.i, pc.artifacts))
    else if pc.Settle? && pc.result.ItemOk? then Some((pc.i, pc.result.artifacts))
    else None
  }

  predicate CreditedBySub(pc: SubPc, item: nat, artifacts: seq<Artifact>) {
    CreditOf(pc) == Some((item, artifacts))
  }

  predicate CreditedByOutcome(o: Outcome, item: nat, artifacts: seq<Artifact>) {
    o.itemIndex == item && o.status.ItemSucceeded? && o.artifacts == artifacts
  }

  /** A Batch item's successful commit is on its way to the outcomes, or already in them. */
  ghost predicate CreditedItem(subs: seq<SubPc>, outcomes: seq<Outcome>, item: nat, artifacts: seq<Artifact>) {
    || (exists w :: 0 <= w < |subs| && CreditedBySub(subs[w], item, artifacts))
    || (exists k :: 0 <= k < |outcomes| && CreditedByOutcome(outcomes[k], item, artifacts))
  }

  ghost predicate ItemCommitHistory(h: seq<Event>, subs: seq<SubPc>, outcomes: seq<Outcome>) {
    && (forall e :: e in h && e.CommitCalled? && e.succeeded ==> CreditedItem(subs, outcomes, e.item, e.artifacts))
    && (forall w, item, artifacts :: 0 <= w < |subs| && CreditedBySub(subs[w], item, artifacts) ==>
          CommitCalled(item, artifacts, true) in h)
    && (forall k :: 0 <= k < |outcomes| && outcomes[k].status.ItemSucceeded? ==>
          CommitCalled(outcomes[k].itemIndex, outcomes[k].artifacts, true) in h)
  }

  predicate CreditedSingle(worker: WorkerPc, state: OperationState, artifacts: seq<Artifact>,
                           committed: seq<Artifact>) {
    || (worker.WriteSingle? && worker.artifacts == committed)
    || (state.Succeeded? && artifacts == committed)
  }

  ghost predicate SingleCommitHistory(h: seq<Event>, worker: WorkerPc, state: OperationState,
                                      artifacts: seq<Artifact>) {
    && (forall e :: e in h && e.CommitCalled? && e.succeeded ==>
          e.item == 0 && CreditedSingle(worker, state, artifacts, e.artifacts))
    && (worker.WriteSingle? ==> CommitCalled(0, worker.artifacts, true) in h)
    && (state.Succeeded? ==> CommitCalled(0, artifacts, true) in h)
  }

  ghost predicate CommitHistory(c: Cell) {
    if c.r.shape.Single?
    then SingleCommitHistory(c.history, c.worker, c.r.state, c.r.singleArtifacts)
    else ItemCommitHistory(c.history, c.subs, c.r.outcomes)
  }

  /** Nothing of the Batch is left to do: every item was claimed, and none was lost to a cancel. */
  predicate AllSettled(c: Cell) {
    && c.r.shape.Batch? && Ran(c) && AllExited(c)
    && c.next >= |c.r.models| && c.abandoned == [] && c.discarded == []
  }

  predicate DecisionHistory(h: seq<Event>, worker: WorkerPc, shape: ExecutionShape, state: OperationState,
                            settled: bool) {
    && (worker.SucceedBatchPc? ==> FlagFoundClear in h)
    && (worker.Exited? && shape.Batch? && state.Cancelling? ==> FlagFoundClear in h)
    && (shape.Batch? && state.Succeeded? ==> FlagFoundClear in h)
    && (FlagFoundClear in h ==>
          && settled
          && (worker.SucceedBatchPc? || worker.RetainPending? || worker.Exited?)
          && !state.Failed? && !state.Cancelled?)
    && (forall i, j | 0 <= i < |h| && 0 <= j < |h| :: h[i].FlagFoundClear? && Accepts(h[j]) ==> i < j)
  }

  predicate TerminalHistory(h: seq<Event>, state: OperationState) {
    && (state.IsTerminal() <==> BecameTerminal(state) in h)
    && (forall k :: 0 <= k < |h| && h[k].BecameTerminal? ==> h[k].state == state)
    && (forall i, j :: 0 <= i < j < |h| && h[i].BecameTerminal? ==> !h[j].BecameTerminal?)
  }

  predicate RetainIsPending(worker: WorkerPc, cancels: map<nat, CancelPc>) {
    worker.RetainPending? || exists id :: id in cancels && cancels[id].RetainCancelled?
  }

  /** Exactly one thread is charged with retaining a terminal Operation, and it does so once. */
  predicate Retention(retains: nat, present: bool, terminal: bool, worker: WorkerPc, cancels: map<nat, CancelPc>) {
    && retains <= 1
    && (!present ==> retains == 1)
    && (RetainIsPending(worker, cancels) ==> terminal && retains == 0)
    && (terminal && retains == 0 ==> RetainIsPending(worker, cancels))
    && (retains == 1 ==> terminal)
    && (worker.RetainPending? ==> forall id :: id in cancels ==> !cancels[id].RetainCancelled?)
    && (forall i, j :: i in cancels && j in cancels && cancels[i].RetainCancelled? && cancels[j].RetainCancelled? ==>
        i == j)
  }

  /** An edge of the Operation state machine, self loops included. */
  predicate Edge(s: OperationState, t: OperationState) {
    match s
    case Queued => t.Running? || t.Cancelled? || t.Failed?
    case Running => !t.Queued?
    case Cancelling => t.Cancelling? || t.Cancelled? || t.Failed?
    case _ => false
  }

  predicate Follows(s: Snapshot, t: Snapshot) {
    Edge(s.state, t.state) && s.succeeded <= t.succeeded && s.failed <= t.failed && s.itemCount == t.itemCount
  }

  predicate Path(observed: seq<Snapshot>) {
    && observed != []
    && observed[0].state.Queued?
    && forall k :: 0 < k < |observed| ==> Follows(observed[k - 1], observed[k])
  }

  predicate Observations(observed: seq<Snapshot>, r: Record) {
    && Path(observed)
    && var last := observed[|observed| - 1];
       && last.state == r.state && last.succeeded == r.succeeded
       && last.failed == r.failed && last.itemCount == |r.models|
  }

  // What the threads and the record look like.
  ghost predicate Control(c: Cell) {
    && WellFormed(c) && Locks(c.worker, c.subs, c.holder, c.cancels) && Phase(c) && Verdict(c)
    && Retention(c.retains, c.present, c.r.state.IsTerminal(), c.worker, c.cancels)
    && Observations(c.observed, c.r)
  }

  // What has happened so far.
  ghost predicate Books(c: Cell) {
    && CancelHistory(c.history, c.r.cancelled, c.r.state, c.r.cancellationFailure)
    && CommitHistory(c)
    && DecisionHistory(c.history, c.worker, c.r.shape, c.r.state, AllSettled(c))
    && TerminalHistory(c.history, c.r.state)
  }

  ghost predicate Inv(c: Cell) {
    Control(c) && Counts(c) && Books(c)
  }

  lemma FreshCellInv(sequence: nat, shape: ExecutionShape, models: seq<string>, concurrency: nat)
    requires ValidSubmission(shape, models, concurrency)
    ensures Inv(FreshCell(Accepted(sequence, shape, models, concurrency)))
  {}
}

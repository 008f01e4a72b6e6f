/** One Model Operation under concurrency: its worker thread, the Batch's scoped threads and any
    number of cancellers, interleaved one critical section (or one atomic access) at a time.
    The executor's `run`, `stage` and `commit` are oracles: an action carries what they answered.

    A `Cell` is everything that belongs to one Operation. The fields below `cancels` are auxiliary:
    no action reads them, they only record what has happened. */
module OperationProtocol {
  import opened Options
  import opened OperationRecord

  datatype Holder = WorkerHolds | SubHolds(w: nat) | CancelHolds(c: nat)

  datatype WorkerPc =
    | AwaitStart                  // blocked on the start channel
    | StartLost                   // the start channel broke; the submitter records the failure
    | TakeSingle                  // execute_single, before its first critical section
    | RunSingle
    | StagedSingle(artifacts: seq<Artifact>)
    | CheckSingle(artifacts: seq<Artifact>)
    | CommitSingle(artifacts: seq<Artifact>)
    | WriteSingle(artifacts: seq<Artifact>, warnings: CommitWarnings)
    | ReadBatch                   // execute_batch, before its first critical section
    | ScopeBatch                  // inside thread::scope
    | JoinedBatch
    | DecideBatch                 // no cancellation failure was read; about to test the flag
    | SucceedBatchPc              // the flag was clear; about to call finish_succeeded_batch
    | CancelPending(holding: bool)            // about to call finish_cancelled
    | FailPending(log: string, holding: bool) // about to call finish_failed
    | RetainPending(holding: bool)
    | UnlockPending
    | Exited

  datatype SubPc =
    | ReadFlag
    | FetchIndex
    | Begin(i: nat)
    | RunItem(i: nat)
    | StagedItem(i: nat, artifacts: seq<Artifact>)
    | CheckItem(i: nat, artifacts: seq<Artifact>)
    | CommitItem(i: nat, artifacts: seq<Artifact>)
    | WarnItem(i: nat, artifacts: seq<Artifact>, warnings: CommitWarnings)
    | Settle(i: nat, result: ItemResult, holding: bool)
    | UnlockItem
    | SubExited

  datatype CancelReply = NotFound | Answer(snapshot: Snapshot) | AlreadyTerminal(snapshot: Snapshot)

  datatype CancelPc =
    | WantLock
    | HoldsLock
    | RetainCancelled(reply: CancelReply)
    | ReleaseCancel(reply: CancelReply)
    | Returned(reply: CancelReply)

  datatype Event =
    | CancelAnswered(reply: CancelReply, accepted: bool)
    | CommitCalled(item: nat, artifacts: seq<Artifact>, succeeded: bool)
    | ItemBegun(item: nat)
    | ItemSettled(item: nat, result: ItemResult)
    | FlagFoundClear
    | BecameTerminal(state: OperationState)

  datatype Cell = Cell(
    present: bool,                 // the registry still holds the record
    r: Record,
    worker: WorkerPc,
    subs: seq<SubPc>,
    next: nat,
    holder: Option<Holder>,        // who holds the completion lock
    cancels: map<nat, CancelPc>,
    begun: seq<nat>,
    abandoned: seq<nat>,
    discarded: seq<nat>,
    retains: nat,                  // calls of retain_terminal so far
    history: seq<Event>,
    observed: seq<Snapshot>)       // observations prepared, in order

  datatype StageResult = Staged(artifacts: seq<Artifact>) | StageFailed(error: ExecutionError)
  datatype CommitResult = Committed(warnings: CommitWarnings) | CommitFailed(error: ExecutionError)

  datatype SubStep =
    | DoReadFlag | DoFetch | DoBegin | DoRun(staged: StageResult) | DoLock | DoCheck
    | DoCommit(committed: CommitResult) | DoWarn | DoSettle | DoUnlock

  datatype Action =
    | LoseStart
    | Execute
    | TakeBindingStep
    | RunStep(staged: StageResult)
    | LockStep
    | CheckStep
    | CommitStep(committed: CommitResult)
    | WriteStep
    | ReadBatchStep
    | JoinStep
    | ReadFailureStep
    | DecideStep
    | SucceedBatchStep
    | FinishStep
    | RetainStep
    | UnlockStep
    | SubAction(w: nat, step: SubStep)
    | CancelArrive(c: nat)
    | CancelLock(c: nat)
    | CancelWrite(c: nat)
    | CancelRetain(c: nat)
    | CancelRelease(c: nat)

  const NEVER_STARTED := "Model Operation execution task did not start."

  function FreshCell(r: Record): Cell {
    Cell(true, r, AwaitStart, [], 0, None, map[], [], [], [], 0, [], [SnapshotOf(r)])
  }

  predicate WorkerHolding(pc: WorkerPc) {
    match pc
    case CheckSingle(_) => true
    case CommitSingle(_) => true
    case WriteSingle(_, _) => true
    case CancelPending(h) => h
    case FailPending(_, h) => h
    case RetainPending(h) => h
    case UnlockPending => true
    case _ => false
  }

  predicate SubHolding(pc: SubPc) {
    match pc
    case CheckItem(_, _) => true
    case CommitItem(_, _) => true
    case WarnItem(_, _, _) => true
    case Settle(_, _, h) => h
    case UnlockItem => true
    case _ => false
  }

  predicate CancelHolding(pc: CancelPc) {
    pc.HoldsLock? || pc.RetainCancelled? || pc.ReleaseCancel?
  }

  predicate SubEnabled(c: Cell, w: nat, step: SubStep) {
    && c.worker.ScopeBatch?
    && w < |c.subs|
    && match step
       case DoReadFlag => c.subs[w].ReadFlag?
       case DoFetch => c.subs[w].FetchIndex?
       case DoBegin => c.subs[w].Begin?
       case DoRun(_) => c.subs[w].RunItem?
       case DoLock => c.subs[w].StagedItem? && c.holder.None?
       case DoCheck => c.subs[w].CheckItem?
       case DoCommit(_) => c.subs[w].CommitItem?
       case DoWarn => c.subs[w].WarnItem?
       case DoSettle => c.subs[w].Settle?
       case DoUnlock => c.subs[w].UnlockItem?
  }

  predicate Enabled(c: Cell, a: Action) {
    match a
    case LoseStart => c.worker.AwaitStart?
    case Execute => c.worker.AwaitStart?
    case TakeBindingStep => c.worker.TakeSingle?
    case RunStep(_) => c.worker.RunSingle?
    case LockStep => c.worker.StagedSingle? && c.holder.None?
    case CheckStep => c.worker.CheckSingle?
    case CommitStep(_) => c.worker.CommitSingle?
    case WriteStep => c.worker.WriteSingle?
    case ReadBatchStep => c.worker.ReadBatch?
    case JoinStep => c.worker.ScopeBatch? && forall w :: 0 <= w < |c.subs| ==> c.subs[w].SubExited?
    case ReadFailureStep => c.worker.JoinedBatch?
    case DecideStep => c.worker.DecideBatch?
    case SucceedBatchStep => c.worker.SucceedBatchPc?
    case FinishStep => c.worker.CancelPending? || c.worker.FailPending? || c.worker.StartLost?
    case RetainStep => c.worker.RetainPending?
    case UnlockStep => c.worker.UnlockPending?
    case SubAction(w, step) => SubEnabled(c, w, step)
    case CancelArrive(id) => id !in c.cancels
    case CancelLock(id) => id in c.cancels && c.cancels[id].WantLock? && c.holder.None?
    case CancelWrite(id) => id in c.cancels && c.cancels[id].HoldsLock?
    case CancelRetain(id) => id in c.cancels && c.cancels[id].RetainCancelled?
    case CancelRelease(id) => id in c.cancels && c.cancels[id].ReleaseCancel?
  }

  /** Where a Runtime `panic!` would be raised: the source's `expect`s on item bindings and on the
      active counter. The invariants show that no enabled action ever meets one. */
  predicate WouldPanic(c: Cell, a: Action) {
    match a
    case TakeBindingStep => c.worker.TakeSingle? && c.present && !(|c.r.bindings| > 0 && c.r.bindings[0])
    case SubAction(w, step) =>
      && w < |c.subs| && c.present
      && (match step
          case DoBegin =>
            && c.subs[w].Begin? && CanBegin(c.r)
            && !(c.subs[w].i < |c.r.bindings| && c.r.bindings[c.subs[w].i])
          case DoSettle => c.subs[w].Settle? && c.r.active == 0
          case _ => false)
    case _ => false
  }

  // The record is rewritten, an observation of it is prepared in the same critical section.
  function Observe(c: Cell, r: Record): Cell {
    c.(r := r, observed := c.observed + [SnapshotOf(r)])
  }

  function Log(c: Cell, e: Event): Cell {
    c.(history := c.history + [e])
  }

  function AfterUnlock(holding: bool): WorkerPc {
    if holding then UnlockPending else Exited
  }

  // finish_cancelled, finish_failed, finish_succeeded_batch and the Single write: a changed record
  // is terminal and must be retained; an unchanged one leaves nothing to do but release the lock.
  function Finish(c: Cell, r: Record, holding: bool): Cell {
    if c.present && r != c.r then
      Log(Observe(c, r), BecameTerminal(r.state)).(worker := RetainPending(holding))
    else
      c.(worker := AfterUnlock(holding))
  }

  function SubGo(c: Cell, w: nat, pc: SubPc): Cell
    requires w < |c.subs|
  {
    c.(subs := c.subs[w := pc])
  }

  function CancelGo(c: Cell, id: nat, pc: CancelPc): Cell {
    c.(cancels := c.cancels[id := pc])
  }

  // ---------- The scoped threads of a Batch ----------

  function SubReadFlag(c: Cell, w: nat): Cell
    requires SubEnabled(c, w, DoReadFlag)
  {
    SubGo(c, w, if c.r.cancelled then SubExited else FetchIndex)
  }

  function SubFetch(c: Cell, w: nat): Cell
    requires SubEnabled(c, w, DoFetch)
  {
    SubGo(c, w, if c.next < |c.r.models| then Begin(c.next) else SubExited).(next := c.next + 1)
  }

  function SubBegin(c: Cell, w: nat): Cell
    requires SubEnabled(c, w, DoBegin) && !WouldPanic(c, SubAction(w, DoBegin))
  {
    var i := c.subs[w].i;
    if c.present && CanBegin(c.r) then
      Log(SubGo(c, w, RunItem(i)).(r := BeginItem(c.r, i), begun := c.begun + [i]), ItemBegun(i))
    else
      SubGo(c, w, SubExited).(abandoned := c.abandoned + [i])
  }

  function SubRun(c: Cell, w: nat, staged: StageResult): Cell
    requires SubEnabled(c, w, DoRun(staged))
  {
    var i := c.subs[w].i;
    SubGo(c, w, match staged
                case Staged(artifacts) => StagedItem(i, artifacts)
                case StageFailed(error) => Settle(i, ItemErr(error), false))
  }

  function SubLock(c: Cell, w: nat): Cell
    requires SubEnabled(c, w, DoLock)
  {
    SubGo(c, w, CheckItem(c.subs[w].i, c.subs[w].artifacts)).(holder := Some(SubHolds(w)))
  }

  function SubCheck(c: Cell, w: nat): Cell
    requires SubEnabled(c, w, DoCheck)
  {
    var pc := c.subs[w];
    SubGo(c, w, if c.r.cancelled then Settle(pc.i, ItemErr(CANCELLED_ERROR), true)
                else CommitItem(pc.i, pc.artifacts))
  }

  function SubCommit(c: Cell, w: nat, committed: CommitResult): Cell
    requires SubEnabled(c, w, DoCommit(committed))
  {
    var pc := c.subs[w];
    Log(SubGo(c, w, match committed
                    case Committed(warnings) =>
                      if warnings != NO_WARNINGS then WarnItem(pc.i, pc.artifacts, warnings)
                      else Settle(pc.i, ItemOk(pc.artifacts), true)
                    case CommitFailed(error) => Settle(pc.i, ItemErr(error), true)),
        CommitCalled(pc.i, pc.artifacts, committed.Committed?))
  }

  function SubWarn(c: Cell, w: nat): Cell
    requires SubEnabled(c, w, DoWarn)
  {
    var pc := c.subs[w];
    SubGo(c, w, Settle(pc.i, ItemOk(pc.artifacts), true))
      .(r := if c.present then RecordWarnings(c.r, pc.warnings) else c.r)
  }

  function SubSettle(c: Cell, w: nat): Cell
    requires SubEnabled(c, w, DoSettle) && !WouldPanic(c, SubAction(w, DoSettle))
  {
    var pc := c.subs[w];
    var moved := SubGo(c, w, if pc.holding then UnlockItem else ReadFlag);
    if c.present then
      var model := if pc.i < |c.r.models| then c.r.models[pc.i] else "";
      Log(Observe(moved, SettleItem(c.r, pc.i, model, pc.result))
            .(discarded := if pc.result.ItemErr? && c.r.cancelled then c.discarded + [pc.i] else c.discarded),
          ItemSettled(pc.i, pc.result))
    else moved
  }

  function SubUnlock(c: Cell, w: nat): Cell
    requires SubEnabled(c, w, DoUnlock)
  {
    SubGo(c, w, ReadFlag).(holder := None)
  }

  function SubApply(c: Cell, w: nat, step: SubStep): Cell
    requires SubEnabled(c, w, step) && !WouldPanic(c, SubAction(w, step))
  {
    match step
    case DoReadFlag => SubReadFlag(c, w)
    case DoFetch => SubFetch(c, w)
    case DoBegin => SubBegin(c, w)
    case DoRun(staged) => SubRun(c, w, staged)
    case DoLock => SubLock(c, w)
    case DoCheck => SubCheck(c, w)
    case DoCommit(committed) => SubCommit(c, w, committed)
    case DoWarn => SubWarn(c, w)
    case DoSettle => SubSettle(c, w)
    case DoUnlock => SubUnlock(c, w)
  }

  // ---------- The worker thread ----------

  function WorkerExecute(c: Cell): Cell {
    if c.present && c.r.state.Queued? then
      Observe(c, Launch(c.r)).(worker := if c.r.shape.Single? then TakeSingle else ReadBatch)
    else c.(worker := Exited)
  }

  function WorkerTakeBinding(c: Cell): Cell
    requires c.worker.TakeSingle? && !WouldPanic(c, TakeBindingStep)
  {
    if c.present then c.(r := TakeBinding(c.r, 0), worker := RunSingle) else c.(worker := Exited)
  }

  function WorkerRun(c: Cell, staged: StageResult): Cell {
    c.(worker := match staged
                 case Staged(artifacts) => StagedSingle(artifacts)
                 case StageFailed(error) =>
                   if error.cancelled then CancelPending(false) else FailPending(error.log, false))
  }

  function WorkerCommit(c: Cell, committed: CommitResult): Cell
    requires c.worker.CommitSingle?
  {
    Log(c.(worker := match committed
                     case Committed(warnings) => WriteSingle(c.worker.artifacts, warnings)
                     case CommitFailed(error) => FailPending(error.log, true)),
        CommitCalled(0, c.worker.artifacts, committed.Committed?))
  }

  function WorkerWrite(c: Cell): Cell
    requires c.worker.WriteSingle?
  {
    if c.present then
      Log(Observe(c, SucceedSingle(c.r, c.worker.artifacts, c.worker.warnings)), BecameTerminal(Succeeded))
        .(worker := RetainPending(true))
    else c.(worker := UnlockPending)
  }

  function WorkerReadBatch(c: Cell): Cell {
    if c.present then c.(worker := ScopeBatch, subs := seq(c.r.concurrency, _ => ReadFlag))
    else c.(worker := Exited)
  }

  function WorkerReadFailure(c: Cell): Cell {
    if c.present && c.r.state.Cancelling? && c.r.cancellationFailure.Some?
    then c.(worker := FailPending(c.r.cancellationFailure.value, false))
    else c.(worker := DecideBatch)
  }

  function WorkerDecide(c: Cell): Cell {
    if c.r.cancelled then c.(worker := CancelPending(false))
    else Log(c, FlagFoundClear).(worker := SucceedBatchPc)
  }

  // The record finish_cancelled or finish_failed leaves, and whether the completion lock is held.
  function WorkerEnding(c: Cell): (Record, bool) {
    match c.worker
    case CancelPending(holding) => (FinishCancelled(c.r), holding)
    case FailPending(log, holding) => (FinishFailed(c.r, log), holding)
    case _ => (FinishFailed(c.r, NEVER_STARTED), false)
  }

  function WorkerFinish(c: Cell): Cell {
    Finish(c, WorkerEnding(c).0, WorkerEnding(c).1)
  }

  // ---------- Cancellers ----------

  /** The answer when cancellation changes nothing. */
  function LateReply(c: Cell): CancelReply {
    if !c.present then NotFound
    else if c.r.state.Cancelling? || c.r.state.Cancelled? then Answer(SnapshotOf(c.r))
    else AlreadyTerminal(SnapshotOf(c.r))
  }

  function CancelRecord(c: Cell, id: nat): Cell {
    if c.present && c.r.state.Queued? then
      var reply := Answer(SnapshotOf(Cancel(c.r)));
      Log(Log(CancelGo(Observe(c, Cancel(c.r)), id, RetainCancelled(reply)), CancelAnswered(reply, true)),
          BecameTerminal(Cancelled))
    else if c.present && c.r.state.Running? then
      var reply := Answer(SnapshotOf(Cancel(c.r)));
      Log(CancelGo(Observe(c, Cancel(c.r)), id, ReleaseCancel(reply)), CancelAnswered(reply, true))
    else
      Log(CancelGo(c, id, ReleaseCancel(LateReply(c))), CancelAnswered(LateReply(c), false))
  }

  function Apply(c: Cell, a: Action): Cell
    requires Enabled(c, a) && !WouldPanic(c, a)
  {
    match a
    case LoseStart => c.(worker := StartLost)
    case Execute => WorkerExecute(c)
    case TakeBindingStep => WorkerTakeBinding(c)
    case RunStep(staged) => WorkerRun(c, staged)
    case LockStep => c.(worker := CheckSingle(c.worker.artifacts), holder := Some(WorkerHolds))
    case CheckStep =>
      c.(worker := if c.r.cancelled then CancelPending(true) else CommitSingle(c.worker.artifacts))
    case CommitStep(committed) => WorkerCommit(c, committed)
    case WriteStep => WorkerWrite(c)
    case ReadBatchStep => WorkerReadBatch(c)
    case JoinStep => c.(worker := JoinedBatch)
    case ReadFailureStep => WorkerReadFailure(c)
    case DecideStep => WorkerDecide(c)
    case SucceedBatchStep => Finish(c, SucceedBatch(c.r), false)
    case FinishStep => WorkerFinish(c)
    case RetainStep => c.(worker := AfterUnlock(c.worker.holding), retains := c.retains + 1)
    case UnlockStep => c.(worker := Exited, holder := None)
    case SubAction(w, step) => SubApply(c, w, step)
    case CancelArrive(id) => CancelGo(c, id, if c.present then WantLock else Returned(NotFound))
    case CancelLock(id) => CancelGo(c, id, HoldsLock).(holder := Some(CancelHolds(id)))
    case CancelWrite(id) => CancelRecord(c, id)
    case CancelRetain(id) => CancelGo(c, id, ReleaseCancel(c.cancels[id].reply)).(retains := c.retains + 1)
    case CancelRelease(id) => CancelGo(c, id, Returned(c.cancels[id].reply)).(holder := None)
  }
}

/** The completion lock, which makes cancel and commit one after the other: whoever holds it can go on,
    gives it back after a few steps of its own, and is not disturbed by anybody else. */
module OperationLock {
  import opened Options
  import opened OperationRecord
  import opened OperationProtocol
  import opened OperationInvariant
  import opened OperationRegistry
  import OperationTheorems

  /** Whether `a` is an action of the thread that `holder` names. */
  predicate ActsFor(a: Action, holder: Holder) {
    match a
    case SubAction(w, _) => holder == SubHolds(w)
    case CancelArrive(id) => holder == CancelHolds(id)
    case CancelLock(id) => holder == CancelHolds(id)
    case CancelWrite(id) => holder == CancelHolds(id)
    case CancelRetain(id) => holder == CancelHolds(id)
    case CancelRelease(id) => holder == CancelHolds(id)
    case _ => holder == WorkerHolds
  }

  function WorkerDistance(pc: WorkerPc): nat {
    match pc
    case CheckSingle(_) => 5
    case CommitSingle(_) => 4
    case WriteSingle(_, _) => 3
    case CancelPending(_) => 3
    case FailPending(_, _) => 3
    case RetainPending(_) => 2
    case _ => 1
  }

  function SubDistance(pc: SubPc): nat {
    match pc
    case CheckItem(_, _) => 5
    case CommitItem(_, _) => 4
    case WarnItem(_, _, _) => 3
    case Settle(_, _, _) => 2
    case _ => 1
  }

  function CancelDistance(pc: CancelPc): nat {
    match pc
    case HoldsLock => 3
    case RetainCancelled(_) => 2
    case _ => 1
  }

  /** How many steps, at most, the holder still takes before it gives the lock back. */
  function Distance(c: Cell): nat {
    match c.holder
    case None => 0
    case Some(WorkerHolds) => WorkerDistance(c.worker)
    case Some(SubHolds(w)) => if w < |c.subs| then SubDistance(c.subs[w]) else 0
    case Some(CancelHolds(id)) => if id in c.cancels then CancelDistance(c.cancels[id]) else 0
  }

  // The next action of the holder, whatever the executor answers.
  function NextOfHolder(c: Cell, committed: CommitResult): Action
    requires c.holder.Some?
  {
    match c.holder.value
    case WorkerHolds =>
      (match c.worker
       case CheckSingle(_) => CheckStep
       case CommitSingle(_) => CommitStep(committed)
       case WriteSingle(_, _) => WriteStep
       case RetainPending(_) => RetainStep
       case UnlockPending => UnlockStep
       case _ => FinishStep)
    case SubHolds(w) =>
      SubAction(w, if w >= |c.subs| then DoUnlock
                   else match c.subs[w]
                        case CheckItem(_, _) => DoCheck
                        case CommitItem(_, _) => DoCommit(committed)
                        case WarnItem(_, _, _) => DoWarn
                        case Settle(_, _, _) => DoSettle
                        case _ => DoUnlock)
    case CancelHolds(id) =>
      if id !in c.cancels then CancelRelease(id)
      else match c.cancels[id]
           case HoldsLock => CancelWrite(id)
           case RetainCancelled(_) => CancelRetain(id)
           case _ => CancelRelease(id)
  }

  lemma WorkerCanMove(c: Cell, committed: CommitResult)
    requires Control(c) && c.holder == Some(WorkerHolds)
    ensures Enabled(c, NextOfHolder(c, committed))
  {}

  lemma SubCanMove(c: Cell, w: nat, committed: CommitResult)
    requires Control(c) && c.holder == Some(SubHolds(w))
    ensures Enabled(c, NextOfHolder(c, committed))
  {
    assert SubHolding(c.subs[w]);
  }

  lemma CancelCanMove(c: Cell, id: nat, committed: CommitResult)
    requires Control(c) && c.holder == Some(CancelHolds(id))
    ensures Enabled(c, NextOfHolder(c, committed))
  {
    assert CancelHolding(c.cancels[id]);
  }

  lemma HolderIsEnabled(c: Cell, committed: CommitResult)
    requires Control(c) && c.holder.Some?
    ensures Enabled(c, NextOfHolder(c, committed))
  {
    match c.holder.value
    case WorkerHolds => WorkerCanMove(c, committed);
    case SubHolds(w) => SubCanMove(c, w, committed);
    case CancelHolds(canceller) => CancelCanMove(c, canceller, committed);
  }

  /** In every reachable registry the holder of a completion lock can take its next step. */
  lemma HolderCanMove(s: Registry, id: OpId, committed: CommitResult)
    requires Reachable(s) && id in s.cells && s.cells[id].holder.Some?
    ensures var a := NextOfHolder(s.cells[id], committed);
            ActsFor(a, s.cells[id].holder.value) && CanStep(s, Act(id, a))
  {
    OperationTheorems.ReachableCell(s, id);
    var c := s.cells[id];
    HolderIsEnabled(c, committed);
    OperationTheorems.NeverPanics(s, id, NextOfHolder(c, committed));
  }

  /** What an action does to the lock: its holder gives it back or comes nearer to that, and anybody
      else leaves both the lock and the distance alone. */
  predicate Nearer(c: Cell, n: Cell, own: bool) {
    if own then n.holder.None? || (n.holder == c.holder && Distance(n) < Distance(c))
    else n.holder == c.holder && Distance(n) == Distance(c)
  }

  // The steps of a scoped thread outside the lock, and inside it.
  predicate Outside(step: SubStep) {
    step.DoReadFlag? || step.DoFetch? || step.DoBegin? || step.DoRun? || step.DoLock?
  }

  lemma OutsideNearer(c: Cell, w: nat, step: SubStep)
    requires Control(c) && c.holder.Some? && SubEnabled(c, w, step) && !WouldPanic(c, SubAction(w, step))
                 && Outside(step)
    ensures Nearer(c, SubApply(c, w, step), c.holder == Some(SubHolds(w)))
  {}

  lemma InsideNearer(c: Cell, w: nat, step: SubStep)
    requires Control(c) && c.holder.Some? && SubEnabled(c, w, step) && !WouldPanic(c, SubAction(w, step))
                 && !Outside(step)
    ensures Nearer(c, SubApply(c, w, step), c.holder == Some(SubHolds(w)))
  {}

  lemma CancelRecordNearer(c: Cell, id: nat)
    requires Control(c) && c.holder.Some? && id in c.cancels && c.cancels[id].HoldsLock?
    ensures Nearer(c, CancelRecord(c, id), c.holder == Some(CancelHolds(id)))
  {}

  lemma FinishNearer(c: Cell)
    requires Control(c) && c.holder.Some?
    requires c.worker.CancelPending? || c.worker.FailPending? || c.worker.StartLost?
    ensures Nearer(c, WorkerFinish(c), c.holder == Some(WorkerHolds))
  {}

  lemma SucceedBatchNearer(c: Cell)
    requires Control(c) && c.holder.Some? && c.worker.SucceedBatchPc?
    ensures Nearer(c, Finish(c, SucceedBatch(c.r), false), c.holder == Some(WorkerHolds))
  {}

  lemma CancelMoveNearer(c: Cell, a: Action)
    requires Control(c) && c.holder.Some? && Enabled(c, a)
    requires a.CancelArrive? || a.CancelLock? || a.CancelRetain? || a.CancelRelease?
    ensures Nearer(c, Apply(c, a), ActsFor(a, c.holder.value))
  {}

  lemma WorkerActionNearer(c: Cell, a: Action)
    requires Control(c) && c.holder.Some? && Enabled(c, a) && !WouldPanic(c, a)
    requires !a.SubAction? && !a.CancelArrive? && !a.CancelLock? && !a.CancelWrite? && !a.CancelRetain?
             && !a.CancelRelease? && !a.FinishStep? && !a.SucceedBatchStep?
    ensures Nearer(c, Apply(c, a), c.holder == Some(WorkerHolds))
  {}

  lemma SubStepNearer(c: Cell, w: nat, step: SubStep)
    requires Control(c) && c.holder.Some? && SubEnabled(c, w, step) && !WouldPanic(c, SubAction(w, step))
    ensures Nearer(c, SubApply(c, w, step), c.holder == Some(SubHolds(w)))
  {
    if Outside(step) {
      OutsideNearer(c, w, step);
    } else {
      InsideNearer(c, w, step);
    }
  }

  lemma EndingNearer(c: Cell, a: Action)
    requires Control(c) && c.holder.Some? && Enabled(c, a) && (a.FinishStep? || a.SucceedBatchStep?)
    ensures Nearer(c, Apply(c, a), c.holder == Some(WorkerHolds))
  {
    if a.FinishStep? {
      FinishNearer(c);
    } else {
      SucceedBatchNearer(c);
    }
  }

  lemma ActionNearer(c: Cell, a: Action)
    requires Control(c) && c.holder.Some? && Enabled(c, a) && !WouldPanic(c, a)
    ensures Nearer(c, Apply(c, a), ActsFor(a, c.holder.value))
  {
    if a.SubAction? {
      SubStepNearer(c, a.w, a.step);
    } else if a.CancelWrite? {
      CancelRecordNearer(c, a.c);
    } else if a.CancelArrive? || a.CancelLock? || a.CancelRetain? || a.CancelRelease? {
      CancelMoveNearer(c, a);
    } else if a.FinishStep? || a.SucceedBatchStep? {
      EndingNearer(c, a);
    } else {
      WorkerActionNearer(c, a);
    }
  }

  /** Whoever holds a completion lock gives it back after at most five steps of its own, and until then
      no step of anybody else takes it away or sets the holder back. */
  lemma HolderReleases(s: Registry, id: OpId, a: Action)
    requires Reachable(s) && id in s.cells && s.cells[id].holder.Some? && CanStep(s, Act(id, a))
    ensures Distance(s.cells[id]) <= 5
    ensures Nearer(s.cells[id], Apply(s.cells[id], a), ActsFor(a, s.cells[id].holder.value))
  {
    OperationTheorems.ReachableCell(s, id);
    ActionNearer(s.cells[id], a);
  }
}

/** An Operation comes to its end: its own threads take only so many steps, and until its worker is gone
    there is always a next one. */
module OperationProgress {
  import opened Options
  import opened OperationRecord
  import opened OperationProtocol
  import opened OperationInvariant
  import opened OperationRegistry
  import opened OperationOutcomes
  import opened OperationShown
  import opened OperationLock
  import OperationTheorems

  // ---------- How many steps are left ----------

  function WorkerRank(pc: WorkerPc): nat {
    match pc
    case AwaitStart => 11
    case TakeSingle => 10
    case ReadBatch => 10
    case RunSingle => 9
    case StagedSingle(_) => 8
    case ScopeBatch => 8
    case CheckSingle(_) => 7
    case JoinedBatch => 7
    case CommitSingle(_) => 6
    case DecideBatch => 6
    case WriteSingle(_, _) => 5
    case SucceedBatchPc => 5
    case StartLost => 4
    case CancelPending(_) => 4
    case FailPending(_, _) => 4
    case RetainPending(_) => 3
    case UnlockPending => 2
    case Exited => 0
  }

  function SubRank(pc: SubPc): nat {
    match pc
    case Begin(_) => 10
    case RunItem(_) => 9
    case StagedItem(_, _) => 8
    case CheckItem(_, _) => 7
    case CommitItem(_, _) => 6
    case WarnItem(_, _, _) => 5
    case Settle(_, _, _) => 4
    case UnlockItem => 3
    case ReadFlag => 2
    case FetchIndex => 1
    case SubExited => 0
  }

  function RanksOf(subs: seq<SubPc>): nat {
    if subs == [] then 0 else SubRank(subs[0]) + RanksOf(subs[1..])
  }

  function ItemsLeft(c: Cell): nat {
    if c.next < |c.r.models| then |c.r.models| - c.next else 0
  }

  function ThreadsToCome(c: Cell): nat {
    if c.worker.AwaitStart? || c.worker.ReadBatch? then 2 * c.r.concurrency else 0
  }

  /** A bound on the steps the Operation's own threads still take. */
  function StepsLeft(c: Cell): nat {
    WorkerRank(c.worker) + ThreadsToCome(c) + RanksOf(c.subs) + 10 * ItemsLeft(c)
  }

  /** An action of the worker or of one of the Batch's threads, not of a canceller. */
  predicate IsOwn(a: Action) {
    !a.CancelArrive? && !a.CancelLock? && !a.CancelWrite? && !a.CancelRetain? && !a.CancelRelease?
  }

  lemma {:induction false} RanksUpdate(subs: seq<SubPc>, w: nat, pc: SubPc)
    requires w < |subs|
    ensures RanksOf(subs[w := pc]) == RanksOf(subs) - SubRank(subs[w]) + SubRank(pc)
  {
    var n := subs[w := pc];
    if w == 0 {
      assert n[1..] == subs[1..];
    } else {
      assert n[1..] == subs[1..][w - 1 := pc];
      RanksUpdate(subs[1..], w - 1, pc);
    }
  }

  lemma {:induction false} RanksOfReaders(count: nat)
    ensures RanksOf(seq(count, _ => ReadFlag)) == 2 * count
  {
    if count == 0 {
    } else {
      RanksOfReaders(count - 1);
      assert seq(count, _ => ReadFlag)[1..] == seq(count - 1, _ => ReadFlag);
    }
  }

  // A thread's step moves that thread only, and down, unless it claims an item.
  lemma SubStepCounts(c: Cell, w: nat, step: SubStep)
    requires SubEnabled(c, w, step) && !WouldPanic(c, SubAction(w, step))
    ensures var n := SubApply(c, w, step);
            && n.worker == c.worker && n.subs == c.subs[w := n.subs[w]]
            && if step.DoFetch? then
                 n.next == c.next + 1 && SubRank(n.subs[w]) == if c.next < |c.r.models| then 10 else 0
               else n.next == c.next && SubRank(n.subs[w]) < SubRank(c.subs[w])
  {}

  lemma SubCounts(c: Cell, w: nat, step: SubStep)
    requires SubEnabled(c, w, step) && !WouldPanic(c, SubAction(w, step))
    ensures StepsLeft(SubApply(c, w, step)) < StepsLeft(c)
  {
    var n := SubApply(c, w, step);
    SubStepCounts(c, w, step);
    SubKeepsRequest(c, w, step);
    RanksUpdate(c.subs, w, n.subs[w]);
  }

  lemma FinishCounts(c: Cell, r: Record, holding: bool)
    ensures var n := Finish(c, r, holding);
            WorkerRank(n.worker) <= 3 && n.subs == c.subs && n.next == c.next && ThreadsToCome(n) == 0
  {}

  lemma EndingCounts(c: Cell, a: Action)
    requires Enabled(c, a) && (a.FinishStep? || a.SucceedBatchStep?)
    ensures StepsLeft(Apply(c, a)) < StepsLeft(c)
  {
    FinishKeepsRequest(c);
    if a.FinishStep? {
      FinishCounts(c, WorkerEnding(c).0, WorkerEnding(c).1);
    } else {
      FinishCounts(c, SucceedBatch(c.r), false);
    }
  }

  lemma WorkerCounts(c: Cell, a: Action)
    requires Enabled(c, a) && !WouldPanic(c, a) && IsOwn(a) && !a.SubAction?
    requires !a.FinishStep? && !a.SucceedBatchStep?
    ensures StepsLeft(Apply(c, a)) < StepsLeft(c)
  {
    WorkerKeepsRequest(c, a);
    if a.ReadBatchStep? {
      RanksOfReaders(c.r.concurrency);
    }
  }

  lemma CancelCounts(c: Cell, a: Action)
    requires Enabled(c, a) && !IsOwn(a)
    ensures StepsLeft(Apply(c, a)) == StepsLeft(c)
  {
    if a.CancelWrite? {
      CancelKeepsRequest(c, a.c);
    }
  }

  /** Every step of an Operation's own threads, whatever the executor answers, leaves fewer of them to
      come; a step of a canceller leaves as many. */
  lemma EveryStepCounts(c: Cell, a: Action)
    requires Enabled(c, a) && !WouldPanic(c, a)
    ensures if IsOwn(a) then StepsLeft(Apply(c, a)) < StepsLeft(c) else StepsLeft(Apply(c, a)) == StepsLeft(c)
  {
    if a.SubAction? {
      SubCounts(c, a.w, a.step);
    } else if !IsOwn(a) {
      CancelCounts(c, a);
    } else if a.FinishStep? || a.SucceedBatchStep? {
      EndingCounts(c, a);
    } else {
      WorkerCounts(c, a);
    }
  }

  function OwnSteps(steps: seq<Step>, id: OpId): nat {
    if steps == [] then 0
    else
      var last := steps[|steps| - 1];
      OwnSteps(steps[..|steps| - 1], id) + if last.Act? && last.id == id && IsOwn(last.action) then 1 else 0
  }

  lemma StepLeaves(s: Registry, step: Step, id: OpId)
    requires CanStep(s, step) && id in s.cells
    ensures id in TakeStep(s, step).cells
    ensures StepsLeft(TakeStep(s, step).cells[id])
            + (if step.Act? && step.id == id && IsOwn(step.action) then 1 else 0) <= StepsLeft(s.cells[id])
  {
    StepOfCell(s, step, id);
    if step.Act? && step.id == id {
      EveryStepCounts(s.cells[id], step.action);
    }
  }

  /** Over any run, with any number of cancellers: the threads of an Operation together take at most
      11 + 2 * concurrency + 10 * items steps. */
  lemma {:induction false} StepsAreBounded(run: seq<Registry>, steps: seq<Step>, id: OpId, i: nat, j: nat)
    requires IsRun(run, steps) && i < j < |run| && steps[i].Submit? && steps[i].id == id
    ensures id in run[j].cells
    ensures OwnSteps(steps[i..j], id) + StepsLeft(run[j].cells[id])
            <= 11 + 2 * steps[i].concurrency + 10 * |steps[i].models|
  {
    if j == i + 1 {
      SubmittedLeaves(run[i], steps[i]);
      NoneYet(steps[i..j], id);
    } else {
      StepsAreBounded(run, steps, id, i, j - 1);
      StepLeaves(run[j - 1], steps[j - 1], id);
      OneMoreStep(steps, id, i, j);
    }
  }

  lemma SubmittedLeaves(s: Registry, step: Step)
    requires CanStep(s, step) && step.Submit?
    ensures step.id in TakeStep(s, step).cells
    ensures StepsLeft(TakeStep(s, step).cells[step.id]) <= 11 + 2 * step.concurrency + 10 * |step.models|
  {}

  lemma NoneYet(steps: seq<Step>, id: OpId)
    requires |steps| == 1 && steps[0].Submit?
    ensures OwnSteps(steps, id) == 0
  {
    assert steps[..0] == [];
  }

  lemma OneMoreStep(steps: seq<Step>, id: OpId, i: nat, j: nat)
    requires i < j <= |steps|
    ensures OwnSteps(steps[i..j], id)
         == OwnSteps(steps[i..j - 1], id)
            + if steps[j - 1].Act? && steps[j - 1].id == id && IsOwn(steps[j - 1].action) then 1 else 0
  {
    assert steps[i..j][..|steps[i..j]| - 1] == steps[i..j - 1];
  }

  // ---------- There is a next step ----------

  function FirstActive(subs: seq<SubPc>): (w: nat)
    ensures w <= |subs|
    ensures forall v :: 0 <= v < w ==> subs[v].SubExited?
    ensures w < |subs| ==> !subs[w].SubExited?
  {
    if subs == [] || !subs[0].SubExited? then 0
    else
      var rest := FirstActive(subs[1..]);
      assert forall v :: 1 <= v < rest + 1 ==> subs[v] == subs[1..][v - 1];
      rest + 1
  }

  function NextOfThread(c: Cell, w: nat, staged: StageResult, committed: CommitResult): Action
    requires w < |c.subs|
  {
    match c.subs[w]
    case ReadFlag => SubAction(w, DoReadFlag)
    case FetchIndex => SubAction(w, DoFetch)
    case Begin(_) => SubAction(w, DoBegin)
    case RunItem(_) => SubAction(w, DoRun(staged))
    case StagedItem(_, _) => if c.holder.Some? then NextOfHolder(c, committed) else SubAction(w, DoLock)
    case CheckItem(_, _) => SubAction(w, DoCheck)
    case CommitItem(_, _) => SubAction(w, DoCommit(committed))
    case WarnItem(_, _, _) => SubAction(w, DoWarn)
    case Settle(_, _, _) => SubAction(w, DoSettle)
    case _ => SubAction(w, DoUnlock)
  }

  /** A next step of the Operation: its worker's, or that of a thread the worker waits for, or that of
      whoever holds the lock they wait for. */
  function NextStep(c: Cell, staged: StageResult, committed: CommitResult): Action {
    match c.worker
    case AwaitStart => Execute
    case TakeSingle => TakeBindingStep
    case RunSingle => RunStep(staged)
    case StagedSingle(_) => if c.holder.Some? then NextOfHolder(c, committed) else LockStep
    case CheckSingle(_) => CheckStep
    case CommitSingle(_) => CommitStep(committed)
    case WriteSingle(_, _) => WriteStep
    case ReadBatch => ReadBatchStep
    case ScopeBatch =>
      var w := FirstActive(c.subs);
      if w < |c.subs| then NextOfThread(c, w, staged, committed) else JoinStep
    case JoinedBatch => ReadFailureStep
    case DecideBatch => DecideStep
    case SucceedBatchPc => SucceedBatchStep
    case RetainPending(_) => RetainStep
    case UnlockPending => UnlockStep
    case _ => FinishStep
  }

  lemma ThreadIsEnabled(c: Cell, w: nat, staged: StageResult, committed: CommitResult)
    requires Control(c) && c.worker.ScopeBatch? && w < |c.subs| && !c.subs[w].SubExited?
    ensures Enabled(c, NextOfThread(c, w, staged, committed))
  {
    if c.holder.Some? {
      HolderIsEnabled(c, committed);
    }
  }

  lemma NextIsEnabled(c: Cell, staged: StageResult, committed: CommitResult)
    requires Control(c) && !c.worker.Exited?
    ensures Enabled(c, NextStep(c, staged, committed))
  {
    if c.worker.ScopeBatch? {
      var w := FirstActive(c.subs);
      if w < |c.subs| {
        ThreadIsEnabled(c, w, staged, committed);
      }
    } else if c.holder.Some? {
      HolderIsEnabled(c, committed);
    }
  }

  /** No deadlock: in every reachable registry, as long as the worker of an Operation is not gone, a step
      of its own threads or of the holder of its completion lock can be taken, whatever the executor
      answers; and only the holder's may be a canceller's. */
  lemma SomebodyCanMove(s: Registry, id: OpId, staged: StageResult, committed: CommitResult)
    requires Reachable(s) && id in s.cells && !s.cells[id].worker.Exited?
    ensures var a := NextStep(s.cells[id], staged, committed);
            && CanStep(s, Act(id, a))
            && (IsOwn(a) || (s.cells[id].holder.Some? && ActsFor(a, s.cells[id].holder.value)))
  {
    OperationTheorems.ReachableCell(s, id);
    var c := s.cells[id];
    NextIsEnabled(c, staged, committed);
    OperationTheorems.NeverPanics(s, id, NextStep(c, staged, committed));
    NextIsWhose(c, staged, committed);
  }

  lemma NextIsWhose(c: Cell, staged: StageResult, committed: CommitResult)
    ensures var a := NextStep(c, staged, committed);
            IsOwn(a) || (c.holder.Some? && ActsFor(a, c.holder.value))
  {}
}

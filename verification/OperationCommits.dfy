/** How often the executor's commit is called: at most once for an item, and only for an item begun. */
module OperationCommits {
  import opened Options
  import opened OperationRecord
  import opened OperationProtocol
  import opened OperationInvariant
  import opened OperationRegistry
  import OperationPreservation

  /** How many commits of item `i` were called, successful or not. */
  function CommitsOf(h: seq<Event>, i: nat): nat {
    if h == [] then 0
    else
      var last := h[|h| - 1];
      CommitsOf(h[..|h| - 1], i) + One(last.CommitCalled? && last.item == i)
  }

  // A thread that executes an item and has not called its commit yet.
  predicate BeforeCommit(pc: SubPc) {
    pc.RunItem? || pc.StagedItem? || pc.CheckItem? || pc.CommitItem?
  }

  function UncommittedCount(subs: seq<SubPc>, i: nat): nat {
    if subs == [] then 0
    else
      var last := subs[|subs| - 1];
      UncommittedCount(subs[..|subs| - 1], i) + One(BeforeCommit(last) && last.i == i)
  }

  predicate WorkerBeforeCommit(worker: WorkerPc) {
    || worker.AwaitStart? || worker.StartLost? || worker.TakeSingle? || worker.RunSingle?
    || worker.StagedSingle? || worker.CheckSingle? || worker.CommitSingle?
  }

  /** Each commit called so far has its own beginning of the item, as has each still to be called. */
  predicate Covered(h: seq<Event>, subs: seq<SubPc>, begun: seq<nat>, i: nat) {
    CommitsOf(h, i) + UncommittedCount(subs, i) <= Occurrences(begun, i)
  }

  ghost predicate CommitsOnce(c: Cell) {
    if c.r.shape.Single? then
      forall i: nat :: CommitsOf(c.history, i) <= One(i == 0 && !WorkerBeforeCommit(c.worker))
    else
      forall i: nat :: Covered(c.history, c.subs, c.begun, i)
  }

  lemma CommitOnceMore(h: seq<Event>, e: Event, i: nat)
    ensures CommitsOf(h + [e], i) == CommitsOf(h, i) + One(e.CommitCalled? && e.item == i)
  {
    assert (h + [e])[..|h|] == h;
  }

  lemma {:induction false} NoMoreCommits(h: seq<Event>, later: seq<Event>, i: nat)
    requires h <= later && forall k :: |h| <= k < |later| ==> !later[k].CommitCalled?
    ensures CommitsOf(later, i) == CommitsOf(h, i)
  {
    if h == later {
    } else {
      NoMoreCommits(h, later[..|later| - 1], i);
    }
  }

  lemma {:induction false} UncommittedAt(subs: seq<SubPc>, w: nat, pc: SubPc, i: nat)
    requires w < |subs|
    ensures UncommittedCount(subs[w := pc], i) + One(BeforeCommit(subs[w]) && subs[w].i == i)
         == UncommittedCount(subs, i) + One(BeforeCommit(pc) && pc.i == i)
  {
    var n := |subs| - 1;
    if w == n {
      assert subs[w := pc][..n] == subs[..n];
    } else {
      assert subs[w := pc][..n] == subs[..n][w := pc];
      UncommittedAt(subs[..n], w, pc, i);
    }
  }

  lemma {:induction false} NoneUncommitted(subs: seq<SubPc>, i: nat)
    requires forall w :: 0 <= w < |subs| ==> !BeforeCommit(subs[w])
    ensures UncommittedCount(subs, i) == 0
  {
    if subs == [] {
    } else {
      NoneUncommitted(subs[..|subs| - 1], i);
    }
  }

  // ---------- A scoped thread's step ----------

  lemma BeginCovers(c: Cell, w: nat, i: nat)
    requires SubEnabled(c, w, DoBegin) && !WouldPanic(c, SubAction(w, DoBegin))
    requires Covered(c.history, c.subs, c.begun, i)
    ensures var n := SubBegin(c, w); Covered(n.history, n.subs, n.begun, i)
  {
    var item := c.subs[w].i;
    UncommittedAt(c.subs, w, SubBegin(c, w).subs[w], i);
    OperationPreservation.OccursOnceMore(c.begun, item, i);
    CommitOnceMore(c.history, ItemBegun(item), i);
  }

  lemma CommitCovers(c: Cell, w: nat, committed: CommitResult, i: nat)
    requires SubEnabled(c, w, DoCommit(committed)) && Covered(c.history, c.subs, c.begun, i)
    ensures var n := SubCommit(c, w, committed); Covered(n.history, n.subs, n.begun, i)
  {
    var pc := c.subs[w];
    UncommittedAt(c.subs, w, SubCommit(c, w, committed).subs[w], i);
    CommitOnceMore(c.history, CommitCalled(pc.i, pc.artifacts, committed.Committed?), i);
  }

  lemma SettleCovers(c: Cell, w: nat, i: nat)
    requires SubEnabled(c, w, DoSettle) && !WouldPanic(c, SubAction(w, DoSettle))
    requires Covered(c.history, c.subs, c.begun, i)
    ensures var n := SubSettle(c, w); Covered(n.history, n.subs, n.begun, i)
  {
    var pc := c.subs[w];
    UncommittedAt(c.subs, w, SubSettle(c, w).subs[w], i);
    CommitOnceMore(c.history, ItemSettled(pc.i, pc.result), i);
  }

  lemma MoveCovers(c: Cell, w: nat, step: SubStep, i: nat)
    requires SubEnabled(c, w, step) && !step.DoBegin? && !step.DoCommit? && !step.DoSettle?
    requires Covered(c.history, c.subs, c.begun, i)
    ensures var n := SubApply(c, w, step); Covered(n.history, n.subs, n.begun, i)
  {
    UncommittedAt(c.subs, w, SubApply(c, w, step).subs[w], i);
  }

  lemma SubStepKeepsCommits(c: Cell, w: nat, step: SubStep)
    requires Inv(c) && CommitsOnce(c) && SubEnabled(c, w, step) && !WouldPanic(c, SubAction(w, step))
    ensures CommitsOnce(SubApply(c, w, step))
  {
    var n := SubApply(c, w, step);
    assert c.r.shape.Batch? && n.r.shape.Batch?;
    forall i: nat
      ensures Covered(n.history, n.subs, n.begun, i)
    {
      assert Covered(c.history, c.subs, c.begun, i);
      match step
      case DoBegin => BeginCovers(c, w, i);
      case DoCommit(committed) => CommitCovers(c, w, committed, i);
      case DoSettle => SettleCovers(c, w, i);
      case _ => MoveCovers(c, w, step, i);
    }
  }

  // ---------- A step of the worker or of a canceller ----------

  predicate NoCommitLogged(c: Cell, n: Cell) {
    && c.history <= n.history
    && (forall k :: |c.history| <= k < |n.history| ==> !n.history[k].CommitCalled?)
    && n.subs == c.subs && n.begun == c.begun && n.r.shape == c.r.shape
    && (WorkerBeforeCommit(n.worker) ==> WorkerBeforeCommit(c.worker))
  }

  lemma CancelLogsNoCommit(c: Cell, id: nat)
    ensures NoCommitLogged(c, CancelRecord(c, id))
  {}

  lemma FinishLogsNoCommit(c: Cell)
    ensures NoCommitLogged(c, WorkerFinish(c)) && NoCommitLogged(c, Finish(c, SucceedBatch(c.r), false))
  {}

  lemma WorkerLogsNoCommit(c: Cell, a: Action)
    requires Enabled(c, a) && !WouldPanic(c, a) && !a.SubAction? && !a.CommitStep? && !a.ReadBatchStep?
    requires !a.CancelWrite? && !a.FinishStep? && !a.SucceedBatchStep?
    ensures NoCommitLogged(c, Apply(c, a))
  {}

  lemma ActionLogsNoCommit(c: Cell, a: Action)
    requires Enabled(c, a) && !WouldPanic(c, a) && !a.SubAction? && !a.CommitStep? && !a.ReadBatchStep?
    ensures NoCommitLogged(c, Apply(c, a))
  {
    match a
    case CancelWrite(id) => CancelLogsNoCommit(c, id);
    case FinishStep => FinishLogsNoCommit(c);
    case SucceedBatchStep => FinishLogsNoCommit(c);
    case _ => WorkerLogsNoCommit(c, a);
  }

  lemma QuietKeepsCommits(c: Cell, n: Cell)
    requires CommitsOnce(c) && NoCommitLogged(c, n)
    ensures CommitsOnce(n)
  {
    forall i: nat
      ensures CommitsOf(n.history, i) == CommitsOf(c.history, i)
    {
      NoMoreCommits(c.history, n.history, i);
    }
    if c.r.shape.Batch? {
      assert forall i: nat :: Covered(c.history, c.subs, c.begun, i) ==> Covered(n.history, n.subs, n.begun, i);
    }
  }

  lemma SingleCommitKeepsCommits(c: Cell, committed: CommitResult)
    requires Inv(c) && CommitsOnce(c) && c.worker.CommitSingle?
    ensures CommitsOnce(WorkerCommit(c, committed))
  {
    var e := CommitCalled(0, c.worker.artifacts, committed.Committed?);
    forall i: nat
      ensures CommitsOf(c.history + [e], i) <= One(i == 0)
    {
      CommitOnceMore(c.history, e, i);
    }
  }

  lemma LaunchKeepsCommits(c: Cell)
    requires Inv(c) && CommitsOnce(c) && c.worker.ReadBatch?
    ensures CommitsOnce(WorkerReadBatch(c))
  {
    var n := WorkerReadBatch(c);
    forall i: nat
      ensures Covered(n.history, n.subs, n.begun, i)
    {
      assert Covered(c.history, c.subs, c.begun, i);
      NoneUncommitted(n.subs, i);
    }
  }

  lemma ActionKeepsCommits(c: Cell, a: Action)
    requires Inv(c) && CommitsOnce(c) && Enabled(c, a) && !WouldPanic(c, a)
    ensures CommitsOnce(Apply(c, a))
  {
    if a.SubAction? {
      SubStepKeepsCommits(c, a.w, a.step);
    } else if a.CommitStep? {
      SingleCommitKeepsCommits(c, a.committed);
    } else if a.ReadBatchStep? {
      LaunchKeepsCommits(c);
    } else {
      ActionLogsNoCommit(c, a);
      QuietKeepsCommits(c, Apply(c, a));
    }
  }

  // ---------- Every run ----------

  ghost predicate AllCommitOnce(cells: map<OpId, Cell>) {
    forall id :: id in cells ==> CommitsOnce(cells[id])
  }

  lemma EvictionKeepsCommits(cells: map<OpId, Cell>, retired: seq<OpId>)
    requires AllCommitOnce(cells)
    ensures AllCommitOnce(Evict(cells, retired))
  {
    forall id | id in cells
      ensures CommitsOnce(Evict(cells, retired)[id])
    {
      assert CommitsOnce(cells[id]);
    }
  }

  lemma StepKeepsCommits(s: Registry, step: Step)
    requires CellsOk(s.cells) && AllCommitOnce(s.cells) && CanStep(s, step)
    ensures AllCommitOnce(TakeStep(s, step).cells)
  {
    match step
    case Submit(id, shape, models, concurrency) =>
      assert CommitsOnce(FreshCell(Accepted(s.nextSequence, shape, models, concurrency)));
    case Act(id, a) =>
      ActionKeepsCommits(s.cells[id], a);
      EvictionKeepsCommits(s.cells[id := Apply(s.cells[id], a)], Retired(s.terminalOrder, id));
  }

  lemma {:induction false} RunKeepsCommits(run: seq<Registry>, steps: seq<Step>, k: nat)
    requires IsRun(run, steps) && k < |run|
    ensures AllCommitOnce(run[k].cells)
  {
    if k == 0 {
    } else {
      RunKeepsCommits(run, steps, k - 1);
      RunKeepsInv(run, steps, k - 1);
      StepKeepsCommits(run[k - 1], steps[k - 1]);
    }
  }

  /** In every reachable registry the executor's commit was called at most once for an item, and only
      for an item of the Operation: item 0 of a Single, or an item of a Batch that was begun. */
  lemma CommitAtMostOnce(s: Registry, id: OpId, item: nat)
    requires Reachable(s) && id in s.cells
    ensures var c := s.cells[id];
            && CommitsOf(c.history, item) <= 1
            && (CommitsOf(c.history, item) > 0 ==> item < |c.r.models|)
            && (c.r.shape.Batch? ==> CommitsOf(c.history, item) <= Occurrences(c.begun, item))
            && (c.r.shape.Single? && item != 0 ==> CommitsOf(c.history, item) == 0)
  {
    var run: seq<Registry>, steps: seq<Step> :| IsRun(run, steps) && run[|run| - 1] == s;
    RunKeepsCommits(run, steps, |run| - 1);
    RunKeepsInv(run, steps, |run| - 1);
    var c := s.cells[id];
    if c.r.shape.Batch? {
      assert Covered(c.history, c.subs, c.begun, item);
      assert Claimed(c.begun, c.subs, c.abandoned, c.next, |c.r.models|, item);
    }
  }
}

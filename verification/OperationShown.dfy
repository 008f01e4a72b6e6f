/** What an Operation keeps of its submission, counts of its warnings, and shows to those who ask. */
module OperationShown {
  import opened Options
  import opened OperationRecord
  import opened OperationProtocol
  import opened OperationInvariant
  import opened OperationRegistry
  import opened OperationOutcomes
  import OperationPreservation
  import OperationTheorems

  // ---------- The submission ----------

  predicate SameRequest(r: Record, n: Record) {
    n.shape == r.shape && n.models == r.models && n.concurrency == r.concurrency && n.sequence == r.sequence
  }

  lemma SubKeepsRequest(c: Cell, w: nat, step: SubStep)
    requires SubEnabled(c, w, step) && !WouldPanic(c, SubAction(w, step))
    ensures SameRequest(c.r, SubApply(c, w, step).r)
  {}

  lemma CancelKeepsRequest(c: Cell, id: nat)
    ensures SameRequest(c.r, CancelRecord(c, id).r)
  {}

  lemma FinishKeepsRequest(c: Cell)
    ensures SameRequest(c.r, WorkerFinish(c).r) && SameRequest(c.r, Finish(c, SucceedBatch(c.r), false).r)
  {}

  lemma WorkerKeepsRequest(c: Cell, a: Action)
    requires Enabled(c, a) && !WouldPanic(c, a) && !a.SubAction?
    requires !a.CancelWrite? && !a.FinishStep? && !a.SucceedBatchStep?
    ensures SameRequest(c.r, Apply(c, a).r)
  {}

  lemma ActionKeepsRequest(c: Cell, a: Action)
    requires Enabled(c, a) && !WouldPanic(c, a)
    ensures SameRequest(c.r, Apply(c, a).r)
  {
    if a.SubAction? {
      SubKeepsRequest(c, a.w, a.step);
    } else if a.CancelWrite? {
      CancelKeepsRequest(c, a.c);
    } else if a.FinishStep? || a.SucceedBatchStep? {
      FinishKeepsRequest(c);
    } else {
      WorkerKeepsRequest(c, a);
    }
  }

  lemma StepKeepsRequest(s: Registry, step: Step, id: OpId)
    requires CanStep(s, step) && id in s.cells
    ensures id in TakeStep(s, step).cells && SameRequest(s.cells[id].r, TakeStep(s, step).cells[id].r)
  {
    StepOfCell(s, step, id);
    if step.Act? && step.id == id {
      ActionKeepsRequest(s.cells[id], step.action);
    }
  }

  lemma SubmitTakesRequest(s: Registry, step: Step)
    requires CanStep(s, step) && step.Submit?
    ensures step.id in TakeStep(s, step).cells
    ensures var r := TakeStep(s, step).cells[step.id].r;
            && r.shape == step.shape && r.models == step.models && r.concurrency == step.concurrency
            && r.sequence == s.nextSequence && r.state.Queued? && !r.cancelled
  {}

  /** An Operation keeps what was submitted: its shape, its models in order, and its concurrency. A Batch
      whose threads were started has exactly that many. */
  lemma {:induction false} SubmissionIsKept(run: seq<Registry>, steps: seq<Step>, id: OpId, i: nat, j: nat)
    requires IsRun(run, steps) && i < j < |run| && steps[i].Submit? && steps[i].id == id
    ensures id in run[j].cells
    ensures var r := run[j].cells[id].r;
            r.shape == steps[i].shape && r.models == steps[i].models && r.concurrency == steps[i].concurrency
    ensures run[j].cells[id].subs == [] || |run[j].cells[id].subs| == steps[i].concurrency
  {
    if j == i + 1 {
      SubmitTakesRequest(run[i], steps[i]);
    } else {
      SubmissionIsKept(run, steps, id, i, j - 1);
      StepKeepsRequest(run[j - 1], steps[j - 1], id);
    }
    RunKeepsInv(run, steps, j);
    ThreadsAreRan(run[j].cells[id]);
  }

  lemma ThreadsAreRan(c: Cell)
    requires Inv(c)
    ensures c.subs == [] || |c.subs| == c.r.concurrency
  {}

  // ---------- Warnings ----------

  function ProvenanceOf(answers: seq<Answer>): nat {
    if answers == [] then 0
    else
      var last := answers[|answers| - 1];
      ProvenanceOf(answers[..|answers| - 1])
      + if last.CommitAnswered? && last.committed.Committed? then last.committed.warnings.provenanceFailures else 0
  }

  function CleanupOf(answers: seq<Answer>): nat {
    if answers == [] then 0
    else
      var last := answers[|answers| - 1];
      CleanupOf(answers[..|answers| - 1])
      + if last.CommitAnswered? && last.committed.Committed? then last.committed.warnings.cleanupFailures else 0
  }

  lemma WarningsGoOn(answers: seq<Answer>, more: seq<Answer>)
    requires |more| <= 1
    ensures ProvenanceOf(answers + more) == ProvenanceOf(answers) + ProvenanceOf(more)
    ensures CleanupOf(answers + more) == CleanupOf(answers) + CleanupOf(more)
  {
    if more == [] {
      assert answers + more == answers;
    } else {
      assert (answers + more)[..|answers|] == answers && more[..0] == [];
    }
  }

  function WarningsIn(pc: SubPc): CommitWarnings {
    if pc.WarnItem? then pc.warnings else NO_WARNINGS
  }

  // The warnings that threads of a Batch still carry to the record.
  function Carried(subs: seq<SubPc>): CommitWarnings {
    if subs == [] then NO_WARNINGS
    else
      var (before, last) := (Carried(subs[..|subs| - 1]), WarningsIn(subs[|subs| - 1]));
      CommitWarnings(before.provenanceFailures + last.provenanceFailures, before.cleanupFailures + last.cleanupFailures)
  }

  lemma {:induction false} CarriedAt(subs: seq<SubPc>, w: nat, pc: SubPc)
    requires w < |subs|
    ensures Carried(subs[w := pc]).provenanceFailures + WarningsIn(subs[w]).provenanceFailures
         == Carried(subs).provenanceFailures + WarningsIn(pc).provenanceFailures
    ensures Carried(subs[w := pc]).cleanupFailures + WarningsIn(subs[w]).cleanupFailures
         == Carried(subs).cleanupFailures + WarningsIn(pc).cleanupFailures
  {
    var n := |subs| - 1;
    if w == n {
      assert subs[w := pc][..n] == subs[..n];
    } else {
      assert subs[w := pc][..n] == subs[..n][w := pc];
      CarriedAt(subs[..n], w, pc);
    }
  }

  lemma {:induction false} NothingCarried(subs: seq<SubPc>)
    requires forall w :: 0 <= w < |subs| ==> !subs[w].WarnItem?
    ensures Carried(subs) == NO_WARNINGS
  {
    if subs == [] {
    } else {
      NothingCarried(subs[..|subs| - 1]);
    }
  }

  function WorkerCarries(worker: WorkerPc): CommitWarnings {
    if worker.WriteSingle? then worker.warnings else NO_WARNINGS
  }

  /** Every warning of a commit is in the record's counts or on its way to them. */
  predicate WarningsOk(c: Cell, answers: seq<Answer>) {
    && ProvenanceOf(answers)
       == c.r.provenanceFailures + Carried(c.subs).provenanceFailures + WorkerCarries(c.worker).provenanceFailures
    && CleanupOf(answers)
       == c.r.cleanupFailures + Carried(c.subs).cleanupFailures + WorkerCarries(c.worker).cleanupFailures
  }

  lemma SubKeepsWarnings(c: Cell, w: nat, step: SubStep, answers: seq<Answer>)
    requires c.present && WarningsOk(c, answers) && SubEnabled(c, w, step) && !WouldPanic(c, SubAction(w, step))
    ensures WarningsOk(SubApply(c, w, step), answers + AnswersTo(c, SubAction(w, step)))
  {
    CarriedAt(c.subs, w, SubApply(c, w, step).subs[w]);
    WarningsGoOn(answers, AnswersTo(c, SubAction(w, step)));
  }

  // A step of the worker or of a canceller that records no warning.
  predicate KeepsCounts(c: Cell, n: Cell) {
    && n.subs == c.subs && WorkerCarries(n.worker) == WorkerCarries(c.worker)
    && n.r.provenanceFailures == c.r.provenanceFailures && n.r.cleanupFailures == c.r.cleanupFailures
  }

  lemma CancelKeepsWarnings(c: Cell, id: nat)
    ensures KeepsCounts(c, CancelRecord(c, id))
  {}

  lemma FinishKeepsWarnings(c: Cell)
    requires !c.worker.WriteSingle?
    ensures KeepsCounts(c, WorkerFinish(c)) && KeepsCounts(c, Finish(c, SucceedBatch(c.r), false))
  {}

  lemma WorkerKeepsWarnings(c: Cell, a: Action)
    requires Enabled(c, a) && !WouldPanic(c, a) && !a.SubAction? && !a.ReadBatchStep? && !a.CommitStep? && !a.WriteStep?
    requires !a.CancelWrite? && !a.FinishStep? && !a.SucceedBatchStep?
    ensures KeepsCounts(c, Apply(c, a))
  {}

  lemma SingleKeepsWarnings(c: Cell, a: Action, answers: seq<Answer>)
    requires c.present && WarningsOk(c, answers) && Enabled(c, a) && (a.CommitStep? || a.WriteStep?)
    ensures WarningsOk(Apply(c, a), answers + AnswersTo(c, a))
  {
    WarningsGoOn(answers, AnswersTo(c, a));
  }

  lemma LaunchKeepsWarnings(c: Cell, answers: seq<Answer>)
    requires Phase(c) && c.worker.ReadBatch? && WarningsOk(c, answers)
    ensures WarningsOk(WorkerReadBatch(c), answers)
  {
    NothingCarried(c.subs);
    NothingCarried(WorkerReadBatch(c).subs);
  }

  lemma OtherKeepsWarnings(c: Cell, a: Action, answers: seq<Answer>)
    requires WarningsOk(c, answers) && Enabled(c, a) && !WouldPanic(c, a)
    requires !a.SubAction? && !a.ReadBatchStep? && !a.CommitStep? && !a.WriteStep?
    ensures WarningsOk(Apply(c, a), answers + AnswersTo(c, a))
  {
    WarningsGoOn(answers, AnswersTo(c, a));
    if a.CancelWrite? {
      CancelKeepsWarnings(c, a.c);
    } else if a.FinishStep? || a.SucceedBatchStep? {
      FinishKeepsWarnings(c);
    } else {
      WorkerKeepsWarnings(c, a);
    }
  }

  lemma ActionKeepsWarnings(c: Cell, a: Action, answers: seq<Answer>)
    requires Inv(c) && WarningsOk(c, answers) && Enabled(c, a) && !WouldPanic(c, a)
    ensures WarningsOk(Apply(c, a), answers + AnswersTo(c, a))
  {
    if a.SubAction? {
      SubKeepsWarnings(c, a.w, a.step, answers);
    } else if a.ReadBatchStep? {
      LaunchKeepsWarnings(c, answers);
      assert answers + [] == answers;
    } else if a.CommitStep? || a.WriteStep? {
      SingleKeepsWarnings(c, a, answers);
    } else {
      OtherKeepsWarnings(c, a, answers);
    }
  }

  lemma NextKeepsWarnings(s: Registry, step: Step, t: Registry, id: OpId, answers: seq<Answer>)
    requires CanStep(s, step) && t == TakeStep(s, step) && CellsOk(s.cells)
    requires if id in s.cells then WarningsOk(s.cells[id], answers) else answers == []
    ensures var more := AnswersIn(s, step, id);
            if id in t.cells then WarningsOk(t.cells[id], answers + more) else answers + more == []
  {
    assert answers + [] == answers;
    if id in s.cells {
      StepOfCell(s, step, id);
      if step.Act? && step.id == id {
        ActionKeepsWarnings(s.cells[id], step.action, answers);
      }
    }
  }

  lemma {:induction false} RunKeepsWarnings(run: seq<Registry>, steps: seq<Step>, id: OpId, k: nat)
    requires IsRun(run, steps) && k < |run|
    ensures var answers := Answers(run, steps, id, k);
            if id in run[k].cells then WarningsOk(run[k].cells[id], answers) else answers == []
  {
    if k == 0 {
    } else {
      RunKeepsWarnings(run, steps, id, k - 1);
      RunKeepsInv(run, steps, k - 1);
      NextKeepsWarnings(run[k - 1], steps[k - 1], run[k], id, Answers(run, steps, id, k - 1));
    }
  }

  /** Once the threads of an Operation are gone, its two failure counts are the sums of what its commits
      reported, each of its own kind. */
  lemma WarningsAreCounted(run: seq<Registry>, steps: seq<Step>, id: OpId)
    requires IsRun(run, steps) && id in run[|steps|].cells && run[|steps|].cells[id].worker.Exited?
    ensures var (r, answers) := (run[|steps|].cells[id].r, Answers(run, steps, id, |steps|));
            r.provenanceFailures == ProvenanceOf(answers) && r.cleanupFailures == CleanupOf(answers)
  {
    RunKeepsWarnings(run, steps, id, |steps|);
    RunKeepsInv(run, steps, |steps|);
    NothingIsLeft(run[|steps|].cells[id], Answers(run, steps, id, |steps|));
  }

  lemma NothingIsLeft(c: Cell, answers: seq<Answer>)
    requires Phase(c) && WarningsOk(c, answers) && c.worker.Exited?
    ensures c.r.provenanceFailures == ProvenanceOf(answers) && c.r.cleanupFailures == CleanupOf(answers)
  {
    NothingCarried(c.subs);
  }

  // ---------- Snapshots ----------

  /** What a snapshot shows of a record, field by field. */
  predicate Shows(s: Snapshot, r: Record) {
    && s.state == r.state && s.itemCount == |r.models| && s.artifacts == r.singleArtifacts
    && s.active == r.active && s.succeeded == r.succeeded && s.failed == r.failed && s.log == r.log
    && s.provenanceFailures == r.provenanceFailures && s.cleanupFailures == r.cleanupFailures
  }

  predicate LastShows(c: Cell) {
    c.observed != [] && Shows(c.observed[|c.observed| - 1], c.r)
  }

  /** Any observation that a step prepares shows the record as that step leaves it. */
  lemma SubObserves(c: Cell, w: nat, step: SubStep)
    requires SubEnabled(c, w, step) && !WouldPanic(c, SubAction(w, step))
    ensures |SubApply(c, w, step).observed| > |c.observed| ==> LastShows(SubApply(c, w, step))
  {}

  lemma CancelObserves(c: Cell, id: nat)
    ensures |CancelRecord(c, id).observed| > |c.observed| ==> LastShows(CancelRecord(c, id))
  {}

  lemma FinishObserves(c: Cell)
    ensures |WorkerFinish(c).observed| > |c.observed| ==> LastShows(WorkerFinish(c))
    ensures var n := Finish(c, SucceedBatch(c.r), false); |n.observed| > |c.observed| ==> LastShows(n)
  {}

  lemma WorkerObserves(c: Cell, a: Action)
    requires Enabled(c, a) && !WouldPanic(c, a) && !a.SubAction?
    requires !a.CancelWrite? && !a.FinishStep? && !a.SucceedBatchStep?
    ensures |Apply(c, a).observed| > |c.observed| ==> LastShows(Apply(c, a))
  {}

  lemma ObservationShows(c: Cell, a: Action)
    requires Enabled(c, a) && !WouldPanic(c, a)
    ensures |Apply(c, a).observed| > |c.observed| ==> LastShows(Apply(c, a))
  {
    if a.SubAction? {
      SubObserves(c, a.w, a.step);
    } else if a.CancelWrite? {
      CancelObserves(c, a.c);
    } else if a.FinishStep? || a.SucceedBatchStep? {
      FinishObserves(c);
    } else {
      WorkerObserves(c, a);
    }
  }

  // A step that makes the record terminal is observed.
  lemma SubStaysActive(c: Cell, w: nat, step: SubStep)
    requires Phase(c) && SubEnabled(c, w, step) && !WouldPanic(c, SubAction(w, step))
    ensures !SubApply(c, w, step).r.state.IsTerminal()
  {}

  lemma EndingIsObserved(c: Cell, a: Action)
    requires Phase(c) && Enabled(c, a) && !WouldPanic(c, a) && !a.SubAction?
    requires a.CancelWrite? || a.FinishStep? || a.SucceedBatchStep? || a.WriteStep?
    ensures Apply(c, a).r == c.r || |Apply(c, a).observed| > |c.observed|
  {}

  lemma OtherStaysAsItWas(c: Cell, a: Action)
    requires Phase(c) && Enabled(c, a) && !WouldPanic(c, a) && !a.SubAction?
    requires !a.CancelWrite? && !a.FinishStep? && !a.SucceedBatchStep? && !a.WriteStep?
    ensures Apply(c, a).r.state.IsTerminal() ==> Apply(c, a).r == c.r
  {}

  lemma ActionKeepsShown(c: Cell, a: Action)
    requires Inv(c) && Enabled(c, a) && !WouldPanic(c, a)
    requires c.r.state.IsTerminal() ==> LastShows(c)
    ensures Apply(c, a).r.state.IsTerminal() ==> LastShows(Apply(c, a))
  {
    ObservationShows(c, a);
    ActionFrame(c, a);
    if a.SubAction? {
      SubStaysActive(c, a.w, a.step);
    } else if a.CancelWrite? || a.FinishStep? || a.SucceedBatchStep? || a.WriteStep? {
      EndingIsObserved(c, a);
    } else {
      OtherStaysAsItWas(c, a);
    }
  }

  ghost predicate TerminalShown(cells: map<OpId, Cell>) {
    forall id :: id in cells && cells[id].r.state.IsTerminal() ==> LastShows(cells[id])
  }

  lemma CellKeepsShown(s: Registry, step: Step, id: OpId)
    requires CanStep(s, step) && id in s.cells && Inv(s.cells[id])
    requires s.cells[id].r.state.IsTerminal() ==> LastShows(s.cells[id])
    ensures id in TakeStep(s, step).cells
    ensures TakeStep(s, step).cells[id].r.state.IsTerminal() ==> LastShows(TakeStep(s, step).cells[id])
  {
    StepOfCell(s, step, id);
    if step.Act? && step.id == id {
      ActionKeepsShown(s.cells[id], step.action);
    }
  }

  lemma StepKeepsShown(s: Registry, step: Step)
    requires CellsOk(s.cells) && TerminalShown(s.cells) && CanStep(s, step)
    ensures TerminalShown(TakeStep(s, step).cells)
  {
    var t := TakeStep(s, step);
    forall id | id in t.cells && t.cells[id].r.state.IsTerminal()
      ensures LastShows(t.cells[id])
    {
      if id in s.cells {
        assert Inv(s.cells[id]);
        CellKeepsShown(s, step, id);
      } else {
        NewCell(s, step, id);
        SubmitTakesRequest(s, step);
      }
    }
  }

  lemma {:induction false} RunKeepsShown(run: seq<Registry>, steps: seq<Step>, k: nat)
    requires IsRun(run, steps) && k < |run|
    ensures TerminalShown(run[k].cells)
  {
    if k == 0 {
    } else {
      RunKeepsShown(run, steps, k - 1);
      RunKeepsInv(run, steps, k - 1);
      StepKeepsShown(run[k - 1], steps[k - 1]);
    }
  }

  /** The last observation prepared for a terminal Operation shows its record, field by field: state,
      artifacts, counts, log and failure counts. */
  lemma TerminalIsShown(s: Registry, id: OpId)
    requires Reachable(s) && id in s.cells && s.cells[id].r.state.IsTerminal()
    ensures var told := ObservationsOf(s.prepared, id); told != [] && Shows(told[|told| - 1], s.cells[id].r)
  {
    var run: seq<Registry>, steps: seq<Step> :| IsRun(run, steps) && run[|run| - 1] == s;
    RunKeepsShown(run, steps, |run| - 1);
    ReachableInv(s);
    assert ObservationsOf(s.prepared, id) == ObservedBy(s.cells, id);
  }

  // ---------- The answer of a cancel ----------

  /** What `cancel` answers and does, for each state it may find: an unknown Operation is not found; a
      queued one is Cancelled and a running one Cancelling, and the cancel is accepted; one that is
      cancelled already stays as it is; one that ended otherwise is refused. The answer shows the record as
      it is then. */
  lemma CancelAnswersExactly(c: Cell, id: nat)
    requires id in c.cancels && c.cancels[id].HoldsLock?
    ensures var n := CancelRecord(c, id);
            var pc := n.cancels[id];
            && (pc.RetainCancelled? || pc.ReleaseCancel?)
            && (!c.present ==> pc.reply.NotFound? && n.r == c.r)
            && (c.present && c.r.state.Queued? ==>
                pc.RetainCancelled? && pc.reply.Answer? && n.r.state.Cancelled? && n.r.cancelled)
            && (c.present && c.r.state.Running? ==>
                pc.ReleaseCancel? && pc.reply.Answer? && n.r.state.Cancelling? && n.r.cancelled)
            && (c.present && (c.r.state.Cancelling? || c.r.state.Cancelled?) ==> pc.reply.Answer? && n.r == c.r)
            && (c.present && (c.r.state.Succeeded? || c.r.state.Failed?) ==> pc.reply.AlreadyTerminal? && n.r == c.r)
            && (pc.reply.Answer? || pc.reply.AlreadyTerminal? ==> Shows(pc.reply.snapshot, n.r))
            && CancelAnswered(pc.reply, c.present && (c.r.state.Queued? || c.r.state.Running?)) in n.history
  {
    var n := CancelRecord(c, id);
    var accepted := c.present && (c.r.state.Queued? || c.r.state.Running?);
    assert n.history[|c.history|] == CancelAnswered(n.cancels[id].reply, accepted);
  }

  // ---------- What a thread of a Batch goes on with ----------

  /** A thread looks for work until a cancel was accepted, claims the items in their order, each once, until
      none is left, and begins the item it claimed exactly if no cancel was accepted before. */
  lemma ThreadGoesOn(s: Registry, id: OpId, w: nat, step: SubStep)
    requires Reachable(s) && id in s.cells && SubEnabled(s.cells[id], w, step)
    requires step.DoReadFlag? || step.DoFetch? || step.DoBegin?
    ensures !WouldPanic(s.cells[id], SubAction(w, step))
    ensures var (c, n) := (s.cells[id], SubApply(s.cells[id], w, step));
            if step.DoFetch? then
              n.next == c.next + 1 && n.subs[w] == if c.next < |c.r.models| then Begin(c.next) else SubExited
            else if CancelAccepted(c.history) then n.subs[w] == SubExited
            else n.subs[w] == if step.DoReadFlag? then FetchIndex else RunItem(c.subs[w].i)
  {
    OperationTheorems.ReachableCell(s, id);
    OperationTheorems.NeverPanics(s, id, SubAction(w, step));
    ThreadOfCell(s.cells[id], w, step);
  }

  lemma ThreadOfCell(c: Cell, w: nat, step: SubStep)
    requires Phase(c) && Books(c) && SubEnabled(c, w, step) && !WouldPanic(c, SubAction(w, step))
    requires step.DoReadFlag? || step.DoFetch? || step.DoBegin?
    ensures var n := SubApply(c, w, step);
            if step.DoFetch? then
              n.next == c.next + 1 && n.subs[w] == if c.next < |c.r.models| then Begin(c.next) else SubExited
            else if CancelAccepted(c.history) then n.subs[w] == SubExited
            else n.subs[w] == if step.DoReadFlag? then FetchIndex else RunItem(c.subs[w].i)
  {}
}

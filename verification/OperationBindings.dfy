/** The Model bindings of an Operation: the record holds one for each item until a thread takes it, or the
    Operation ends. */
module OperationBindings {
  import opened Options
  import opened OperationRecord
  import opened OperationProtocol
  import opened OperationInvariant
  import opened OperationRegistry
  import opened OperationOutcomes
  import OperationTheorems

  predicate NoneHeld(bindings: seq<bool>) {
    forall i :: 0 <= i < |bindings| ==> !bindings[i]
  }

  // The worker of a Single has taken the binding and works with it.
  predicate TookBinding(pc: WorkerPc) {
    pc.RunSingle? || pc.StagedSingle? || pc.CheckSingle? || pc.CommitSingle? || pc.WriteSingle?
  }

  predicate BindingsOk(r: Record, worker: WorkerPc) {
    && (r.state.IsTerminal() ==> NoneHeld(r.bindings))
    && (TookBinding(worker) && |r.bindings| > 0 ==> !r.bindings[0])
  }

  lemma SubKeepsBindings(c: Cell, w: nat, step: SubStep)
    requires SubEnabled(c, w, step) && !WouldPanic(c, SubAction(w, step)) && BindingsOk(c.r, c.worker)
    ensures BindingsOk(SubApply(c, w, step).r, SubApply(c, w, step).worker)
  {}

  lemma FinishKeepsBindings(c: Cell, r: Record, holding: bool)
    requires BindingsOk(c.r, c.worker) && (r == c.r || NoneHeld(r.bindings))
    ensures BindingsOk(Finish(c, r, holding).r, Finish(c, r, holding).worker)
  {}

  lemma EndingKeepsBindings(c: Cell, a: Action)
    requires Enabled(c, a) && (a.FinishStep? || a.SucceedBatchStep?) && BindingsOk(c.r, c.worker)
    ensures BindingsOk(Apply(c, a).r, Apply(c, a).worker)
  {
    if a.FinishStep? {
      FinishKeepsBindings(c, WorkerEnding(c).0, WorkerEnding(c).1);
    } else {
      FinishKeepsBindings(c, SucceedBatch(c.r), false);
    }
  }

  lemma WorkerKeepsBindings(c: Cell, a: Action)
    requires Enabled(c, a) && !WouldPanic(c, a) && BindingsOk(c.r, c.worker)
    requires !a.SubAction? && !a.FinishStep? && !a.SucceedBatchStep?
    ensures BindingsOk(Apply(c, a).r, Apply(c, a).worker)
  {}

  lemma ActionKeepsBindings(c: Cell, a: Action)
    requires Enabled(c, a) && !WouldPanic(c, a) && BindingsOk(c.r, c.worker)
    ensures BindingsOk(Apply(c, a).r, Apply(c, a).worker)
  {
    if a.SubAction? {
      SubKeepsBindings(c, a.w, a.step);
    } else if a.FinishStep? || a.SucceedBatchStep? {
      EndingKeepsBindings(c, a);
    } else {
      WorkerKeepsBindings(c, a);
    }
  }

  lemma StepKeepsBindings(s: Registry, step: Step, id: OpId)
    requires CanStep(s, step) && id in TakeStep(s, step).cells
    requires id in s.cells ==> BindingsOk(s.cells[id].r, s.cells[id].worker)
    ensures BindingsOk(TakeStep(s, step).cells[id].r, TakeStep(s, step).cells[id].worker)
  {
    if id in s.cells {
      StepOfCell(s, step, id);
      if step.Act? && step.id == id {
        ActionKeepsBindings(s.cells[id], step.action);
      }
    }
  }

  lemma {:induction false} RunKeepsBindings(run: seq<Registry>, steps: seq<Step>, k: nat, id: OpId)
    requires IsRun(run, steps) && k < |run| && id in run[k].cells
    ensures BindingsOk(run[k].cells[id].r, run[k].cells[id].worker)
  {
    if k == 0 {
    } else {
      if id in run[k - 1].cells {
        RunKeepsBindings(run, steps, k - 1, id);
      }
      StepKeepsBindings(run[k - 1], steps[k - 1], id);
    }
  }

  /** In every reachable registry: a terminal Operation holds no binding; an active Batch holds exactly those
      of the items no thread has begun; and the binding of a Single is held until its worker takes it and
      not while the worker uses it. */
  lemma BindingsAreReleased(s: Registry, id: OpId)
    requires Reachable(s) && id in s.cells
    ensures var c := s.cells[id];
            && |c.r.bindings| == |c.r.models|
            && (c.r.state.IsTerminal() ==> NoneHeld(c.r.bindings))
            && (c.r.shape.Batch? && !c.r.state.IsTerminal() ==>
                  forall i :: 0 <= i < |c.r.bindings| ==> (c.r.bindings[i] <==> i !in c.begun))
            && (c.worker.TakeSingle? ==> |c.r.bindings| > 0 && c.r.bindings[0])
            && (TookBinding(c.worker) && |c.r.bindings| > 0 ==> !c.r.bindings[0])
  {
    OperationTheorems.ReachableCell(s, id);
    var run: seq<Registry>, steps: seq<Step> :| IsRun(run, steps) && run[|run| - 1] == s;
    RunKeepsBindings(run, steps, |run| - 1, id);
    HeldAreNotBegun(s.cells[id]);
  }

  lemma HeldAreNotBegun(c: Cell)
    requires Inv(c)
    ensures |c.r.bindings| == |c.r.models|
    ensures c.worker.TakeSingle? ==> |c.r.bindings| > 0 && c.r.bindings[0]
    ensures c.r.shape.Batch? && !c.r.state.IsTerminal() ==>
              forall i :: 0 <= i < |c.r.bindings| ==> (c.r.bindings[i] <==> i !in c.begun)
  {
    if c.r.shape.Batch? && !c.r.state.IsTerminal() {
      forall i | 0 <= i < |c.r.bindings|
        ensures c.r.bindings[i] <==> i !in c.begun
      {
        assert BindingHeld(c.r.bindings, c.begun, i);
        NotBegun(c.begun, i);
      }
    }
  }

  lemma {:induction false} NotBegun(begun: seq<nat>, i: nat)
    ensures Occurrences(begun, i) == 0 <==> i !in begun
  {
    if begun == [] {
    } else {
      NotBegun(begun[..|begun| - 1], i);
      assert begun == begun[..|begun| - 1] + [begun[|begun| - 1]];
    }
  }
}

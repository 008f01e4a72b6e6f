/** What the protocol guarantees of every reachable registry: the main results. */
module OperationTheorems {
  import opened Options
  import opened OperationRecord
  import opened OperationProtocol
  import opened OperationInvariant
  import opened OperationRegistry
  import OperationPreservation

  lemma ReachableCell(s: Registry, id: OpId)
    requires Reachable(s) && id in s.cells
    ensures Inv(s.cells[id])
  {
    ReachableInv(s);
  }

  // ---------- Cancel and commit are linearized ----------

  /** Once `cancel` has answered Cancelling or Cancelled, the executor's `commit` is never called for
      that Operation again. */
  lemma NoCommitAfterCancel(s: Registry, id: OpId, i: nat, j: nat)
    requires Reachable(s) && id in s.cells && i < j < |s.cells[id].history|
    requires AnswersCancelled(s.cells[id].history[i])
    ensures !s.cells[id].history[j].CommitCalled?
  {
    ReachableCell(s, id);
  }

  /** For a Single Operation whose worker is done, `commit` succeeded exactly when the Operation ended
      Succeeded, and the artifacts it shows are the ones that commit published. */
  lemma SingleCommitStands(s: Registry, id: OpId, artifacts: seq<Artifact>)
    requires Reachable(s) && id in s.cells && s.cells[id].r.shape.Single?
    requires s.cells[id].worker.Exited?
    ensures CommitCalled(0, artifacts, true) in s.cells[id].history
       <==> s.cells[id].r.state.Succeeded? && s.cells[id].r.singleArtifacts == artifacts
  {
    ReachableCell(s, id);
  }

  predicate Shows(outcomes: seq<Outcome>, item: nat, artifacts: seq<Artifact>) {
    exists k :: 0 <= k < |outcomes| && CreditedByOutcome(outcomes[k], item, artifacts)
  }

  lemma {:induction false} OutcomeCounted(outcomes: seq<Outcome>, k: nat)
    requires k < |outcomes|
    ensures OutcomeCount(outcomes, outcomes[k].itemIndex) > 0
  {
    if k == |outcomes| - 1 {
    } else {
      OutcomeCounted(outcomes[..|outcomes| - 1], k);
    }
  }

  /** A thread has committed the item and is on its way to settle it. */
  predicate Carried(subs: seq<SubPc>, item: nat, artifacts: seq<Artifact>) {
    exists w :: 0 <= w < |subs| && CreditedBySub(subs[w], item, artifacts)
  }

  /** An item's commit succeeded exactly when a Succeeded outcome shows its artifacts or a thread is about
      to settle it with them; once the threads are done, only the outcome is left. No item has two
      outcomes. */
  lemma ItemCommitStands(s: Registry, id: OpId, item: nat, artifacts: seq<Artifact>)
    requires Reachable(s) && id in s.cells && s.cells[id].r.shape.Batch?
    ensures var c := s.cells[id];
            CommitCalled(item, artifacts, true) in c.history
            <==> Shows(c.r.outcomes, item, artifacts) || Carried(c.subs, item, artifacts)
    ensures AllExited(s.cells[id]) ==> !Carried(s.cells[id].subs, item, artifacts)
    ensures OutcomeCount(s.cells[id].r.outcomes, item) <= 1
  {
    ReachableCell(s, id);
    var c := s.cells[id];
    assert Conserved(c.begun, c.subs, c.r.outcomes, c.discarded, item);
    assert Claimed(c.begun, c.subs, c.abandoned, c.next, |c.r.models|, item);
    if CommitCalled(item, artifacts, true) in c.history {
      assert CreditedItem(c.subs, c.r.outcomes, item, artifacts);
    }
  }

  // ---------- Batch conservation ----------

  /** In every reachable state: an index is begun at most once, and then is in exactly one thread's
      hands, in exactly one outcome, or discarded after a cancel; the sums agree; and no more than
      `concurrency` items are active. */
  lemma BatchConservation(s: Registry, id: OpId, i: nat)
    requires Reachable(s) && id in s.cells
    ensures var c := s.cells[id];
            && Occurrences(c.begun, i) <= 1
            && Occurrences(c.begun, i)
                == HoldCount(c.subs, i) + OutcomeCount(c.r.outcomes, i) + Occurrences(c.discarded, i)
            && (Occurrences(c.begun, i) == 1 ==> i < |c.r.models|)
            && |c.begun| == c.r.active + c.r.succeeded + c.r.failed + |c.discarded|
            && c.r.succeeded == StatusCount(c.r.outcomes, ItemSucceeded)
            && c.r.failed == StatusCount(c.r.outcomes, ItemFailed)
            && c.r.succeeded + c.r.failed == |c.r.outcomes|
            && c.r.active <= c.r.concurrency
            && (c.discarded != [] ==> CancelAccepted(c.history))
  {
    ReachableCell(s, id);
    var c := s.cells[id];
    assert Conserved(c.begun, c.subs, c.r.outcomes, c.discarded, i);
    assert Claimed(c.begun, c.subs, c.abandoned, c.next, |c.r.models|, i);
    OperationPreservation.BusyBounded(c.subs);
  }

  /** No thread of any Operation ever reaches one of the source's `expect`s with its condition false. */
  lemma NeverPanics(s: Registry, id: OpId, a: Action)
    requires Reachable(s) && id in s.cells && Enabled(s.cells[id], a)
    ensures !WouldPanic(s.cells[id], a)
  {
    ReachableCell(s, id);
    OperationPreservation.NoPanic(s.cells[id], a);
  }

  lemma {:induction false} RemovalCount(outcomes: seq<Outcome>, k: nat, i: nat)
    requires k < |outcomes|
    ensures OutcomeCount(outcomes, i)
                == OutcomeCount(outcomes[..k] + outcomes[k + 1..], i) + One(outcomes[k].itemIndex == i)
  {
    var n := |outcomes| - 1;
    var rest := outcomes[..k] + outcomes[k + 1..];
    if k == n {
      assert rest == outcomes[..n];
    } else {
      RemovalCount(outcomes[..n], k, i);
      assert rest[..n - 1] == outcomes[..n][..k] + outcomes[..n][k + 1..];
    }
  }

  lemma {:induction false} Counted(outcomes: seq<Outcome>, i: nat) returns (k: nat)
    requires OutcomeCount(outcomes, i) > 0
    ensures k < |outcomes| && outcomes[k].itemIndex == i
  {
    k := |outcomes| - 1;
    if outcomes[k].itemIndex != i {
      k := Counted(outcomes[..k], i);
    }
  }

  lemma {:induction false} OnceEachHasSize(outcomes: seq<Outcome>, n: nat)
    requires forall i: nat :: OutcomeCount(outcomes, i) == One(i < n)
    ensures |outcomes| == n
  {
    if n > 0 {
      var k := Counted(outcomes, n - 1);
      var rest := outcomes[..k] + outcomes[k + 1..];
      forall i: nat
        ensures OutcomeCount(rest, i) == One(i < n - 1)
      {
        RemovalCount(outcomes, k, i);
      }
      OnceEachHasSize(rest, n - 1);
    } else if outcomes != [] {
      OutcomeCounted(outcomes, 0);
    }
  }

  lemma SettledIsComplete(c: Cell)
    requires Counts(c) && AllSettled(c)
    ensures c.r.active == 0 && |c.r.outcomes| == |c.r.models|
    ensures forall i: nat :: OutcomeCount(c.r.outcomes, i) == One(i < |c.r.models|)
  {
    forall i: nat
      ensures OutcomeCount(c.r.outcomes, i) == One(i < |c.r.models|)
    {
      OperationPreservation.NoneHeld(c.subs, i);
      assert Conserved(c.begun, c.subs, c.r.outcomes, c.discarded, i);
      assert Claimed(c.begun, c.subs, c.abandoned, c.next, |c.r.models|, i);
    }
    OperationPreservation.NoneHeld(c.subs, 0);
    OnceEachHasSize(c.r.outcomes, |c.r.models|);
  }

  /** A Succeeded Batch has nothing active and exactly one outcome for every item. */
  lemma SucceededBatchIsComplete(s: Registry, id: OpId)
    requires Reachable(s) && id in s.cells && s.cells[id].r.shape.Batch? && s.cells[id].r.state.Succeeded?
    ensures var r := s.cells[id].r;
            && r.active == 0 && r.succeeded + r.failed == |r.outcomes| == |r.models|
            && forall i: nat :: OutcomeCount(r.outcomes, i) == One(i < |r.models|)
  {
    ReachableCell(s, id);
    SettledIsComplete(s.cells[id]);
  }

  // ---------- How a Batch ends ----------

  /** The state a Batch must be left in by a worker that ran to its end, given its history: was a
      cancel accepted, had the worker already found the flag clear, and which item was the first to
      fail for a reason of its own after the cancel. Item failures before it play no part. */
  function Ending(accepted: bool, cleared: bool, failure: Option<string>): OperationState {
    if !accepted then Succeeded
    else if cleared then Cancelling
    else if failure.Some? then Failed
    else Cancelled
  }

  lemma BatchEnding(s: Registry, id: OpId)
    requires Reachable(s) && id in s.cells
    requires s.cells[id].r.shape.Batch? && s.cells[id].subs != [] && s.cells[id].worker.Exited?
    ensures var c := s.cells[id];
            && c.r.state == Ending(CancelAccepted(c.history), FlagFoundClear in c.history, FirstLateFailure(c.history))
            && (c.r.state.Failed? ==> c.r.log == FirstLateFailure(c.history))
  {
    ReachableCell(s, id);
  }

  /** The exception. A Batch whose worker is gone stays Cancelling exactly when a cancel was accepted
      after the worker found the flag clear; then nothing is active and every item is settled. */
  lemma StuckExactly(s: Registry, id: OpId)
    requires Reachable(s) && id in s.cells
    requires s.cells[id].r.shape.Batch? && s.cells[id].subs != [] && s.cells[id].worker.Exited?
    ensures var c := s.cells[id];
            c.r.state.Cancelling? <==>
              exists i, j :: 0 <= i < j < |c.history| && c.history[i].FlagFoundClear? && Accepts(c.history[j])
    ensures s.cells[id].r.state.Cancelling? ==>
              && s.cells[id].r.active == 0
              && |s.cells[id].r.outcomes| == |s.cells[id].r.models|
  {
    ReachableCell(s, id);
    var c := s.cells[id];
    if c.r.state.Cancelling? {
      var i :| 0 <= i < |c.history| && c.history[i] == FlagFoundClear;
      var e :| e in c.history && Accepts(e);
      var j :| 0 <= j < |c.history| && c.history[j] == e;
      assert i < j;
      SettledIsComplete(c);
    }
  }

  /** No step of any thread, and no later cancel, ever takes such an Operation out of Cancelling. */
  lemma StuckForever(s: Registry, step: Step, id: OpId)
    requires Reachable(s) && id in s.cells && Stuck(s.cells[id]) && CanStep(s, step)
    ensures id in TakeStep(s, step).cells && Stuck(TakeStep(s, step).cells[id])
  {
    ReachableCell(s, id);
    if step.Act? && step.id == id {
      StuckCellStays(s.cells[id], step.action);
    }
  }

  lemma StuckCellStays(c: Cell, a: Action)
    requires Inv(c) && Stuck(c) && Enabled(c, a) && !WouldPanic(c, a)
    ensures Stuck(Apply(c, a))
  {}

  lemma ReachFurther(s: Registry, step: Step)
    requires Reachable(s) && CanStep(s, step)
    ensures Reachable(TakeStep(s, step))
  {
    var run: seq<Registry>, steps: seq<Step> :| IsRun(run, steps) && run[|run| - 1] == s;
    var further, taken := run + [TakeStep(s, step)], steps + [step];
    forall k | 0 <= k < |taken|
      ensures CanStep(further[k], taken[k]) && further[k + 1] == TakeStep(further[k], taken[k])
    {
      if k < |steps| {
        assert further[k] == run[k] && further[k + 1] == run[k + 1] && taken[k] == steps[k];
      } else {
        assert further[k] == s && taken[k] == step;
      }
    }
    assert IsRun(further, taken);
    assert further[|further| - 1] == TakeStep(s, step);
  }

  // One action of one Operation, when nothing is retained by it.
  lemma ActFurther(s: Registry, id: OpId, a: Action) returns (s': Registry)
    requires Reachable(s) && id in s.cells && Enabled(s.cells[id], a) && !WouldPanic(s.cells[id], a) && !Retains(a)
    ensures Reachable(s') && id in s'.cells && s'.cells[id] == Apply(s.cells[id], a)
  {
    ReachFurther(s, Act(id, a));
    s' := TakeStep(s, Act(id, a));
  }

  // A Batch of one item whose only thread has been spawned.
  lemma OneItemLaunched(id: OpId, model: string) returns (s: Registry)
    ensures Reachable(s) && id in s.cells
    ensures var c := s.cells[id];
            && c.present && c.worker.ScopeBatch? && c.subs == [ReadFlag] && c.next == 0 && c.holder.None?
                && c.cancels == map[]
            && c.r == Launch(Accepted(1, Batch, [model], 1))
  {
    assert IsRun([EMPTY], []);
    assert [EMPTY][|[EMPTY]| - 1] == EMPTY;
    ReachFurther(EMPTY, Submit(id, Batch, [model], 1));
    s := TakeStep(EMPTY, Submit(id, Batch, [model], 1));
    s := ActFurther(s, id, Execute);
    s := ActFurther(s, id, ReadBatchStep);
    assert s.cells[id].subs == [ReadFlag];
  }

  lemma OneItemBegun(id: OpId, model: string) returns (s: Registry)
    ensures Reachable(s) && id in s.cells
    ensures var c := s.cells[id];
            && c.present && c.worker.ScopeBatch? && c.subs == [RunItem(0)] && c.next == 1 && c.holder.None?
                && c.cancels == map[]
            && c.r == BeginItem(Launch(Accepted(1, Batch, [model], 1)), 0)
  {
    s := OneItemLaunched(id, model);
    s := ActFurther(s, id, SubAction(0, DoReadFlag));
    s := ActFurther(s, id, SubAction(0, DoFetch));
    s := ActFurther(s, id, SubAction(0, DoBegin));
  }

  // Its item fails, the thread exits, the worker finds the flag clear.
  lemma OneItemDecided(id: OpId, model: string, log: string) returns (s: Registry)
    ensures Reachable(s) && id in s.cells
    ensures var c := s.cells[id];
            c.present && c.worker.SucceedBatchPc? && c.holder.None? && c.cancels == map[] && c.r.state.Running?
                && c.r.shape.Batch?
  {
    s := OneItemBegun(id, model);
    s := ActFurther(s, id, SubAction(0, DoRun(StageFailed(ExecutionError(log, false)))));
    s := ActFurther(s, id, SubAction(0, DoSettle));
    s := ActFurther(s, id, SubAction(0, DoReadFlag));
    s := ActFurther(s, id, SubAction(0, DoFetch));
    s := ActFurther(s, id, JoinStep);
    s := ActFurther(s, id, ReadFailureStep);
    s := ActFurther(s, id, DecideStep);
  }

  // A cancel is accepted just then.
  lemma OneItemCancelled(id: OpId, model: string, log: string) returns (s: Registry)
    ensures Reachable(s) && id in s.cells
    ensures var c := s.cells[id];
            c.present && c.worker.SucceedBatchPc? && c.r.state.Cancelling? && c.r.shape.Batch?
  {
    s := OneItemDecided(id, model, log);
    s := ActFurther(s, id, CancelArrive(0));
    s := ActFurther(s, id, CancelLock(0));
    s := ActFurther(s, id, CancelWrite(0));
  }

  /** The exception does occur: a run of a one-item Batch that leaves it Cancelling for good. */
  lemma StuckHappens(id: OpId, model: string, log: string) returns (s: Registry)
    ensures Reachable(s) && id in s.cells && Stuck(s.cells[id])
  {
    s := OneItemCancelled(id, model, log);
    s := ActFurther(s, id, SucceedBatchStep);
  }

  // ---------- Terminal states ----------

  lemma TerminalOnce(s: Registry, id: OpId, i: nat, j: nat)
    requires Reachable(s) && id in s.cells && i < j < |s.cells[id].history|
    ensures s.cells[id].history[i].BecameTerminal? ==> !s.cells[id].history[j].BecameTerminal?
  {
    ReachableCell(s, id);
  }

  lemma TerminalStays(s: Registry, step: Step, id: OpId)
    requires Reachable(s) && id in s.cells && s.cells[id].r.state.IsTerminal() && CanStep(s, step)
    ensures id in TakeStep(s, step).cells && TakeStep(s, step).cells[id].r == s.cells[id].r
  {
    if step.Act? && step.id == id {
      ReachableCell(s, id);
      TerminalCellStays(s.cells[id], step.action);
    }
  }

  /** A terminal record never changes again, whatever step is taken, and no second terminal state is
      ever entered. */
  lemma TerminalIsAbsorbing(s: Registry, step: Step, id: OpId)
    requires Reachable(s) && id in s.cells && s.cells[id].r.state.IsTerminal() && CanStep(s, step)
    ensures id in TakeStep(s, step).cells && TakeStep(s, step).cells[id].r == s.cells[id].r
    ensures forall i, j :: 0 <= i < j < |s.cells[id].history| && s.cells[id].history[i].BecameTerminal?
              ==> !s.cells[id].history[j].BecameTerminal?
  {
    TerminalStays(s, step, id);
    forall i, j | 0 <= i < j < |s.cells[id].history| && s.cells[id].history[i].BecameTerminal?
      ensures !s.cells[id].history[j].BecameTerminal?
    {
      TerminalOnce(s, id, i, j);
    }
  }

  lemma TerminalCancelStays(c: Cell, id: nat)
    requires c.r.state.IsTerminal()
    ensures CancelRecord(c, id).r == c.r
  {}

  lemma TerminalCellStays(c: Cell, a: Action)
    requires Inv(c) && c.r.state.IsTerminal() && Enabled(c, a) && !WouldPanic(c, a)
    ensures Apply(c, a).r == c.r
  {
    if a.CancelWrite? {
      TerminalCancelStays(c, a.c);
    } else if a.FinishStep? {
      TerminalFinishStays(c);
    } else {
      TerminalOtherStays(c, a);
    }
  }

  lemma TerminalFinishStays(c: Cell)
    requires c.r.state.IsTerminal()
    ensures WorkerFinish(c).r == c.r
  {}

  lemma TerminalOtherStays(c: Cell, a: Action)
    requires Phase(c) && c.r.state.IsTerminal() && Enabled(c, a) && !WouldPanic(c, a)
    requires !a.CancelWrite? && !a.FinishStep?
    ensures Apply(c, a).r == c.r
  {}

  /** Retention: the queue names at most 100 Operations, each once, each terminal and still in the
      registry; each Operation is retained at most once; an active Operation is never evicted. */
  lemma RetentionIsSound(s: Registry)
    requires Reachable(s)
    ensures |s.terminalOrder| <= MAX_TERMINAL_OPERATIONS && Distinct(s.terminalOrder)
    ensures forall id :: id in s.terminalOrder ==>
              id in s.cells && s.cells[id].present && s.cells[id].r.state.IsTerminal()
    ensures forall id :: id in s.cells ==> s.cells[id].retains <= 1
    ensures forall id :: id in s.cells && !s.cells[id].r.state.IsTerminal() ==> s.cells[id].present
  {
    ReachableInv(s);
    forall id | id in s.cells
      ensures s.cells[id].retains <= 1
      ensures s.cells[id].retains == 1 ==> s.cells[id].r.state.IsTerminal()
      ensures !s.cells[id].r.state.IsTerminal() ==> s.cells[id].present
    {
      assert Inv(s.cells[id]);
    }
  }

  predicate Quiescent(s: Registry) {
    forall id :: id in s.cells ==> !RetainIsPending(s.cells[id].worker, s.cells[id].cancels)
  }

  /** At quiescence the registry holds exactly the active Operations and the queued ones. */
  lemma RegistryAtQuiescence(s: Registry, id: OpId)
    requires Reachable(s) && Quiescent(s)
    ensures id in s.cells && s.cells[id].present
       <==> (id in s.cells && !s.cells[id].r.state.IsTerminal()) || id in s.terminalOrder
  {
    ReachableInv(s);
    if id in s.cells {
      assert Inv(s.cells[id]);
    }
  }

  // ---------- Observations ----------

  /** What is prepared for observers, restricted to one Operation, is a path of its state machine
      that starts Queued and has reached the present state; its counters never go down. */
  lemma PreparedIsPath(s: Registry, id: OpId)
    requires Reachable(s) && id in s.cells
    ensures Path(ObservationsOf(s.prepared, id))
    ensures var path := ObservationsOf(s.prepared, id);
            path[|path| - 1].state == s.cells[id].r.state
  {
    ReachableInv(s);
  }
}

/** Every enabled action of the protocol keeps the invariant and never meets a panic. */
module OperationPreservation {
  import opened Options
  import opened OperationRecord
  import opened OperationProtocol
  import opened OperationInvariant

  // ---------- Facts about the counts ----------

  lemma {:induction false} CountsAt(subs: seq<SubPc>, w: nat, pc: SubPc, i: nat)
    requires w < |subs|
    ensures ClaimCount(subs[w := pc], i) + One(subs[w] == Begin(i)) == ClaimCount(subs, i) + One(pc == Begin(i))
    ensures HoldCount(subs[w := pc], i) + One(Holds(subs[w]) && subs[w].i == i)
         == HoldCount(subs, i) + One(Holds(pc) && pc.i == i)
    ensures Busy(subs[w := pc]) + One(Holds(subs[w])) == Busy(subs) + One(Holds(pc))
  {
    var n := |subs| - 1;
    if w < n {
      assert subs[w := pc][..n] == subs[..n][w := pc];
      CountsAt(subs[..n], w, pc, i);
    } else {
      assert subs[w := pc][..n] == subs[..n];
    }
  }

  lemma {:induction false} CountsInclude(subs: seq<SubPc>, w: nat)
    requires w < |subs|
    ensures subs[w].Begin? ==> ClaimCount(subs, subs[w].i) > 0
    ensures Holds(subs[w]) ==> HoldCount(subs, subs[w].i) > 0 && Busy(subs) > 0
  {
    if w == |subs| - 1 {
    } else {
      CountsInclude(subs[..|subs| - 1], w);
    }
  }

  lemma {:induction false} NoneHeld(subs: seq<SubPc>, i: nat)
    requires forall w :: 0 <= w < |subs| ==> subs[w].ReadFlag? || subs[w].SubExited?
    ensures ClaimCount(subs, i) == 0 && HoldCount(subs, i) == 0 && Busy(subs) == 0
  {
    if subs == [] {
    } else {
      NoneHeld(subs[..|subs| - 1], i);
    }
  }

  lemma {:induction false} BusyBounded(subs: seq<SubPc>)
    ensures Busy(subs) <= |subs|
  {
    if subs == [] {
    } else {
      BusyBounded(subs[..|subs| - 1]);
    }
  }

  lemma OccursOnceMore(items: seq<nat>, x: nat, i: nat)
    ensures Occurrences(items + [x], i) == Occurrences(items, i) + One(x == i)
  {
    assert (items + [x])[..|items|] == items;
  }

  lemma OutcomeOnceMore(outcomes: seq<Outcome>, o: Outcome, i: nat)
    ensures OutcomeCount(outcomes + [o], i) == OutcomeCount(outcomes, i) + One(o.itemIndex == i)
    ensures StatusCount(outcomes + [o], ItemSucceeded)
                == StatusCount(outcomes, ItemSucceeded) + One(o.status.ItemSucceeded?)
    ensures StatusCount(outcomes + [o], ItemFailed) == StatusCount(outcomes, ItemFailed) + One(o.status.ItemFailed?)
  {
    assert (outcomes + [o])[..|outcomes|] == outcomes;
  }

  // ---------- No panic ----------

  /** The item a claiming thread is about to begin is below the item count and was never begun. */
  lemma ClaimIsFresh(c: Cell, w: nat)
    requires Counts(c) && w < |c.subs| && c.subs[w].Begin?
    ensures c.subs[w].i < |c.r.models| && Occurrences(c.begun, c.subs[w].i) == 0
  {
    CountsInclude(c.subs, w);
    assert Claimed(c.begun, c.subs, c.abandoned, c.next, |c.r.models|, c.subs[w].i);
  }

  lemma HeldItemIsBegun(c: Cell, w: nat)
    requires Counts(c) && w < |c.subs| && Holds(c.subs[w])
    ensures c.r.active > 0 && c.subs[w].i < |c.r.models|
  {
    CountsInclude(c.subs, w);
    assert Conserved(c.begun, c.subs, c.r.outcomes, c.discarded, c.subs[w].i);
    assert Claimed(c.begun, c.subs, c.abandoned, c.next, |c.r.models|, c.subs[w].i);
  }

  lemma BindingIsHeld(c: Cell, w: nat)
    requires Inv(c) && SubEnabled(c, w, DoBegin)
    ensures c.subs[w].i < |c.r.bindings| && c.r.bindings[c.subs[w].i]
  {
    ClaimIsFresh(c, w);
    assert BindingHeld(c.r.bindings, c.begun, c.subs[w].i);
  }

  lemma NoPanic(c: Cell, a: Action)
    requires Inv(c) && Enabled(c, a)
    ensures !WouldPanic(c, a)
  {
    if a.SubAction? && a.step.DoBegin? {
      BindingIsHeld(c, a.w);
    } else if a.SubAction? && a.step.DoSettle? {
      HeldItemIsBegun(c, a.w);
    }
  }

  // ---------- Facts about the history ----------

  lemma Appended(h: seq<Event>, e: Event)
    ensures CancelAccepted(h + [e]) <==> CancelAccepted(h) || Accepts(e)
    ensures FirstLateFailure(h + [e]) == LateFailureAfter(h, e, FirstLateFailure(h))
  {
    assert (h + [e])[..|h|] == h;
    assert e in h + [e];
    if CancelAccepted(h) {
      var x :| x in h && Accepts(x);
      assert x in h + [e];
    }
  }

  /** An event that is no cancellation keeps the cancel history, provided a commit comes before any
      cancelled answer and a settled item leaves the failure the record now has. */
  lemma CancelHistoryGoesOn(h: seq<Event>, e: Event, cancelled: bool, state: OperationState, state': OperationState,
                            failure: Option<string>, failure': Option<string>)
    requires CancelHistory(h, cancelled, state, failure)
    requires !e.CancelAnswered?
    requires state.Cancelled? ==> state'.Cancelled?
    requires e.CommitCalled? ==> !cancelled && !state.Cancelled?
    requires failure' == if failure.None? && cancelled && RealFailure(e) then Some(e.result.error.log) else failure
    ensures CancelHistory(h + [e], cancelled, state', failure')
  {
    Appended(h, e);
  }

  lemma CancelAnswerGoesOn(h: seq<Event>, e: Event, cancelled: bool, cancelled': bool,
                           state: OperationState, state': OperationState, failure: Option<string>)
    requires CancelHistory(h, cancelled, state, failure) && e.CancelAnswered?
    requires cancelled' == (cancelled || e.accepted)
    requires state.Cancelled? ==> state'.Cancelled?
    requires AnswersCancelled(e) ==> cancelled' || state'.Cancelled?
    ensures CancelHistory(h + [e], cancelled', state', failure)
  {
    Appended(h, e);
  }

  lemma TerminalHistoryBegins(h: seq<Event>, state: OperationState, state': OperationState)
    requires TerminalHistory(h, state) && !state.IsTerminal() && state'.IsTerminal()
    ensures TerminalHistory(h + [BecameTerminal(state')], state')
  {}

  lemma CommitHistoryGoesOn(h: seq<Event>, e: Event, subs: seq<SubPc>, outcomes: seq<Outcome>)
    requires ItemCommitHistory(h, subs, outcomes) && !e.CommitCalled?
    ensures ItemCommitHistory(h + [e], subs, outcomes)
  {}

  predicate SameBooks(r: Record, r': Record) {
    && r'.shape == r.shape && r'.models == r.models && r'.concurrency == r.concurrency
    && r'.cancelled == r.cancelled && r'.cancellationFailure == r.cancellationFailure
    && r'.outcomes == r.outcomes && r'.singleArtifacts == r.singleArtifacts
  }

  /** The worker writes a terminal state: no commit was left uncredited, and a Batch that had
      already found its flag clear can only succeed. */
  lemma FinishKeepsBooks(c: Cell, r': Record, holding: bool)
    requires Books(c) && Phase(c) && c.present && !c.r.state.IsTerminal()
    requires r' != c.r && SameBooks(c.r, r') && r'.state.IsTerminal()
    requires !c.worker.WriteSingle?
    requires r'.state.Succeeded? <==> c.worker.SucceedBatchPc?
    requires c.r.shape.Batch? ==> !holding
    requires FlagFoundClear in c.history ==> c.worker.SucceedBatchPc?
    ensures Books(Finish(c, r', holding))
  {
    var e := BecameTerminal(r'.state);
    CancelHistoryGoesOn(c.history, e, c.r.cancelled, c.r.state, r'.state,
                        c.r.cancellationFailure, c.r.cancellationFailure);
    TerminalHistoryBegins(c.history, c.r.state, r'.state);
    if c.r.shape.Batch? {
      CommitHistoryGoesOn(c.history, e, c.subs, c.r.outcomes);
    }
  }

  lemma FinishKeepsCounts(c: Cell, r': Record)
    requires Counts(c) && AllExited(c) && SameBooks(c.r, r') && r'.state.IsTerminal()
    requires r'.active == 0 && r'.succeeded == c.r.succeeded && r'.failed == c.r.failed
    ensures CountsOf(c.begun, c.subs, c.abandoned, c.discarded, c.next, r')
  {
    NoneHeld(c.subs, 0);
  }

  lemma FinishKeepsControl(c: Cell, r': Record, holding: bool)
    requires Control(c) && c.present && AllExited(c) && !c.r.state.IsTerminal()
    requires SameBooks(c.r, r') && r' != c.r && r'.state.IsTerminal() && |r'.bindings| == |c.r.bindings|
    requires Edge(c.r.state, r'.state) && r'.succeeded == c.r.succeeded && r'.failed == c.r.failed
    requires holding == WorkerHolding(c.worker) && (c.r.shape.Batch? ==> !holding)
    requires c.worker.AwaitStart? || c.worker.StartLost? || !c.r.state.Queued?
    requires r'.state.Succeeded? ==> !r'.cancelled
    requires Verdict(c.(r := r'))
    ensures Control(Finish(c, r', holding))
  {}

  // ---------- A scoped thread moves on ----------

  lemma MoveKeepsCounts(c: Cell, w: nat, pc: SubPc)
    requires Counts(c) && w < |c.subs|
    requires !pc.Begin? && !c.subs[w].Begin?
    requires Holds(pc) == Holds(c.subs[w]) && (Holds(pc) ==> pc.i == c.subs[w].i)
    requires pc.SubExited? ==> c.r.cancelled
    ensures CountsOf(c.begun, c.subs[w := pc], c.abandoned, c.discarded, c.next, c.r)
  {
    var moved := c.subs[w := pc];
    forall i: nat
      ensures Claimed(c.begun, moved, c.abandoned, c.next, |c.r.models|, i)
      ensures Conserved(c.begun, moved, c.r.outcomes, c.discarded, i)
    {
      CountsAt(c.subs, w, pc, i);
      assert Claimed(c.begun, c.subs, c.abandoned, c.next, |c.r.models|, i);
      assert Conserved(c.begun, c.subs, c.r.outcomes, c.discarded, i);
    }
    CountsAt(c.subs, w, pc, 0);
  }

  lemma MoveKeepsCommits(h: seq<Event>, subs: seq<SubPc>, outcomes: seq<Outcome>, w: nat, pc: SubPc)
    requires ItemCommitHistory(h, subs, outcomes) && w < |subs|
    requires CreditOf(pc) == CreditOf(subs[w])
    ensures ItemCommitHistory(h, subs[w := pc], outcomes)
  {
    forall item, artifacts | CreditedItem(subs, outcomes, item, artifacts)
      ensures CreditedItem(subs[w := pc], outcomes, item, artifacts)
    {
      if v :| 0 <= v < |subs| && CreditedBySub(subs[v], item, artifacts) {
        assert CreditedBySub(subs[w := pc][v], item, artifacts);
      }
    }
  }

  lemma CommitIsCredited(h: seq<Event>, subs: seq<SubPc>, outcomes: seq<Outcome>, w: nat, pc: SubPc, e: Event)
    requires ItemCommitHistory(h, subs, outcomes) && w < |subs| && subs[w].CommitItem? && e.CommitCalled?
    requires CreditOf(pc) == if e.succeeded then Some((e.item, e.artifacts)) else None
    ensures ItemCommitHistory(h + [e], subs[w := pc], outcomes)
  {
    var moved := subs[w := pc];
    forall item, artifacts | CreditedItem(subs, outcomes, item, artifacts)
        || (e.succeeded && e.item == item && e.artifacts == artifacts)
      ensures CreditedItem(moved, outcomes, item, artifacts)
    {
      if v :| 0 <= v < |subs| && CreditedBySub(subs[v], item, artifacts) {
        assert CreditedBySub(moved[v], item, artifacts);
      } else if e.succeeded && e.item == item && e.artifacts == artifacts {
        assert CreditedBySub(moved[w], item, artifacts);
      }
    }
  }

  lemma SettledOnceMore(c: Cell, w: nat, i: nat)
    requires c.present && SubEnabled(c, w, DoSettle) && !WouldPanic(c, SubAction(w, DoSettle))
    ensures var r := SubSettle(c, w).r;
            var more := One(!(c.subs[w].result.ItemErr? && c.r.cancelled));
            && OutcomeCount(r.outcomes, i) == OutcomeCount(c.r.outcomes, i) + (if c.subs[w].i == i then more else 0)
            && |r.outcomes| == |c.r.outcomes| + more
            && StatusCount(r.outcomes, ItemSucceeded)
                == StatusCount(c.r.outcomes, ItemSucceeded) + One(c.subs[w].result.ItemOk?)
            && StatusCount(r.outcomes, ItemFailed) == StatusCount(c.r.outcomes, ItemFailed)
                 + One(c.subs[w].result.ItemErr? && !c.r.cancelled)
  {
    var r := SubSettle(c, w).r;
    if |r.outcomes| > |c.r.outcomes| {
      OutcomeOnceMore(c.r.outcomes, r.outcomes[|c.r.outcomes|], i);
    }
  }

  /** An item that leaves a thread's hands is in the outcomes or discarded once more. */
  lemma HeldItemIsSettled(begun: seq<nat>, subs: seq<SubPc>, abandoned: seq<nat>, next: nat, count: nat,
                          outcomes: seq<Outcome>, discarded: seq<nat>, w: nat, pc: SubPc,
                          outcomes': seq<Outcome>, discarded': seq<nat>, i: nat)
    requires w < |subs| && Holds(subs[w]) && !Holds(pc) && !pc.Begin?
    requires Claimed(begun, subs, abandoned, next, count, i) && Conserved(begun, subs, outcomes, discarded, i)
    requires || (discarded' == discarded
                 && OutcomeCount(outcomes', i) == OutcomeCount(outcomes, i) + One(subs[w].i == i))
             || (discarded' == discarded + [subs[w].i] && OutcomeCount(outcomes', i) == OutcomeCount(outcomes, i))
    ensures Claimed(begun, subs[w := pc], abandoned, next, count, i)
    ensures Conserved(begun, subs[w := pc], outcomes', discarded', i)
    ensures Busy(subs[w := pc]) + 1 == Busy(subs)
  {
    CountsAt(subs, w, pc, i);
    OccursOnceMore(discarded, subs[w].i, i);
  }

  lemma SettleKeepsCount(c: Cell, w: nat, i: nat)
    requires Counts(c) && c.present && SubEnabled(c, w, DoSettle) && !WouldPanic(c, SubAction(w, DoSettle))
    ensures var n := SubSettle(c, w);
            && Claimed(n.begun, n.subs, n.abandoned, n.next, |n.r.models|, i)
            && Conserved(n.begun, n.subs, n.r.outcomes, n.discarded, i)
            && Busy(n.subs) + 1 == Busy(c.subs)
  {
    var n := SubSettle(c, w);
    SettledOnceMore(c, w, i);
    assert Claimed(c.begun, c.subs, c.abandoned, c.next, |c.r.models|, i);
    assert Conserved(c.begun, c.subs, c.r.outcomes, c.discarded, i);
    HeldItemIsSettled(c.begun, c.subs, c.abandoned, c.next, |c.r.models|, c.r.outcomes, c.discarded, w, n.subs[w],
        n.r.outcomes, n.discarded, i);
  }

  lemma SettleKeepsCommits(c: Cell, w: nat)
    requires CommitHistory(c) && c.present && c.r.shape.Batch?
    requires SubEnabled(c, w, DoSettle) && !WouldPanic(c, SubAction(w, DoSettle))
    ensures CommitHistory(SubSettle(c, w))
  {
    var pc, n := c.subs[w], SubSettle(c, w);
    forall item, artifacts | CreditedItem(c.subs, c.r.outcomes, item, artifacts)
      ensures CreditedItem(n.subs, n.r.outcomes, item, artifacts)
    {
      if k :| 0 <= k < |c.r.outcomes| && CreditedByOutcome(c.r.outcomes[k], item, artifacts) {
        assert CreditedByOutcome(n.r.outcomes[k], item, artifacts);
      } else {
        var v :| 0 <= v < |c.subs| && CreditedBySub(c.subs[v], item, artifacts);
        if v == w {
          assert CreditedByOutcome(n.r.outcomes[|c.r.outcomes|], item, artifacts);
        } else {
          assert CreditedBySub(n.subs[v], item, artifacts);
        }
      }
    }
    if pc.result.ItemOk? {
      assert CreditedBySub(pc, pc.i, pc.result.artifacts);
    }
  }

  // ---------- The shapes of the actions ----------

  // Steps that are not logged: the worker's before its Single commit, its later ones, and a canceller's.
  predicate SingleMove(a: Action) {
    a.LoseStart? || a.TakeBindingStep? || a.RunStep? || a.LockStep? || a.CheckStep?
  }

  predicate LateMove(a: Action) {
    a.JoinStep? || a.ReadFailureStep? || a.RetainStep? || a.UnlockStep?
  }

  predicate CancelMove(a: Action) {
    a.CancelArrive? || a.CancelLock? || a.CancelRetain? || a.CancelRelease?
  }

  predicate CancelAction(a: Action) {
    CancelMove(a) || a.CancelWrite?
  }

  /** Steps of a scoped thread that leave its item, and every count, as they are. */
  predicate SubMove(step: SubStep) {
    !step.DoFetch? && !step.DoBegin? && !step.DoSettle?
  }

  predicate EarlyMove(step: SubStep) {
    step.DoReadFlag? || step.DoFetch? || step.DoRun? || step.DoLock?
  }

  lemma SingleMoveKeepsBooks(c: Cell, a: Action)
    requires Books(c) && Phase(c) && WellFormed(c) && Enabled(c, a) && !WouldPanic(c, a)
    requires SingleMove(a)
    ensures Books(Apply(c, a))
  {}

  lemma JoinedKeepsCountsBooks(c: Cell, a: Action)
    requires Counts(c) && Books(c) && Phase(c) && WellFormed(c)
    requires Enabled(c, a) && (a.JoinStep? || a.ReadFailureStep?)
    ensures Counts(Apply(c, a)) && Books(Apply(c, a))
  {}

  lemma RetainKeepsCountsBooks(c: Cell)
    requires Counts(c) && Books(c) && Phase(c) && WellFormed(c) && c.worker.RetainPending?
    ensures Counts(Apply(c, RetainStep)) && Books(Apply(c, RetainStep))
  {}

  lemma UnlockKeepsCountsBooks(c: Cell)
    requires Counts(c) && Books(c) && Phase(c) && WellFormed(c) && c.worker.UnlockPending?
    ensures Counts(Apply(c, UnlockStep)) && Books(Apply(c, UnlockStep))
  {}

  lemma LaunchKeepsBooks(c: Cell, a: Action)
    requires Books(c) && Phase(c) && WellFormed(c) && Enabled(c, a)
    requires a.Execute? || a.ReadBatchStep?
    ensures Books(Apply(c, a))
  {}

  // Where a canceller stands, who holds the lock and what was retained is in no count and no book.
  lemma CancelMoveKeepsCountsBooks(c: Cell, n: Cell)
    requires Counts(c) && Books(c)
    requires n == c.(cancels := n.cancels, holder := n.holder, retains := n.retains)
    ensures Counts(n) && Books(n)
  {}

  lemma SingleMoveKeepsCounts(c: Cell, a: Action)
    requires Counts(c) && Phase(c) && Enabled(c, a) && !WouldPanic(c, a) && SingleMove(a)
    ensures Counts(Apply(c, a))
  {}

  lemma WorkerKeepsCounts(c: Cell, a: Action)
    requires Counts(c) && Phase(c) && WellFormed(c) && Enabled(c, a)
    requires a.Execute? || a.CommitStep? || a.WriteStep? || a.DecideStep? || a.SucceedBatchStep?
    ensures Counts(Apply(c, a))
  {}

  lemma FinishUnstartedKeepsCounts(c: Cell)
    requires Counts(c) && Phase(c) && WellFormed(c) && c.worker.StartLost?
    ensures Counts(WorkerFinish(c))
  {}

  lemma CancelRecordKeepsCounts(c: Cell, id: nat)
    requires Counts(c) && Phase(c) && WellFormed(c)
    ensures Counts(CancelRecord(c, id))
  {}

  // ---------- The worker thread ----------

  lemma RunningKeepsControl(c: Cell, a: Action)
    requires Control(c) && Enabled(c, a) && !WouldPanic(c, a)
    requires a.LoseStart? || a.TakeBindingStep? || a.RunStep?
    ensures Control(Apply(c, a))
  {}

  lemma StagedKeepsControl(c: Cell, a: Action)
    requires Control(c) && Enabled(c, a) && (a.LockStep? || a.CheckStep?)
    ensures Control(Apply(c, a))
  {}

  lemma SingleMoveKeepsControl(c: Cell, a: Action)
    requires Control(c) && Enabled(c, a) && !WouldPanic(c, a) && SingleMove(a)
    ensures Control(Apply(c, a))
  {
    if a.LockStep? || a.CheckStep? {
      StagedKeepsControl(c, a);
    } else {
      RunningKeepsControl(c, a);
    }
  }

  lemma JoinedKeepsControl(c: Cell, a: Action)
    requires Control(c) && Enabled(c, a) && (a.JoinStep? || a.ReadFailureStep?)
    ensures Control(Apply(c, a))
  {}

  lemma RetainKeepsControl(c: Cell)
    requires Control(c) && c.worker.RetainPending?
    ensures Control(Apply(c, RetainStep))
  {}

  lemma UnlockKeepsControl(c: Cell)
    requires Control(c) && c.worker.UnlockPending?
    ensures Control(Apply(c, UnlockStep))
  {}

  lemma ExecuteKeepsControl(c: Cell)
    requires Control(c) && Counts(c)
    requires c.worker.AwaitStart?
    ensures Control(WorkerExecute(c))
  {
    if c.r.state.Queued? {
      assert BindingHeld(c.r.bindings, c.begun, 0);
    }
  }

  lemma CommitKeepsControl(c: Cell, committed: CommitResult)
    requires Control(c) && c.worker.CommitSingle?
    ensures Control(WorkerCommit(c, committed))
  {}

  lemma CommitKeepsBooks(c: Cell, committed: CommitResult)
    requires Books(c) && Phase(c) && WellFormed(c)
    requires c.worker.CommitSingle?
    ensures Books(WorkerCommit(c, committed))
  {
    CancelHistoryGoesOn(c.history, CommitCalled(0, c.worker.artifacts, committed.Committed?), c.r.cancelled,
                        c.r.state, c.r.state, c.r.cancellationFailure, c.r.cancellationFailure);
  }

  lemma WriteKeepsControl(c: Cell)
    requires Control(c) && c.worker.WriteSingle?
    ensures Control(WorkerWrite(c))
  {}

  lemma WriteKeepsBooks(c: Cell)
    requires Books(c) && Phase(c) && WellFormed(c)
    requires c.worker.WriteSingle?
    ensures Books(WorkerWrite(c))
  {
    CancelHistoryGoesOn(c.history, BecameTerminal(Succeeded), c.r.cancelled,
                        c.r.state, Succeeded, c.r.cancellationFailure, c.r.cancellationFailure);
  }

  lemma ReadBatchKeepsControl(c: Cell)
    requires Control(c)
    requires c.worker.ReadBatch?
    ensures Control(WorkerReadBatch(c))
  {}

  lemma ReadBatchKeepsCounts(c: Cell)
    requires Counts(c) && Phase(c) && WellFormed(c)
    requires c.worker.ReadBatch?
    ensures Counts(WorkerReadBatch(c))
  {
    var subs := seq(c.r.concurrency, _ => ReadFlag);
    forall i: nat
      ensures Claimed(c.begun, subs, c.abandoned, c.next, |c.r.models|, i)
      ensures Conserved(c.begun, subs, c.r.outcomes, c.discarded, i)
    {
      NoneHeld(subs, i);
      assert Claimed(c.begun, c.subs, c.abandoned, c.next, |c.r.models|, i);
      assert Conserved(c.begun, c.subs, c.r.outcomes, c.discarded, i);
    }
    NoneHeld(subs, 0);
  }

  lemma DecideKeepsControl(c: Cell)
    requires Control(c)
    requires c.worker.DecideBatch?
    ensures Control(WorkerDecide(c))
  {}

  // Threads that exited without a cancel found no item left.
  lemma UncancelledIsSettled(c: Cell)
    requires Counts(c) && Phase(c) && WellFormed(c)
    requires c.worker.DecideBatch? && !c.r.cancelled
    ensures AllSettled(c)
  {
    assert c.subs[0].SubExited?;
  }

  lemma ClearedKeepsDecision(c: Cell)
    requires Books(c) && Phase(c) && c.worker.DecideBatch? && !c.r.cancelled && AllSettled(c)
    ensures DecisionHistory(c.history + [FlagFoundClear], SucceedBatchPc, c.r.shape, c.r.state, true)
    ensures TerminalHistory(c.history + [FlagFoundClear], c.r.state)
  {
    assert forall e :: e in c.history ==> !Accepts(e);
  }

  lemma DecideKeepsBooks(c: Cell)
    requires Books(c) && Phase(c)
    requires c.worker.DecideBatch? && (c.r.cancelled || AllSettled(c))
    ensures Books(WorkerDecide(c))
  {
    if !c.r.cancelled {
      ClearedKeepsDecision(c);
      CancelHistoryGoesOn(c.history, FlagFoundClear, c.r.cancelled,
                          c.r.state, c.r.state, c.r.cancellationFailure, c.r.cancellationFailure);
      CommitHistoryGoesOn(c.history, FlagFoundClear, c.subs, c.r.outcomes);
    }
  }

  lemma SucceedBatchKeepsControl(c: Cell)
    requires Control(c)
    requires c.worker.SucceedBatchPc?
    ensures Control(Finish(c, SucceedBatch(c.r), false))
  {
    if c.r.state.Running? {
      FinishKeepsControl(c, SucceedBatch(c.r), false);
    }
  }

  lemma SucceedBatchKeepsBooks(c: Cell)
    requires Books(c) && Phase(c) && WellFormed(c)
    requires c.worker.SucceedBatchPc?
    ensures Books(Finish(c, SucceedBatch(c.r), false))
  {
    if c.r.state.Running? {
      FinishKeepsBooks(c, SucceedBatch(c.r), false);
    }
  }

  lemma FinishCancelledKeepsControl(c: Cell)
    requires Control(c)
    requires c.worker.CancelPending?
    ensures Control(WorkerFinish(c))
  {
    FinishKeepsControl(c, FinishCancelled(c.r), c.worker.holding);
  }

  lemma FinishCancelledKeepsCounts(c: Cell)
    requires Counts(c) && Phase(c) && WellFormed(c)
    requires c.worker.CancelPending?
    ensures Counts(WorkerFinish(c))
  {
    FinishKeepsCounts(c, FinishCancelled(c.r));
  }

  lemma FinishCancelledKeepsBooks(c: Cell)
    requires Books(c) && Phase(c) && WellFormed(c)
    requires c.worker.CancelPending?
    ensures Books(WorkerFinish(c))
  {
    FinishKeepsBooks(c, FinishCancelled(c.r), c.worker.holding);
  }

  lemma FinishFailedKeepsControl(c: Cell)
    requires Control(c)
    requires c.worker.FailPending?
    ensures Control(WorkerFinish(c))
  {
    FinishKeepsControl(c, FinishFailed(c.r, c.worker.log), c.worker.holding);
  }

  lemma FinishFailedKeepsCounts(c: Cell)
    requires Counts(c) && Phase(c) && WellFormed(c)
    requires c.worker.FailPending?
    ensures Counts(WorkerFinish(c))
  {
    FinishKeepsCounts(c, FinishFailed(c.r, c.worker.log));
  }

  lemma FinishFailedKeepsBooks(c: Cell)
    requires Books(c) && Phase(c) && WellFormed(c)
    requires c.worker.FailPending?
    ensures Books(WorkerFinish(c))
  {
    FinishKeepsBooks(c, FinishFailed(c.r, c.worker.log), c.worker.holding);
  }

  lemma FinishUnstartedKeepsControl(c: Cell)
    requires Control(c)
    requires c.worker.StartLost?
    ensures Control(WorkerFinish(c))
  {}

  lemma FinishUnstartedKeepsBooks(c: Cell)
    requires Books(c) && Phase(c) && WellFormed(c)
    requires c.worker.StartLost?
    ensures Books(WorkerFinish(c))
  {
    if c.r.state.Queued? {
      FinishKeepsBooks(c, FinishFailed(c.r, NEVER_STARTED), false);
    }
  }

  // ---------- The scoped threads of a Batch ----------

  lemma EarlyMoveKeepsControl(c: Cell, w: nat, step: SubStep)
    requires Control(c) && SubEnabled(c, w, step) && EarlyMove(step)
    ensures Control(SubApply(c, w, step))
  {}

  lemma LateSubMoveKeepsControl(c: Cell, w: nat, step: SubStep)
    requires Control(c) && SubEnabled(c, w, step) && SubMove(step) && !EarlyMove(step)
    ensures Control(SubApply(c, w, step))
  {}

  lemma SubMoveKeepsCounts(c: Cell, w: nat, step: SubStep)
    requires Counts(c) && Phase(c) && WellFormed(c)
    requires SubEnabled(c, w, step) && SubMove(step)
    ensures Counts(SubApply(c, w, step))
  {
    MoveKeepsCounts(c, w, SubApply(c, w, step).subs[w]);
  }

  lemma SubMoveKeepsBooks(c: Cell, w: nat, step: SubStep)
    requires Books(c) && Phase(c) && WellFormed(c)
    requires SubEnabled(c, w, step) && (SubMove(step) || step.DoFetch?) && !step.DoCommit?
    ensures Books(SubApply(c, w, step))
  {
    MoveKeepsCommits(c.history, c.subs, c.r.outcomes, w, SubApply(c, w, step).subs[w]);
  }

  lemma FetchKeepsCounts(c: Cell, w: nat)
    requires Counts(c) && Phase(c) && WellFormed(c)
    requires SubEnabled(c, w, DoFetch)
    ensures Counts(SubFetch(c, w))
  {
    var n := SubFetch(c, w);
    forall i: nat
      ensures Claimed(c.begun, n.subs, c.abandoned, n.next, |c.r.models|, i)
      ensures Conserved(c.begun, n.subs, c.r.outcomes, c.discarded, i)
    {
      CountsAt(c.subs, w, n.subs[w], i);
      assert Claimed(c.begun, c.subs, c.abandoned, c.next, |c.r.models|, i);
      assert Conserved(c.begun, c.subs, c.r.outcomes, c.discarded, i);
    }
    CountsAt(c.subs, w, n.subs[w], 0);
  }

  lemma BeginKeepsControl(c: Cell, w: nat)
    requires Control(c)
    requires SubEnabled(c, w, DoBegin) && !WouldPanic(c, SubAction(w, DoBegin))
    ensures Control(SubBegin(c, w))
  {}

  /** A claimed item that is begun, or given up, still counts once. */
  lemma BeginKeepsCount(begun: seq<nat>, subs: seq<SubPc>, abandoned: seq<nat>, next: nat, count: nat,
                        outcomes: seq<Outcome>, discarded: seq<nat>, w: nat, i: nat)
    requires w < |subs| && subs[w].Begin?
    requires Claimed(begun, subs, abandoned, next, count, i) && Conserved(begun, subs, outcomes, discarded, i)
    ensures var (item, moved) := (subs[w].i, subs[w := RunItem(subs[w].i)]);
            && Claimed(begun + [item], moved, abandoned, next, count, i)
            && Conserved(begun + [item], moved, outcomes, discarded, i)
            && Busy(moved) == Busy(subs) + 1
    ensures var (item, moved) := (subs[w].i, subs[w := SubExited]);
            && Claimed(begun, moved, abandoned + [item], next, count, i)
            && Conserved(begun, moved, outcomes, discarded, i)
            && Busy(moved) == Busy(subs)
  {
    CountsAt(subs, w, RunItem(subs[w].i), i);
    CountsAt(subs, w, SubExited, i);
    OccursOnceMore(begun, subs[w].i, i);
    OccursOnceMore(abandoned, subs[w].i, i);
  }

  lemma BeginTakesBinding(bindings: seq<bool>, begun: seq<nat>, item: nat, i: nat)
    requires item < |bindings| && BindingHeld(bindings, begun, i)
    ensures BindingHeld(bindings[item := false], begun + [item], i)
  {
    OccursOnceMore(begun, item, i);
  }

  lemma BegunKeepsCounts(c: Cell, w: nat)
    requires Counts(c) && w < |c.subs| && c.subs[w].Begin? && CanBegin(c.r)
    requires c.subs[w].i < |c.r.bindings| && c.r.shape.Batch?
    ensures CountsOf(c.begun + [c.subs[w].i], c.subs[w := RunItem(c.subs[w].i)], c.abandoned, c.discarded, c.next,
                     BeginItem(c.r, c.subs[w].i))
  {
    var item := c.subs[w].i;
    var r, begun, moved := BeginItem(c.r, item), c.begun + [item], c.subs[w := RunItem(item)];
    forall i: nat
      ensures Claimed(begun, moved, c.abandoned, c.next, |r.models|, i)
      ensures Conserved(begun, moved, r.outcomes, c.discarded, i)
      ensures BindingHeld(r.bindings, begun, i)
      ensures Busy(moved) == Busy(c.subs) + 1
    {
      assert Claimed(c.begun, c.subs, c.abandoned, c.next, |c.r.models|, i);
      assert Conserved(c.begun, c.subs, c.r.outcomes, c.discarded, i);
      BeginKeepsCount(c.begun, c.subs, c.abandoned, c.next, |c.r.models|, c.r.outcomes, c.discarded, w, i);
      assert BindingHeld(c.r.bindings, c.begun, i);
      BeginTakesBinding(c.r.bindings, c.begun, item, i);
    }
    assert BindingHeld(r.bindings, begun, 0);
  }

  lemma GivenUpKeepsCounts(c: Cell, w: nat)
    requires Counts(c) && w < |c.subs| && c.subs[w].Begin? && c.r.cancelled
    ensures CountsOf(c.begun, c.subs[w := SubExited], c.abandoned + [c.subs[w].i], c.discarded, c.next, c.r)
  {
    var abandoned, moved := c.abandoned + [c.subs[w].i], c.subs[w := SubExited];
    forall i: nat
      ensures Claimed(c.begun, moved, abandoned, c.next, |c.r.models|, i)
      ensures Conserved(c.begun, moved, c.r.outcomes, c.discarded, i)
      ensures Busy(moved) == Busy(c.subs)
    {
      assert Claimed(c.begun, c.subs, c.abandoned, c.next, |c.r.models|, i);
      assert Conserved(c.begun, c.subs, c.r.outcomes, c.discarded, i);
      BeginKeepsCount(c.begun, c.subs, c.abandoned, c.next, |c.r.models|, c.r.outcomes, c.discarded, w, i);
    }
    assert Claimed(c.begun, moved, abandoned, c.next, |c.r.models|, 0);
  }

  lemma BeginKeepsCounts(c: Cell, w: nat)
    requires Counts(c) && Phase(c) && WellFormed(c)
    requires SubEnabled(c, w, DoBegin) && !WouldPanic(c, SubAction(w, DoBegin))
    ensures Counts(SubBegin(c, w))
  {
    if c.present && CanBegin(c.r) {
      BegunKeepsCounts(c, w);
    } else {
      GivenUpKeepsCounts(c, w);
    }
  }

  lemma BeginKeepsBooks(c: Cell, w: nat)
    requires Books(c) && Phase(c) && WellFormed(c)
    requires SubEnabled(c, w, DoBegin) && !WouldPanic(c, SubAction(w, DoBegin))
    ensures Books(SubBegin(c, w))
  {
    var n := SubBegin(c, w);
    MoveKeepsCommits(c.history, c.subs, c.r.outcomes, w, n.subs[w]);
    if CanBegin(c.r) {
      CancelHistoryGoesOn(c.history, ItemBegun(c.subs[w].i), c.r.cancelled,
                          c.r.state, c.r.state, c.r.cancellationFailure, c.r.cancellationFailure);
    }
  }

  lemma ItemCommitKeepsBooks(c: Cell, w: nat, committed: CommitResult)
    requires Books(c) && Phase(c) && WellFormed(c)
    requires SubEnabled(c, w, DoCommit(committed))
    ensures Books(SubCommit(c, w, committed))
  {
    var pc, n := c.subs[w], SubCommit(c, w, committed);
    var e := CommitCalled(pc.i, pc.artifacts, committed.Committed?);
    CancelHistoryGoesOn(c.history, e, c.r.cancelled,
                        c.r.state, c.r.state, c.r.cancellationFailure, c.r.cancellationFailure);
    CommitIsCredited(c.history, c.subs, c.r.outcomes, w, n.subs[w], e);
  }

  lemma SettleKeepsControl(c: Cell, w: nat)
    requires Control(c)
    requires SubEnabled(c, w, DoSettle) && !WouldPanic(c, SubAction(w, DoSettle))
    ensures Control(SubSettle(c, w))
  {
    var n := SubSettle(c, w);
    assert Locks(n.worker, n.subs, n.holder, n.cancels);
    assert Follows(c.observed[|c.observed| - 1], n.observed[|c.observed|]);
  }

  lemma SettleKeepsCounts(c: Cell, w: nat)
    requires Counts(c) && Phase(c) && WellFormed(c)
    requires SubEnabled(c, w, DoSettle) && !WouldPanic(c, SubAction(w, DoSettle))
    ensures Counts(SubSettle(c, w))
  {
    var n := SubSettle(c, w);
    forall i: nat
      ensures Claimed(n.begun, n.subs, n.abandoned, n.next, |n.r.models|, i)
      ensures Conserved(n.begun, n.subs, n.r.outcomes, n.discarded, i)
    {
      SettleKeepsCount(c, w, i);
    }
    SettleKeepsCount(c, w, 0);
    SettledOnceMore(c, w, 0);
  }

  lemma SettleKeepsBooks(c: Cell, w: nat)
    requires Books(c) && Phase(c) && WellFormed(c)
    requires SubEnabled(c, w, DoSettle) && !WouldPanic(c, SubAction(w, DoSettle))
    ensures Books(SubSettle(c, w))
  {
    var pc, n := c.subs[w], SubSettle(c, w);
    CancelHistoryGoesOn(c.history, ItemSettled(pc.i, pc.result), c.r.cancelled,
                        c.r.state, c.r.state, c.r.cancellationFailure, n.r.cancellationFailure);
    SettleKeepsCommits(c, w);
  }

  // ---------- Cancellers ----------

  lemma ArriveKeepsControl(c: Cell, id: nat)
    requires Control(c) && id !in c.cancels
    ensures Control(CancelGo(c, id, if c.present then WantLock else Returned(NotFound)))
  {}

  lemma CancelLockKeepsControl(c: Cell, id: nat)
    requires Control(c) && Enabled(c, CancelLock(id))
    ensures Control(CancelGo(c, id, HoldsLock).(holder := Some(CancelHolds(id))))
  {}

  lemma CancelRetainKeepsControl(c: Cell, id: nat)
    requires Control(c) && Enabled(c, CancelRetain(id))
    ensures Control(CancelGo(c, id, ReleaseCancel(c.cancels[id].reply)).(retains := c.retains + 1))
  {}

  lemma CancelReleaseKeepsControl(c: Cell, id: nat)
    requires Control(c) && Enabled(c, CancelRelease(id))
    ensures Control(CancelGo(c, id, Returned(c.cancels[id].reply)).(holder := None))
  {}

  lemma CancelQueuedKeepsControl(c: Cell, id: nat)
    requires Control(c)
    requires id in c.cancels && c.cancels[id].HoldsLock? && c.r.state.Queued?
    ensures Control(CancelRecord(c, id))
  {}

  lemma CancelQueuedKeepsCommits(c: Cell, id: nat)
    requires Books(c) && Phase(c) && WellFormed(c) && c.r.state.Queued?
    ensures var n := CancelRecord(c, id);
            CommitHistory(n) && DecisionHistory(n.history, n.worker, n.r.shape, n.r.state, AllSettled(n))
  {
    var e := CancelAnswered(Answer(SnapshotOf(Cancel(c.r))), true);
    assert FlagFoundClear !in c.history;
    if c.r.shape.Batch? {
      CommitHistoryGoesOn(c.history, e, c.subs, c.r.outcomes);
      CommitHistoryGoesOn(c.history + [e], BecameTerminal(Cancelled), c.subs, c.r.outcomes);
    }
  }

  lemma CancelQueuedKeepsBooks(c: Cell, id: nat)
    requires Books(c) && Phase(c) && WellFormed(c) && c.r.state.Queued?
    ensures Books(CancelRecord(c, id))
  {
    var e := CancelAnswered(Answer(SnapshotOf(Cancel(c.r))), true);
    CancelAnswerGoesOn(c.history, e, false, true, c.r.state, Cancelled, c.r.cancellationFailure);
    CancelHistoryGoesOn(c.history + [e], BecameTerminal(Cancelled), true, Cancelled, Cancelled,
                        c.r.cancellationFailure, c.r.cancellationFailure);
    assert TerminalHistory(c.history + [e], c.r.state);
    TerminalHistoryBegins(c.history + [e], c.r.state, Cancelled);
    CancelQueuedKeepsCommits(c, id);
  }

  lemma CancelRunningKeepsControl(c: Cell, id: nat)
    requires Control(c)
    requires id in c.cancels && c.cancels[id].HoldsLock? && c.r.state.Running?
    ensures Control(CancelRecord(c, id))
  {}

  lemma CancelRunningKeepsBooks(c: Cell, id: nat)
    requires Books(c) && Phase(c) && WellFormed(c)
    requires id in c.cancels && c.cancels[id].HoldsLock? && c.r.state.Running?
    ensures Books(CancelRecord(c, id))
  {
    var e := CancelAnswered(Answer(SnapshotOf(Cancel(c.r))), true);
    CancelAnswerGoesOn(c.history, e, false, true, c.r.state, Cancelling, c.r.cancellationFailure);
    assert TerminalHistory(c.history + [e], Cancelling);
    if c.r.shape.Batch? {
      CommitHistoryGoesOn(c.history, e, c.subs, c.r.outcomes);
    }
  }

  lemma CancelLateKeepsControl(c: Cell, id: nat)
    requires Control(c)
    requires id in c.cancels && c.cancels[id].HoldsLock? && !c.r.state.Queued? && !c.r.state.Running?
    ensures Control(CancelRecord(c, id))
  {}

  lemma CancelLateKeepsBooks(c: Cell, id: nat)
    requires Books(c) && Phase(c) && WellFormed(c)
    requires id in c.cancels && c.cancels[id].HoldsLock? && !c.r.state.Queued? && !c.r.state.Running?
    ensures Books(CancelRecord(c, id))
  {
    var e := CancelAnswered(LateReply(c), false);
    CancelAnswerGoesOn(c.history, e, c.r.cancelled, c.r.cancelled, c.r.state, c.r.state, c.r.cancellationFailure);
    assert TerminalHistory(c.history + [e], c.r.state);
    if c.r.shape.Batch? {
      CommitHistoryGoesOn(c.history, e, c.subs, c.r.outcomes);
    }
  }

  // ---------- All actions ----------

  lemma FinishKeepsInv(c: Cell)
    requires Inv(c) && Enabled(c, FinishStep)
    ensures Inv(WorkerFinish(c))
  {
    if c.worker.CancelPending? {
      FinishCancelledKeepsControl(c); FinishCancelledKeepsCounts(c); FinishCancelledKeepsBooks(c);
    } else if c.worker.FailPending? {
      FinishFailedKeepsControl(c); FinishFailedKeepsCounts(c); FinishFailedKeepsBooks(c);
    } else {
      FinishUnstartedKeepsControl(c); FinishUnstartedKeepsCounts(c); FinishUnstartedKeepsBooks(c);
    }
  }

  lemma MoveKeepsInv(c: Cell, a: Action)
    requires Inv(c) && Enabled(c, a) && !WouldPanic(c, a) && (SingleMove(a) || LateMove(a))
    ensures Inv(Apply(c, a))
  {
    if SingleMove(a) {
      SingleMoveKeepsControl(c, a); SingleMoveKeepsCounts(c, a); SingleMoveKeepsBooks(c, a);
    } else if a.JoinStep? || a.ReadFailureStep? {
      JoinedKeepsControl(c, a); JoinedKeepsCountsBooks(c, a);
    } else if a.RetainStep? {
      RetainKeepsControl(c); RetainKeepsCountsBooks(c);
    } else {
      UnlockKeepsControl(c); UnlockKeepsCountsBooks(c);
    }
  }

  lemma ReadBatchKeepsInv(c: Cell)
    requires Inv(c) && c.worker.ReadBatch?
    ensures Inv(WorkerReadBatch(c))
  {
    ReadBatchKeepsControl(c);
    ReadBatchKeepsCounts(c);
    LaunchKeepsBooks(c, ReadBatchStep);
  }

  lemma DecideKeepsInv(c: Cell)
    requires Inv(c) && c.worker.DecideBatch?
    ensures Inv(WorkerDecide(c))
  {
    if !c.r.cancelled {
      UncancelledIsSettled(c);
    }
    DecideKeepsControl(c);
    WorkerKeepsCounts(c, DecideStep);
    DecideKeepsBooks(c);
  }

  lemma SucceedBatchKeepsInv(c: Cell)
    requires Inv(c) && c.worker.SucceedBatchPc?
    ensures Inv(Finish(c, SucceedBatch(c.r), false))
  {
    SucceedBatchKeepsControl(c);
    WorkerKeepsCounts(c, SucceedBatchStep);
    SucceedBatchKeepsBooks(c);
  }

  lemma ExecuteKeepsInv(c: Cell)
    requires Inv(c) && c.worker.AwaitStart?
    ensures Inv(WorkerExecute(c))
  {
    ExecuteKeepsControl(c);
    WorkerKeepsCounts(c, Execute);
    LaunchKeepsBooks(c, Execute);
  }

  lemma CommitKeepsInv(c: Cell, committed: CommitResult)
    requires Inv(c) && c.worker.CommitSingle?
    ensures Inv(WorkerCommit(c, committed))
  {
    CommitKeepsControl(c, committed);
    WorkerKeepsCounts(c, CommitStep(committed));
    CommitKeepsBooks(c, committed);
  }

  lemma WriteKeepsInv(c: Cell)
    requires Inv(c) && c.worker.WriteSingle?
    ensures Inv(WorkerWrite(c))
  {
    WriteKeepsControl(c);
    WorkerKeepsCounts(c, WriteStep);
    WriteKeepsBooks(c);
  }

  lemma WorkerActionKeepsInv(c: Cell, a: Action)
    requires Inv(c) && Enabled(c, a) && !WouldPanic(c, a)
    requires !SingleMove(a) && !LateMove(a) && !CancelAction(a) && !a.SubAction?
    ensures Inv(Apply(c, a))
  {
    match a
    case Execute => ExecuteKeepsInv(c);
    case CommitStep(committed) => CommitKeepsInv(c, committed);
    case WriteStep => WriteKeepsInv(c);
    case FinishStep => FinishKeepsInv(c);
    case ReadBatchStep => ReadBatchKeepsInv(c);
    case DecideStep => DecideKeepsInv(c);
    case SucceedBatchStep => SucceedBatchKeepsInv(c);
  }

  lemma SubMoveKeepsInv(c: Cell, w: nat, step: SubStep)
    requires Inv(c) && SubEnabled(c, w, step) && SubMove(step)
    ensures Inv(SubApply(c, w, step))
  {
    if EarlyMove(step) {
      EarlyMoveKeepsControl(c, w, step);
    } else {
      LateSubMoveKeepsControl(c, w, step);
    }
    SubMoveKeepsCounts(c, w, step);
    if step.DoCommit? {
      ItemCommitKeepsBooks(c, w, step.committed);
    } else {
      SubMoveKeepsBooks(c, w, step);
    }
  }

  lemma FetchKeepsInv(c: Cell, w: nat)
    requires Inv(c) && SubEnabled(c, w, DoFetch)
    ensures Inv(SubFetch(c, w))
  {
    EarlyMoveKeepsControl(c, w, DoFetch);
    FetchKeepsCounts(c, w);
    SubMoveKeepsBooks(c, w, DoFetch);
  }

  lemma BeginKeepsInv(c: Cell, w: nat)
    requires Inv(c) && SubEnabled(c, w, DoBegin) && !WouldPanic(c, SubAction(w, DoBegin))
    ensures Inv(SubBegin(c, w))
  {
    BeginKeepsControl(c, w);
    BeginKeepsCounts(c, w);
    BeginKeepsBooks(c, w);
  }

  lemma SettleKeepsInv(c: Cell, w: nat)
    requires Inv(c) && SubEnabled(c, w, DoSettle) && !WouldPanic(c, SubAction(w, DoSettle))
    ensures Inv(SubSettle(c, w))
  {
    SettleKeepsControl(c, w);
    SettleKeepsCounts(c, w);
    SettleKeepsBooks(c, w);
  }

  lemma SubActionKeepsInv(c: Cell, w: nat, step: SubStep)
    requires Inv(c) && SubEnabled(c, w, step) && !WouldPanic(c, SubAction(w, step))
    ensures Inv(SubApply(c, w, step))
  {
    match step
    case DoFetch => FetchKeepsInv(c, w);
    case DoBegin => BeginKeepsInv(c, w);
    case DoSettle => SettleKeepsInv(c, w);
    case _ => SubMoveKeepsInv(c, w, step);
  }

  lemma CancelRecordKeepsInv(c: Cell, id: nat)
    requires Inv(c) && Enabled(c, CancelWrite(id))
    ensures Inv(CancelRecord(c, id))
  {
    CancelRecordKeepsCounts(c, id);
    if c.r.state.Queued? {
      CancelQueuedKeepsControl(c, id); CancelQueuedKeepsBooks(c, id);
    } else if c.r.state.Running? {
      CancelRunningKeepsControl(c, id); CancelRunningKeepsBooks(c, id);
    } else {
      CancelLateKeepsControl(c, id); CancelLateKeepsBooks(c, id);
    }
  }

  lemma CancelMoveKeepsInv(c: Cell, a: Action)
    requires Inv(c) && Enabled(c, a) && CancelMove(a)
    ensures Inv(Apply(c, a))
  {
    CancelMoveKeepsCountsBooks(c, Apply(c, a));
    match a
    case CancelArrive(id) => ArriveKeepsControl(c, id);
    case CancelLock(id) => CancelLockKeepsControl(c, id);
    case CancelRetain(id) => CancelRetainKeepsControl(c, id);
    case CancelRelease(id) => CancelReleaseKeepsControl(c, id);
  }

  /** Every enabled action that raises no panic keeps the invariant. NoPanic says none does. */
  lemma ActionKeepsInv(c: Cell, a: Action)
    requires Inv(c) && Enabled(c, a) && !WouldPanic(c, a)
    ensures Inv(Apply(c, a))
  {
    if a.SubAction? {
      SubActionKeepsInv(c, a.w, a.step);
    } else if a.CancelWrite? {
      CancelRecordKeepsInv(c, a.c);
    } else if CancelMove(a) {
      CancelMoveKeepsInv(c, a);
    } else if SingleMove(a) || LateMove(a) {
      MoveKeepsInv(c, a);
    } else {
      WorkerActionKeepsInv(c, a);
    }
  }

  /** The registry drops a record only after it was retained. */
  lemma EvictionKeepsInv(c: Cell)
    requires Inv(c) && c.retains == 1
    ensures Inv(c.(present := false))
  {}
}

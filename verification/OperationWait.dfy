/** `wait`: a command polls one Operation, forwards the outcomes it has not forwarded yet, and
    returns at the first terminal snapshot. The polls are critical sections of the state lock, so
    they see states of one run, in order; between two of them any number of steps may happen. */
module OperationWait {
  import opened Options
  import opened OperationRecord
  import opened OperationProtocol
  import opened OperationInvariant
  import opened OperationRegistry
  import OperationPreservation
  import OperationTheorems
  import ObserverDispatch

  /** One turn of the loop: whether the caller still listens, and what the registry then holds. */
  datatype Poll = Poll(observing: bool, record: Option<Record>)

  datatype WaitEnd =
    | WaitNotFound
    | WaitDisconnected
    | WaitTerminal(snapshot: Snapshot)
    | StillWaiting

  predicate Growing(polls: seq<Poll>) {
    forall i, j :: 0 <= i <= j < |polls| && polls[i].record.Some? && polls[j].record.Some? ==>
      polls[i].record.value.outcomes <= polls[j].record.value.outcomes
  }

  /** The loop goes past this poll if every callback lets it. */
  predicate Continues(poll: Poll) {
    poll.observing && poll.record.Some? && !poll.record.value.state.IsTerminal()
  }

  /** The outcomes forwarded before poll `k`. */
  function Forwarded(polls: seq<Poll>, k: nat): seq<Outcome>
    requires k <= |polls| && (k > 0 ==> polls[k - 1].record.Some?)
  {
    if k == 0 then [] else polls[k - 1].record.value.outcomes
  }

  /** The loop gets past the first `k` polls: each continues, and every callback they cause accepts. */
  predicate Passed(polls: seq<Poll>, k: nat, onObserved: Snapshot -> bool, onOutcome: Outcome -> bool) {
    && k <= |polls|
    && (forall m :: 0 <= m < k ==> Continues(polls[m]))
    && (k > 0 ==> onObserved(SnapshotOf(polls[0].record.value)))
    && (k > 0 ==> forall o :: o in polls[k - 1].record.value.outcomes ==> onOutcome(o))
  }

  // Poll `k` found a record, and the caller was greeted with it if it had to be.
  predicate Found(polls: seq<Poll>, k: nat, onObserved: Snapshot -> bool) {
    && k < |polls| && polls[k].observing && polls[k].record.Some?
    && (k == 0 && !polls[0].record.value.state.IsTerminal() ==> onObserved(SnapshotOf(polls[0].record.value)))
  }

  // The outcome that poll `k` forwards last is the first one that is refused.
  predicate RefusedAt(polls: seq<Poll>, k: nat, onOutcome: Outcome -> bool, delivered: seq<Outcome>)
    requires k < |polls| && polls[k].record.Some? && (k > 0 ==> polls[k - 1].record.Some?)
  {
    var outcomes := polls[k].record.value.outcomes;
    && |Forwarded(polls, k)| < |delivered| && delivered <= outcomes
    && !onOutcome(outcomes[|delivered| - 1])
    && forall m :: 0 <= m < |delivered| - 1 ==> onOutcome(outcomes[m])
  }

  /** The loop returns `end` at poll `k`, with `delivered` forwarded in all. */
  predicate ReturnsAt(polls: seq<Poll>, k: nat, onObserved: Snapshot -> bool, onOutcome: Outcome -> bool,
                      end: WaitEnd, delivered: seq<Outcome>)
  {
    && k < |polls| && Passed(polls, k, onObserved, onOutcome)
    && match end
       case StillWaiting => false
       case WaitNotFound => polls[k].observing && polls[k].record.None? && delivered == Forwarded(polls, k)
       case WaitTerminal(snapshot) =>
         && Found(polls, k, onObserved) && polls[k].record.value.state.IsTerminal()
         && snapshot == SnapshotOf(polls[k].record.value) && delivered == polls[k].record.value.outcomes
         && forall o :: o in delivered ==> onOutcome(o)
       case WaitDisconnected =>
         || (!polls[k].observing && delivered == Forwarded(polls, k))
         || (polls[k].observing && polls[k].record.Some? && !Found(polls, k, onObserved) && delivered == [])
         || (Found(polls, k, onObserved) && RefusedAt(polls, k, onOutcome, delivered))
  }

  /** How the loop comes out after these polls. */
  ghost predicate ComesOut(polls: seq<Poll>, onObserved: Snapshot -> bool, onOutcome: Outcome -> bool,
                           end: WaitEnd, delivered: seq<Outcome>)
  {
    if end.StillWaiting? then
      Passed(polls, |polls|, onObserved, onOutcome) && delivered == Forwarded(polls, |polls|)
    else
      exists k: nat :: ReturnsAt(polls, k, onObserved, onOutcome, end, delivered)
  }

  /** What `on_observed` is called with: the first snapshot, if it is active. */
  function Greeting(polls: seq<Poll>): seq<Snapshot> {
    if polls != [] && Continues(polls[0]) then [SnapshotOf(polls[0].record.value)] else []
  }

  // The inner loop: outcomes are forwarded until one is refused.
  method Forward(pending: seq<Outcome>, onOutcome: Outcome -> bool) returns (count: nat, refused: bool)
    ensures count <= |pending| && (!refused ==> count == |pending|)
    ensures refused ==> count > 0 && !onOutcome(pending[count - 1])
    ensures forall m :: 0 <= m < (if refused then count - 1 else count) ==> onOutcome(pending[m])
  {
    for k := 0 to |pending|
      invariant forall m :: 0 <= m < k ==> onOutcome(pending[m])
    {
      if !onOutcome(pending[k]) {
        return k + 1, true;
      }
    }
    return |pending|, false;
  }

  method Wait(polls: seq<Poll>, onObserved: Snapshot -> bool, onOutcome: Outcome -> bool)
    returns (end: WaitEnd, delivered: seq<Outcome>, observed: seq<Snapshot>)
    requires Growing(polls)
    ensures ComesOut(polls, onObserved, onOutcome, end, delivered)
    ensures observed == Greeting(polls)
  {
    delivered, observed := [], [];
    var first := true;
    for turn := 0 to |polls|
      invariant Passed(polls, turn, onObserved, onOutcome) && delivered == Forwarded(polls, turn)
      invariant first <==> turn == 0
      invariant observed == if first then [] else Greeting(polls)
    {
      var poll := polls[turn];
      if !poll.observing {
        assert ReturnsAt(polls, turn, onObserved, onOutcome, WaitDisconnected, delivered);
        return WaitDisconnected, delivered, observed;
      }
      if poll.record.None? {
        assert ReturnsAt(polls, turn, onObserved, onOutcome, WaitNotFound, delivered);
        return WaitNotFound, delivered, observed;
      }
      var record := poll.record.value;
      assert delivered <= record.outcomes;
      var pending := record.outcomes[|delivered|..];
      if first {
        first := false;
        if !record.state.IsTerminal() {
          observed := [SnapshotOf(record)];
          if !onObserved(SnapshotOf(record)) {
            assert ReturnsAt(polls, turn, onObserved, onOutcome, WaitDisconnected, delivered);
            return WaitDisconnected, delivered, observed;
          }
        }
      }
      assert Found(polls, turn, onObserved);
      var count, refused := Forward(pending, onOutcome);
      delivered := delivered + pending[..count];
      assert delivered == record.outcomes[..|delivered|];
      if refused {
        assert record.outcomes[|delivered| - 1] == pending[count - 1];
        assert RefusedAt(polls, turn, onOutcome, delivered);
        assert ReturnsAt(polls, turn, onObserved, onOutcome, WaitDisconnected, delivered);
        return WaitDisconnected, delivered, observed;
      }
      assert delivered == record.outcomes;
      if record.state.IsTerminal() {
        assert ReturnsAt(polls, turn, onObserved, onOutcome, WaitTerminal(SnapshotOf(record)), delivered);
        return WaitTerminal(SnapshotOf(record)), delivered, observed;
      }
    }
    end := StillWaiting;
  }

  // Where the loop returns it does not get past.
  lemma ReturnedIsNotPassed(polls: seq<Poll>, k: nat, m: nat, onObserved: Snapshot -> bool, onOutcome: Outcome -> bool,
                            end: WaitEnd, delivered: seq<Outcome>)
    requires Growing(polls) && ReturnsAt(polls, k, onObserved, onOutcome, end, delivered) && k < m
    requires m <= |polls| && forall i :: 0 <= i < m ==> Continues(polls[i])
    requires Continues(polls[0]) && onObserved(SnapshotOf(polls[0].record.value))
    ensures end.WaitDisconnected? && polls[m - 1].record.Some?
    ensures exists o :: o in polls[m - 1].record.value.outcomes && !onOutcome(o)
  {
    assert Continues(polls[k]) && Continues(polls[m - 1]);
    var refused := polls[k].record.value.outcomes[|delivered| - 1];
    assert polls[k].record.value.outcomes <= polls[m - 1].record.value.outcomes;
    assert refused == polls[m - 1].record.value.outcomes[|delivered| - 1];
  }

  /** The polls and the answers of the callbacks leave the loop one way to come out. */
  lemma WaitIsDetermined(polls: seq<Poll>, onObserved: Snapshot -> bool, onOutcome: Outcome -> bool,
                         end: WaitEnd, delivered: seq<Outcome>, end': WaitEnd, delivered': seq<Outcome>)
    requires Growing(polls)
    requires ComesOut(polls, onObserved, onOutcome, end, delivered)
    requires ComesOut(polls, onObserved, onOutcome, end', delivered')
    ensures end == end' && delivered == delivered'
  {
    var n := |polls|;
    var k: nat := if end.StillWaiting? then n
                  else var k: nat :| ReturnsAt(polls, k, onObserved, onOutcome, end, delivered); k;
    var k': nat := if end'.StillWaiting? then n
                   else var k: nat :| ReturnsAt(polls, k, onObserved, onOutcome, end', delivered'); k;
    if k < k' {
      ReturnedIsNotPassed(polls, k, k', onObserved, onOutcome, end, delivered);
    } else if k' < k {
      ReturnedIsNotPassed(polls, k', k, onObserved, onOutcome, end', delivered');
    } else if k < n {
      SameReturn(polls, k, onObserved, onOutcome, end, delivered, end', delivered');
    }
  }

  lemma SameReturn(polls: seq<Poll>, k: nat, onObserved: Snapshot -> bool, onOutcome: Outcome -> bool,
                   end: WaitEnd, delivered: seq<Outcome>, end': WaitEnd, delivered': seq<Outcome>)
    requires ReturnsAt(polls, k, onObserved, onOutcome, end, delivered)
    requires ReturnsAt(polls, k, onObserved, onOutcome, end', delivered')
    ensures end == end' && delivered == delivered'
  {
    if Found(polls, k, onObserved) {
      var outcomes := polls[k].record.value.outcomes;
      if end.WaitDisconnected? {
        assert outcomes[|delivered| - 1] in outcomes;
      }
      if end'.WaitDisconnected? {
        assert outcomes[|delivered'| - 1] in outcomes;
      }
    }
  }

  // ---------- The polls of a run grow ----------

  /** A snapshot without its diagnostics. */
  function Undiagnosed(s: Snapshot): Snapshot {
    s.(provenanceFailures := 0, cleanupFailures := 0)
  }

  predicate SameDiagnostics(r: Record, n: Record) {
    r.provenanceFailures == n.provenanceFailures && r.cleanupFailures == n.cleanupFailures
  }

  /** What a record can become: outcomes are only added, warnings only counted, and what a waiter is
      shown does not change unless the change counter does, but for the diagnostics. */
  predicate Later(r: Record, n: Record) {
    && r.outcomes <= n.outcomes
    && r.change <= n.change
    && r.provenanceFailures <= n.provenanceFailures && r.cleanupFailures <= n.cleanupFailures
    && (r.change == n.change ==> Undiagnosed(SnapshotOf(r)) == Undiagnosed(SnapshotOf(n)) && r.outcomes == n.outcomes)
  }

  /** A thread of a Batch records the warnings of its commit. */
  predicate Warns(c: Cell, a: Action) {
    && a.SubAction? && a.step.DoWarn? && SubEnabled(c, a.w, DoWarn)
    && c.present && c.subs[a.w].warnings != NO_WARNINGS
  }

  // While the change counter stands still, exactly the warnings of a Batch change the diagnostics.
  predicate LaterBy(r: Record, n: Record, warned: bool) {
    Later(r, n) && (r.change == n.change ==> (SameDiagnostics(r, n) <==> !warned))
  }

  lemma SettleIsLater(c: Cell, w: nat)
    requires SubEnabled(c, w, DoSettle) && !WouldPanic(c, SubAction(w, DoSettle))
    ensures LaterBy(c.r, SubSettle(c, w).r, false)
  {}

  lemma SubActionIsLater(c: Cell, w: nat, step: SubStep)
    requires SubEnabled(c, w, step) && !WouldPanic(c, SubAction(w, step))
    ensures LaterBy(c.r, SubApply(c, w, step).r, Warns(c, SubAction(w, step)))
  {
    if step.DoSettle? {
      SettleIsLater(c, w);
    }
  }

  lemma CancelRecordIsLater(c: Cell, id: nat)
    ensures LaterBy(c.r, CancelRecord(c, id).r, false)
  {}

  lemma FinishIsLater(c: Cell)
    ensures LaterBy(c.r, WorkerFinish(c).r, false)
    ensures LaterBy(c.r, Finish(c, SucceedBatch(c.r), false).r, false)
  {}

  lemma WorkerActionIsLater(c: Cell, a: Action)
    requires Enabled(c, a) && !WouldPanic(c, a) && !a.SubAction?
    requires !a.CancelWrite? && !a.FinishStep? && !a.SucceedBatchStep?
    ensures LaterBy(c.r, Apply(c, a).r, false)
  {}

  lemma ActionIsLater(c: Cell, a: Action)
    requires Enabled(c, a) && !WouldPanic(c, a)
    ensures LaterBy(c.r, Apply(c, a).r, Warns(c, a))
  {
    if a.SubAction? {
      SubActionIsLater(c, a.w, a.step);
    } else if a.CancelWrite? {
      CancelRecordIsLater(c, a.c);
    } else if a.FinishStep? || a.SucceedBatchStep? {
      FinishIsLater(c);
    } else {
      WorkerActionIsLater(c, a);
    }
  }

  predicate WarnsAbout(s: Registry, step: Step, id: OpId) {
    step.Act? && step.id == id && id in s.cells && Warns(s.cells[id], step.action)
  }

  lemma StepIsLater(s: Registry, step: Step, id: OpId)
    requires CanStep(s, step) && id in s.cells
    ensures id in TakeStep(s, step).cells
    ensures LaterBy(s.cells[id].r, TakeStep(s, step).cells[id].r, WarnsAbout(s, step, id))
  {
    if step.Act? && step.id == id {
      ActionIsLater(s.cells[id], step.action);
    }
  }

  /** Whether a warning of `id` was recorded between two moments of a run. */
  ghost predicate WarnedBetween(run: seq<Registry>, steps: seq<Step>, id: OpId, i: nat, j: nat)
    requires |run| == |steps| + 1 && j < |run|
  {
    exists k :: i <= k < j && WarnsAbout(run[k], steps[k], id)
  }

  lemma WarnedUpTo(run: seq<Registry>, steps: seq<Step>, id: OpId, i: nat, j: nat)
    requires |run| == |steps| + 1 && i < j < |run|
    ensures WarnedBetween(run, steps, id, i, j)
       <==> WarnedBetween(run, steps, id, i, j - 1) || WarnsAbout(run[j - 1], steps[j - 1], id)
  {}

  lemma {:induction false} RunIsLater(run: seq<Registry>, steps: seq<Step>, id: OpId, i: nat, j: nat)
    requires IsRun(run, steps) && i <= j < |run| && id in run[i].cells
    ensures id in run[j].cells && LaterBy(run[i].cells[id].r, run[j].cells[id].r, WarnedBetween(run, steps, id, i, j))
  {
    if i == j {
    } else {
      RunIsLater(run, steps, id, i, j - 1);
      StepIsLater(run[j - 1], steps[j - 1], id);
      WarnedUpTo(run, steps, id, i, j);
    }
  }

  /** The condition under which wait_for_change goes on sleeping. */
  predicate Sleeps(record: Option<Record>, change: nat) {
    record.Some? && record.value.change == change && !record.value.state.IsTerminal()
  }

  /** A waiter misses nothing but diagnostics: while it sleeps on the change it polled at moment `i`, the
      record has no outcome that was not forwarded and shows what it showed then, except that its
      diagnostics differ exactly when the warnings of a Batch item's commit were recorded in between. */
  lemma SleepMissesNothing(run: seq<Registry>, steps: seq<Step>, id: OpId, i: nat, j: nat)
    requires IsRun(run, steps) && i <= j < |run| && id in run[i].cells
    requires Sleeps(Lookup(run[j], id), run[i].cells[id].r.change)
    ensures run[j].cells[id].r.outcomes == run[i].cells[id].r.outcomes
    ensures Undiagnosed(SnapshotOf(run[j].cells[id].r)) == Undiagnosed(SnapshotOf(run[i].cells[id].r))
    ensures SnapshotOf(run[j].cells[id].r) == SnapshotOf(run[i].cells[id].r) <==> !WarnedBetween(run, steps, id, i, j)
  {
    RunIsLater(run, steps, id, i, j);
    SnapshotParts(run[i].cells[id].r, run[j].cells[id].r);
  }

  lemma SnapshotParts(r: Record, n: Record)
    ensures SnapshotOf(r) == SnapshotOf(n) <==>
                Undiagnosed(SnapshotOf(r)) == Undiagnosed(SnapshotOf(n)) && SameDiagnostics(r, n)
  {}

  /** It happens: the commit of a Batch's only item warns, and a waiter that polled before sleeps on. */
  lemma WarningIsMissed(id: OpId, model: string, artifacts: seq<Artifact>) returns (before: Registry, after: Registry)
    ensures Reachable(before) && id in before.cells
    ensures CanStep(before, Act(id, SubAction(0, DoWarn))) && after == TakeStep(before, Act(id, SubAction(0, DoWarn)))
    ensures id in after.cells && Sleeps(Lookup(after, id), before.cells[id].r.change)
    ensures SnapshotOf(after.cells[id].r) != SnapshotOf(before.cells[id].r)
  {
    before := OperationTheorems.OneItemBegun(id, model);
    before := OperationTheorems.ActFurther(before, id, SubAction(0, DoRun(Staged(artifacts))));
    before := OperationTheorems.ActFurther(before, id, SubAction(0, DoLock));
    before := OperationTheorems.ActFurther(before, id, SubAction(0, DoCheck));
    before := OperationTheorems.ActFurther(before, id, SubAction(0, DoCommit(Committed(CommitWarnings(1, 0)))));
    after := TakeStep(before, Act(id, SubAction(0, DoWarn)));
  }

  lemma {:induction false} RunStaysTerminal(run: seq<Registry>, steps: seq<Step>, id: OpId, i: nat, j: nat)
    requires IsRun(run, steps) && i <= j < |run| && id in run[i].cells && run[i].cells[id].r.state.IsTerminal()
    ensures id in run[j].cells && run[j].cells[id].r == run[i].cells[id].r
  {
    if i == j {
    } else {
      RunStaysTerminal(run, steps, id, i, j - 1);
      PrefixReachable(run, steps, j - 1);
      OperationTheorems.TerminalIsAbsorbing(run[j - 1], steps[j - 1], id);
    }
  }

  lemma PrefixReachable(run: seq<Registry>, steps: seq<Step>, k: nat)
    requires IsRun(run, steps) && k < |run|
    ensures Reachable(run[k])
  {
    assert IsRun(run[..k + 1], steps[..k]);
    assert run[..k + 1][|run[..k + 1]| - 1] == run[k];
  }

  function Lookup(s: Registry, id: OpId): Option<Record> {
    if id in s.cells && s.cells[id].present then Some(s.cells[id].r) else None
  }

  /** The polls of `id` at the given moments of a run. */
  ghost predicate PollsOf(polls: seq<Poll>, run: seq<Registry>, id: OpId, times: seq<nat>) {
    && |polls| == |times|
    && (forall k :: 0 <= k < |times| ==> times[k] < |run| && polls[k].record == Lookup(run[times[k]], id))
    && (forall i, j :: 0 <= i <= j < |times| ==> times[i] <= times[j])
  }

  /** Wait never asks for outcomes a record no longer has. */
  lemma PollsGrow(polls: seq<Poll>, run: seq<Registry>, steps: seq<Step>, id: OpId, times: seq<nat>)
    requires IsRun(run, steps) && PollsOf(polls, run, id, times)
    ensures Growing(polls)
  {
    forall i, j | 0 <= i <= j < |polls| && polls[i].record.Some? && polls[j].record.Some?
      ensures polls[i].record.value.outcomes <= polls[j].record.value.outcomes
    {
      RunIsLater(run, steps, id, times[i], times[j]);
    }
  }

  /** When `wait` returns a terminal snapshot, it has forwarded exactly that Operation's outcomes, in
      settlement order, once each, as many as the snapshot counts, and no later state of the run has any
      others. The polls are those of any run, at any moments, and the ending is one that Wait promises. */
  lemma WaitDeliversEverything(polls: seq<Poll>, run: seq<Registry>, steps: seq<Step>, id: OpId, times: seq<nat>,
                               onObserved: Snapshot -> bool, onOutcome: Outcome -> bool,
                               snapshot: Snapshot, delivered: seq<Outcome>, later: nat)
    requires IsRun(run, steps) && PollsOf(polls, run, id, times)
    requires ComesOut(polls, onObserved, onOutcome, WaitTerminal(snapshot), delivered)
    requires later < |run| && forall k :: 0 <= k < |times| ==> times[k] <= later
    ensures id in run[later].cells && delivered == run[later].cells[id].r.outcomes
    ensures snapshot == SnapshotOf(run[later].cells[id].r)
    ensures |delivered| == snapshot.succeeded + snapshot.failed
    ensures forall i: nat :: OutcomeCount(delivered, i) <= 1
  {
    var k: nat :| ReturnsAt(polls, k, onObserved, onOutcome, WaitTerminal(snapshot), delivered);
    RunStaysTerminal(run, steps, id, times[k], later);
    PrefixReachable(run, steps, times[k]);
    OperationTheorems.BatchConservation(run[times[k]], id, 0);
    forall i: nat
      ensures OutcomeCount(delivered, i) <= 1
    {
      OperationTheorems.BatchConservation(run[times[k]], id, i);
    }
  }
}

/** How the fields of ModelOperationService stand for a state of the registry, and what a step of the
    registry is to them. */
module OperationRefinement {
  import opened Options
  import opened OperationRecord
  import opened OperationProtocol
  import opened OperationRegistry
  import OperationTheorems

  datatype Observation = Observation(revision: nat, observed: bool, id: OpId, snapshot: Snapshot)

  /** The records the registry still holds. */
  function Present(cells: map<OpId, Cell>): map<OpId, Record> {
    map id | id in cells && cells[id].present :: cells[id].r
  }

  /** The observation a step prepared, if it did. */
  function Prepared(s: Registry, t: Registry, installed: bool): Option<Observation> {
    if |t.prepared| > |s.prepared| then
      var (id, snapshot) := t.prepared[|t.prepared| - 1];
      Some(Observation(|t.prepared|, installed, id, snapshot))
    else None
  }

  /** In a reachable registry the thread that runs `id` has come to action `a`. */
  ghost predicate Due(s: Registry, id: OpId, a: Action) {
    Reachable(s) && id in s.cells && Enabled(s.cells[id], a)
  }

  /** What is due is no panic, so it is a step. If it retains nothing, it is to the fields a record
      rewritten, if the record is still held, and at most one observation of it. */
  lemma ActionIsStep(s: Registry, id: OpId, a: Action)
    requires Due(s, id, a) && !Retains(a)
    ensures CanStep(s, Act(id, a))
    ensures var (c, n, t) := (s.cells[id], Apply(s.cells[id], a), TakeStep(s, Act(id, a)));
            && t.terminalOrder == s.terminalOrder && t.nextSequence == s.nextSequence
            && Present(t.cells) == (if c.present then Present(s.cells)[id := n.r] else Present(s.cells))
            && t.prepared == s.prepared + NewObservations(id, c, n)
  {
    OperationTheorems.NeverPanics(s, id, a);
    ActionFrame(s.cells[id], a);
  }

  lemma RetainChangesNothingElse(c: Cell, a: Action)
    requires Enabled(c, a) && Retains(a)
    ensures !WouldPanic(c, a)
    ensures var n := Apply(c, a); n.r == c.r && n.present == c.present && n.observed == c.observed
  {}

  lemma EvictionIsRemoval(cells: map<OpId, Cell>, id: OpId, cell: Cell, retired: seq<OpId>)
    requires id in cells && cell.present == cells[id].present && cell.r == cells[id].r
    ensures Present(Evict(cells[id := cell], retired)) == map k | k in Present(cells) && k !in retired ::
                Present(cells)[k]
  {}

  /** Retaining removes the records of the retired, and nothing else. */
  lemma RetentionIsStep(s: Registry, id: OpId, a: Action)
    requires Due(s, id, a) && Retains(a)
    ensures CanStep(s, Act(id, a))
    ensures var t := TakeStep(s, Act(id, a));
            && t.terminalOrder == Retained(s.terminalOrder, id) && t.nextSequence == s.nextSequence
            && t.prepared == s.prepared
            && Present(t.cells) == map k | k in Present(s.cells) && k !in Retired(s.terminalOrder, id) ::
                Present(s.cells)[k]
  {
    RetainChangesNothingElse(s.cells[id], a);
    EvictionIsRemoval(s.cells, id, Apply(s.cells[id], a), Retired(s.terminalOrder, id));
  }

  /** What the worker's last write is to the fields. */
  lemma EndingIsStep(s: Registry, id: OpId, a: Action, r: Record)
    requires Due(s, id, a)
    requires (a.FinishStep? && r == WorkerEnding(s.cells[id]).0)
                 || (a.SucceedBatchStep? && r == SucceedBatch(s.cells[id].r))
    ensures CanStep(s, Act(id, a))
    ensures var (c, t) := (s.cells[id], TakeStep(s, Act(id, a)));
            var changed := c.present && r != c.r;
            && t.terminalOrder == s.terminalOrder && t.nextSequence == s.nextSequence
            && Present(t.cells) == (if changed then Present(s.cells)[id := r] else Present(s.cells))
            && t.prepared == s.prepared + (if changed then [(id, SnapshotOf(r))] else [])
            && (changed <==> Apply(c, a).worker.RetainPending?)
  {
    ActionIsStep(s, id, a);
  }

  /** What the critical section of `cancel` is to the fields. */
  lemma CancelIsStep(s: Registry, id: OpId, canceller: nat)
    requires Due(s, id, CancelWrite(canceller))
    ensures CanStep(s, Act(id, CancelWrite(canceller)))
    ensures var (c, t) := (s.cells[id], TakeStep(s, Act(id, CancelWrite(canceller))));
            var changed := c.present && CancelChanges(c.r);
            && t.terminalOrder == s.terminalOrder && t.nextSequence == s.nextSequence
            && Present(t.cells) == (if changed then Present(s.cells)[id := Cancel(c.r)] else Present(s.cells))
            && t.prepared == s.prepared + (if changed then [(id, SnapshotOf(Cancel(c.r)))] else [])
    ensures var (c, pc) := (s.cells[id], Apply(s.cells[id], CancelWrite(canceller)).cancels[canceller]);
            pc == if c.present && c.r.state.Queued? then RetainCancelled(Answer(SnapshotOf(Cancel(c.r))))
                  else if c.present && c.r.state.Running? then ReleaseCancel(Answer(SnapshotOf(Cancel(c.r))))
                  else ReleaseCancel(LateReply(c))
  {
    ActionIsStep(s, id, CancelWrite(canceller));
  }

  /** The actions that are critical sections of the registry's state lock and may write. */
  predicate WritesFields(a: Action) {
    || a.Execute? || a.TakeBindingStep? || a.WriteStep? || a.SucceedBatchStep? || a.FinishStep?
    || a.CancelWrite? || Retains(a)
    || (a.SubAction? && (a.step.DoBegin? || a.step.DoWarn? || a.step.DoSettle?))
  }

  lemma OtherSubStepKeepsRecord(c: Cell, w: nat, step: SubStep)
    requires SubEnabled(c, w, step) && !step.DoBegin? && !step.DoWarn? && !step.DoSettle?
    ensures SubApply(c, w, step).r == c.r && SubApply(c, w, step).observed == c.observed
  {}

  lemma OtherWorkerStepKeepsRecord(c: Cell, a: Action)
    requires Enabled(c, a) && !WritesFields(a) && !a.SubAction?
    ensures Apply(c, a).r == c.r && Apply(c, a).observed == c.observed
  {}

  /** Every other action of any thread leaves the fields as they are. */
  lemma OtherActionsTouchNothing(s: Registry, id: OpId, a: Action)
    requires Due(s, id, a) && !WritesFields(a)
    ensures CanStep(s, Act(id, a))
    ensures var t := TakeStep(s, Act(id, a));
            && Present(t.cells) == Present(s.cells) && t.prepared == s.prepared
            && t.terminalOrder == s.terminalOrder && t.nextSequence == s.nextSequence
  {
    ActionIsStep(s, id, a);
    if a.SubAction? {
      OtherSubStepKeepsRecord(s.cells[id], a.w, a.step);
    } else {
      OtherWorkerStepKeepsRecord(s.cells[id], a);
    }
  }
}

/** The whole registry: any number of Operations, each with its protocol Cell, the bounded queue of
    finished Operations, and the observations prepared so far, in revision order. A run interleaves
    submissions with the actions of every thread of every Operation. */
module OperationRegistry {
  import opened Options
  import opened OperationRecord
  import opened OperationProtocol
  import opened OperationInvariant
  import OperationPreservation

  const MAX_TERMINAL_OPERATIONS: nat := 100

  datatype Registry = Registry(
    cells: map<OpId, Cell>,
    terminalOrder: seq<OpId>,
    nextSequence: nat,
    prepared: seq<(OpId, Snapshot)>)

  datatype Step =
    | Submit(id: OpId, shape: ExecutionShape, models: seq<string>, concurrency: nat)
    | Act(id: OpId, action: Action)

  const EMPTY := Registry(map[], [], 1, [])

  // ---------- retain_terminal ----------

  /** The queue with `id` pushed and cut down to its newest MAX_TERMINAL_OPERATIONS entries. */
  function Retained(order: seq<OpId>, id: OpId): seq<OpId> {
    if id in order then order else Newest(order + [id])
  }

  function Newest(order: seq<OpId>): seq<OpId> {
    if |order| > MAX_TERMINAL_OPERATIONS then order[|order| - MAX_TERMINAL_OPERATIONS..] else order
  }

  /** The Operations that retaining `id` removes from the registry. */
  function Retired(order: seq<OpId>, id: OpId): seq<OpId> {
    if id in order || |order| < MAX_TERMINAL_OPERATIONS then []
    else (order + [id])[..|order| + 1 - MAX_TERMINAL_OPERATIONS]
  }

  function Evict(cells: map<OpId, Cell>, retired: seq<OpId>): map<OpId, Cell> {
    map id | id in cells :: if id in retired then cells[id].(present := false) else cells[id]
  }

  // ---------- Steps ----------

  function Retains(a: Action): bool {
    a.RetainStep? || a.CancelRetain?
  }

  predicate CanStep(s: Registry, step: Step) {
    match step
    case Submit(id, shape, models, concurrency) =>
      id !in s.cells && ValidSubmission(shape, models, concurrency)
    case Act(id, a) => id in s.cells && Enabled(s.cells[id], a) && !WouldPanic(s.cells[id], a)
  }

  function NewObservations(id: OpId, before: Cell, after: Cell): seq<(OpId, Snapshot)> {
    if |after.observed| > |before.observed| then [(id, after.observed[|after.observed| - 1])] else []
  }

  function TakeStep(s: Registry, step: Step): Registry
    requires CanStep(s, step)
  {
    match step
    case Submit(id, shape, models, concurrency) =>
      var cell := FreshCell(Accepted(s.nextSequence, shape, models, concurrency));
      s.(cells := s.cells[id := cell], nextSequence := s.nextSequence + 1,
         prepared := s.prepared + [(id, SnapshotOf(cell.r))])
    case Act(id, a) =>
      var after := Apply(s.cells[id], a);
      var acted := s.(cells := s.cells[id := after],
                      prepared := s.prepared + NewObservations(id, s.cells[id], after));
      if Retains(a) then
        acted.(cells := Evict(acted.cells, Retired(s.terminalOrder, id)),
               terminalOrder := Retained(s.terminalOrder, id))
      else acted
  }

  /** A run: every state but the first follows from the one before by some step. */
  ghost predicate IsRun(run: seq<Registry>, steps: seq<Step>) {
    && |run| == |steps| + 1
    && run[0] == EMPTY
    && forall k :: 0 <= k < |steps| ==> CanStep(run[k], steps[k]) && run[k + 1] == TakeStep(run[k], steps[k])
  }

  ghost predicate Reachable(s: Registry) {
    exists run: seq<Registry>, steps: seq<Step> :: IsRun(run, steps) && run[|run| - 1] == s
  }

  // ---------- The invariant ----------

  function ObservationsOf(prepared: seq<(OpId, Snapshot)>, id: OpId): seq<Snapshot> {
    if prepared == [] then []
    else
      var last := prepared[|prepared| - 1];
      ObservationsOf(prepared[..|prepared| - 1], id) + if last.0 == id then [last.1] else []
  }

  ghost predicate QueueOk(cells: map<OpId, Cell>, order: seq<OpId>) {
    && Distinct(order)
    && |order| <= MAX_TERMINAL_OPERATIONS
    && (forall id :: id in order ==> id in cells && cells[id].present && cells[id].retains == 1)
    && (forall id :: id in cells && cells[id].present && cells[id].retains == 1 ==> id in order)
  }

  ghost predicate SequencesOk(cells: map<OpId, Cell>, next: nat) {
    && (forall id :: id in cells ==> cells[id].r.sequence < next)
    && (forall a, b :: a in cells && b in cells && cells[a].r.sequence == cells[b].r.sequence ==> a == b)
  }

  function ObservedBy(cells: map<OpId, Cell>, id: OpId): seq<Snapshot> {
    if id in cells then cells[id].observed else []
  }

  ghost predicate PreparedOk(cells: map<OpId, Cell>, prepared: seq<(OpId, Snapshot)>) {
    forall id :: ObservationsOf(prepared, id) == ObservedBy(cells, id)
  }

  ghost predicate CellsOk(cells: map<OpId, Cell>) {
    forall id :: id in cells ==> Inv(cells[id])
  }

  ghost predicate BookkeepingOk(s: Registry) {
    && QueueOk(s.cells, s.terminalOrder)
    && SequencesOk(s.cells, s.nextSequence)
    && PreparedOk(s.cells, s.prepared)
  }

  ghost predicate RegistryInv(s: Registry) {
    CellsOk(s.cells) && BookkeepingOk(s)
  }

  // ---------- Every step keeps it ----------

  predicate Framed(c: Cell, after: Cell, retained: bool) {
    && after.r.sequence == c.r.sequence
    && after.present == c.present
    && after.retains == c.retains + (if retained then 1 else 0)
    && (|| after.observed == c.observed
        || (|after.observed| == |c.observed| + 1 && after.observed[..|c.observed|] == c.observed))
  }

  lemma SubActionFrame(c: Cell, w: nat, step: SubStep)
    requires SubEnabled(c, w, step) && !WouldPanic(c, SubAction(w, step))
    ensures Framed(c, SubApply(c, w, step), false)
  {}

  lemma CancelRecordFrame(c: Cell, id: nat)
    ensures Framed(c, CancelRecord(c, id), false)
  {}

  lemma CancelMoveFrame(c: Cell, a: Action)
    requires Enabled(c, a) && OperationPreservation.CancelMove(a)
    ensures Framed(c, Apply(c, a), Retains(a))
  {}

  lemma MoveFrame(c: Cell, a: Action)
    requires Enabled(c, a) && !WouldPanic(c, a)
    requires OperationPreservation.SingleMove(a) || OperationPreservation.LateMove(a)
    ensures Framed(c, Apply(c, a), Retains(a))
  {}

  lemma FinishFrame(c: Cell, r: Record, holding: bool)
    requires r.sequence == c.r.sequence
    ensures Framed(c, Finish(c, r, holding), false)
  {}

  lemma WorkerFinishFrame(c: Cell)
    ensures Framed(c, WorkerFinish(c), false)
  {
    var (r, holding) := WorkerEnding(c);
    FinishFrame(c, r, holding);
  }

  lemma WorkerActionFrame(c: Cell, a: Action)
    requires Enabled(c, a)
    requires a.Execute? || a.CommitStep? || a.WriteStep? || a.ReadBatchStep? || a.DecideStep?
    ensures Framed(c, Apply(c, a), false)
  {}

  /** An action leaves its Operation's place in the registry alone, counts its own retention, and
      prepares at most one observation. */
  lemma ActionFrame(c: Cell, a: Action)
    requires Enabled(c, a) && !WouldPanic(c, a)
    ensures Framed(c, Apply(c, a), Retains(a))
  {
    if a.SubAction? {
      SubActionFrame(c, a.w, a.step);
    } else if a.CancelWrite? {
      CancelRecordFrame(c, a.c);
    } else if OperationPreservation.CancelMove(a) {
      CancelMoveFrame(c, a);
    } else if OperationPreservation.SingleMove(a) || OperationPreservation.LateMove(a) {
      MoveFrame(c, a);
    } else if a.FinishStep? {
      WorkerFinishFrame(c);
    } else if a.SucceedBatchStep? {
      FinishFrame(c, SucceedBatch(c.r), false);
    } else {
      WorkerActionFrame(c, a);
    }
  }

  lemma PreparedGrows(prepared: seq<(OpId, Snapshot)>, id: OpId, snapshot: Snapshot, other: OpId)
    ensures ObservationsOf(prepared + [(id, snapshot)], other)
         == ObservationsOf(prepared, other) + if other == id then [snapshot] else []
  {
    assert (prepared + [(id, snapshot)])[..|prepared|] == prepared;
  }

  lemma ActKeepsPrepared(cells: map<OpId, Cell>, prepared: seq<(OpId, Snapshot)>, id: OpId, after: Cell)
    requires PreparedOk(cells, prepared) && id in cells
    requires Framed(cells[id], after, false) || Framed(cells[id], after, true)
    ensures PreparedOk(cells[id := after], prepared + NewObservations(id, cells[id], after))
  {
    var extra := NewObservations(id, cells[id], after);
    if extra == [] {
      assert prepared + extra == prepared;
    } else {
      assert after.observed == cells[id].observed + [extra[0].1];
      forall other
        ensures ObservationsOf(prepared + extra, other) == ObservedBy(cells[id := after], other)
      {
        PreparedGrows(prepared, id, extra[0].1, other);
      }
    }
  }

  lemma CellKeepsOthers(cells: map<OpId, Cell>, id: OpId, cell: Cell)
    requires CellsOk(cells) && Inv(cell)
    ensures CellsOk(cells[id := cell])
  {}

  lemma SubmitKeepsPrepared(cells: map<OpId, Cell>, prepared: seq<(OpId, Snapshot)>, id: OpId, cell: Cell)
    requires PreparedOk(cells, prepared) && id !in cells && cell.observed == [SnapshotOf(cell.r)]
    ensures PreparedOk(cells[id := cell], prepared + [(id, SnapshotOf(cell.r))])
  {
    forall other
      ensures ObservationsOf(prepared + [(id, SnapshotOf(cell.r))], other) == ObservedBy(cells[id := cell], other)
    {
      PreparedGrows(prepared, id, SnapshotOf(cell.r), other);
    }
  }

  lemma PutKeepsQueue(cells: map<OpId, Cell>, order: seq<OpId>, id: OpId, cell: Cell)
    requires QueueOk(cells, order)
    requires id in cells ==> cell.present == cells[id].present && cell.retains == cells[id].retains
    requires id !in cells ==> cell.retains == 0
    ensures QueueOk(cells[id := cell], order)
  {}

  lemma SubmitKeepsInv(s: Registry, step: Step)
    requires RegistryInv(s) && CanStep(s, step) && step.Submit?
    ensures RegistryInv(TakeStep(s, step))
  {
    var cell := FreshCell(Accepted(s.nextSequence, step.shape, step.models, step.concurrency));
    FreshCellInv(s.nextSequence, step.shape, step.models, step.concurrency);
    CellKeepsOthers(s.cells, step.id, cell);
    PutKeepsQueue(s.cells, s.terminalOrder, step.id, cell);
    SubmitKeepsPrepared(s.cells, s.prepared, step.id, cell);
  }

  lemma PutKeepsBookkeeping(s: Registry, id: OpId, after: Cell)
    requires BookkeepingOk(s) && id in s.cells && Framed(s.cells[id], after, false)
    ensures BookkeepingOk(s.(cells := s.cells[id := after],
                           prepared := s.prepared + NewObservations(id, s.cells[id], after)))
  {
    PutKeepsQueue(s.cells, s.terminalOrder, id, after);
    ActKeepsPrepared(s.cells, s.prepared, id, after);
  }

  lemma ActKeepsInv(s: Registry, id: OpId, a: Action)
    requires RegistryInv(s) && CanStep(s, Act(id, a)) && !Retains(a)
    ensures RegistryInv(TakeStep(s, Act(id, a)))
  {
    OperationPreservation.ActionKeepsInv(s.cells[id], a);
    ActionFrame(s.cells[id], a);
    CellKeepsOthers(s.cells, id, Apply(s.cells[id], a));
    PutKeepsBookkeeping(s, id, Apply(s.cells[id], a));
  }

  lemma SplitOnce(order: seq<OpId>, cut: nat, x: OpId)
    requires Distinct(order) && cut <= |order| && x in order
    ensures x in order[..cut] <==> x !in order[cut..]
  {
    var k :| 0 <= k < |order| && order[k] == x;
    if k < cut {
      assert order[..cut][k] == x;
      assert forall j :: 0 <= j < |order[cut..]| ==> order[cut..][j] == order[cut + j];
    } else {
      assert order[cut..][k - cut] == x;
    }
  }

  /** Retaining pushes one new id and evicts only ids that leave the queue. */
  lemma RetentionKeepsQueue(cells: map<OpId, Cell>, order: seq<OpId>, id: OpId)
    requires id in cells && cells[id].present && cells[id].retains == 1 && id !in order
    requires Distinct(order) && |order| <= MAX_TERMINAL_OPERATIONS
    requires forall x :: x in order ==> x in cells && cells[x].present && cells[x].retains == 1
    requires forall x :: x in cells && cells[x].present && cells[x].retains == 1 && x != id ==> x in order
    ensures QueueOk(Evict(cells, Retired(order, id)), Retained(order, id))
  {
    var all := order + [id];
    assert Distinct(all);
    var cut := |Retired(order, id)|;
    assert Retired(order, id) == all[..cut] && Retained(order, id) == all[cut..];
    forall x | x in all
      ensures x in Retired(order, id) <==> x !in Retained(order, id)
    {
      SplitOnce(all, cut, x);
    }
  }

  lemma EvictionKeepsCells(cells: map<OpId, Cell>, retired: seq<OpId>)
    requires CellsOk(cells)
    requires forall id :: id in cells && id in retired ==> cells[id].retains == 1
    ensures CellsOk(Evict(cells, retired))
  {
    forall id | id in cells && id in retired
      ensures Inv(cells[id].(present := false))
    {
      OperationPreservation.EvictionKeepsInv(cells[id]);
    }
  }

  lemma EvictionKeepsRest(cells: map<OpId, Cell>, retired: seq<OpId>, next: nat, prepared: seq<(OpId, Snapshot)>)
    requires SequencesOk(cells, next) && PreparedOk(cells, prepared)
    ensures SequencesOk(Evict(cells, retired), next) && PreparedOk(Evict(cells, retired), prepared)
  {}

  lemma PutAndRetainKeepsBookkeeping(s: Registry, id: OpId, after: Cell)
    requires BookkeepingOk(s) && id in s.cells && Framed(s.cells[id], after, true)
    requires after.present && after.retains == 1
    ensures BookkeepingOk(s.(cells := Evict(s.cells[id := after], Retired(s.terminalOrder, id)),
                           terminalOrder := Retained(s.terminalOrder, id),
                           prepared := s.prepared + NewObservations(id, s.cells[id], after)))
    ensures forall x :: x in s.cells && x in Retired(s.terminalOrder, id) ==> s.cells[id := after][x].retains == 1
  {
    var cells, retired := s.cells[id := after], Retired(s.terminalOrder, id);
    ActKeepsPrepared(s.cells, s.prepared, id, after);
    RetentionKeepsQueue(cells, s.terminalOrder, id);
    EvictionKeepsRest(cells, retired, s.nextSequence, s.prepared + NewObservations(id, s.cells[id], after));
  }

  // The cell of the retaining Operation: still kept, charged exactly once.
  lemma RetainingCell(c: Cell, a: Action)
    requires Inv(c) && Enabled(c, a) && !WouldPanic(c, a) && Retains(a)
    ensures Inv(Apply(c, a)) && Framed(c, Apply(c, a), true)
    ensures Apply(c, a).present && Apply(c, a).retains == 1
  {
    OperationPreservation.ActionKeepsInv(c, a);
    ActionFrame(c, a);
    RetainerWasPending(c, a);
  }

  lemma RetainKeepsInv(s: Registry, id: OpId, a: Action)
    requires RegistryInv(s) && CanStep(s, Act(id, a)) && Retains(a)
    ensures RegistryInv(TakeStep(s, Act(id, a)))
  {
    var after := Apply(s.cells[id], a);
    RetainingCell(s.cells[id], a);
    CellKeepsOthers(s.cells, id, after);
    PutAndRetainKeepsBookkeeping(s, id, after);
    EvictionKeepsCells(s.cells[id := after], Retired(s.terminalOrder, id));
  }

  lemma RetainerWasPending(c: Cell, a: Action)
    requires Inv(c) && Enabled(c, a) && Retains(a)
    ensures c.present && c.retains == 0
  {}

  lemma StepKeepsInv(s: Registry, step: Step)
    requires RegistryInv(s) && CanStep(s, step)
    ensures RegistryInv(TakeStep(s, step))
  {
    if step.Submit? {
      SubmitKeepsInv(s, step);
    } else if Retains(step.action) {
      RetainKeepsInv(s, step.id, step.action);
    } else {
      ActKeepsInv(s, step.id, step.action);
    }
  }

  lemma {:induction false} RunKeepsInv(run: seq<Registry>, steps: seq<Step>, k: nat)
    requires IsRun(run, steps) && k < |run|
    ensures RegistryInv(run[k])
  {
    if k == 0 {
    } else {
      RunKeepsInv(run, steps, k - 1);
      StepKeepsInv(run[k - 1], steps[k - 1]);
    }
  }

  lemma ReachableInv(s: Registry)
    requires Reachable(s)
    ensures RegistryInv(s)
  {
    var run: seq<Registry>, steps: seq<Step> :| IsRun(run, steps) && run[|run| - 1] == s;
    RunKeepsInv(run, steps, |run| - 1);
  }
}

/** The registry and the observer dispatcher as one system: every observation the registry prepares is
    handed to one publisher of the dispatcher, and all their steps interleave. */
module OperationObservers {
  import opened OperationRecord
  import opened OperationInvariant
  import opened OperationRegistry
  import OperationTheorems
  import Dispatch = ObserverDispatch

  datatype System = System(registry: Registry, dispatch: Dispatch.Dispatch)

  datatype Event = RegistryStep(step: Step) | DispatchStep(publishing: Dispatch.Step)

  const NOTHING := System(EMPTY, Dispatch.START)

  predicate CanHappen(s: System, e: Event) {
    match e
    case RegistryStep(step) => CanStep(s.registry, step)
    case DispatchStep(step) => !step.Prepare? && Dispatch.CanStep(s.dispatch, step)
  }

  function Happen(s: System, e: Event): System
    requires CanHappen(s, e)
  {
    match e
    case RegistryStep(step) =>
      var after := TakeStep(s.registry, step);
      System(after, if |after.prepared| > |s.registry.prepared| then Dispatch.TakeStep(s.dispatch, Dispatch.Prepare)
                    else s.dispatch)
    case DispatchStep(step) => s.(dispatch := Dispatch.TakeStep(s.dispatch, step))
  }

  ghost predicate IsHistory(states: seq<System>, events: seq<Event>) {
    && |states| == |events| + 1
    && states[0] == NOTHING
    && forall k :: 0 <= k < |events| ==>
        CanHappen(states[k], events[k]) && states[k + 1] == Happen(states[k], events[k])
  }

  ghost predicate Possible(s: System) {
    exists states: seq<System>, events: seq<Event> :: IsHistory(states, events) && states[|states| - 1] == s
  }

  /** Both halves are reachable on their own, and every observation prepared has its publisher. */
  ghost predicate Joined(s: System) {
    && Reachable(s.registry) && Dispatch.Reachable(s.dispatch)
    && |s.dispatch.publishers| == |s.registry.prepared|
  }

  lemma NothingJoined()
    ensures Joined(NOTHING)
  {
    assert IsRun([EMPTY], []) && [EMPTY][|[EMPTY]| - 1] == EMPTY;
    assert Dispatch.IsRun([Dispatch.START], []) && [Dispatch.START][|[Dispatch.START]| - 1] == Dispatch.START;
  }

  lemma AtMostOnePrepared(s: Registry, step: Step)
    requires CanStep(s, step)
    ensures |s.prepared| <= |TakeStep(s, step).prepared| <= |s.prepared| + 1
  {}

  lemma EventKeepsJoined(s: System, e: Event)
    requires Joined(s) && CanHappen(s, e)
    ensures Joined(Happen(s, e))
  {
    match e
    case RegistryStep(step) =>
      OperationTheorems.ReachFurther(s.registry, step);
      AtMostOnePrepared(s.registry, step);
      Dispatch.ReachFurther(s.dispatch, Dispatch.Prepare);
    case DispatchStep(step) =>
      Dispatch.ReachFurther(s.dispatch, step);
      PublishersStay(s.dispatch, step);
  }

  lemma PublishersStay(d: Dispatch.Dispatch, step: Dispatch.Step)
    requires Dispatch.CanStep(d, step) && !step.Prepare?
    ensures |Dispatch.TakeStep(d, step).publishers| == |d.publishers|
  {}

  lemma {:induction false} HistoryKeepsJoined(states: seq<System>, events: seq<Event>, k: nat)
    requires IsHistory(states, events) && k < |states|
    ensures Joined(states[k])
  {
    if k == 0 {
      NothingJoined();
    } else {
      HistoryKeepsJoined(states, events, k - 1);
      EventKeepsJoined(states[k - 1], events[k - 1]);
    }
  }

  lemma PossibleJoined(s: System)
    requires Possible(s)
    ensures Joined(s)
  {
    var states: seq<System>, events: seq<Event> :| IsHistory(states, events) && states[|states| - 1] == s;
    HistoryKeepsJoined(states, events, |states| - 1);
  }

  // ---------- What observers are told ----------

  /** What observers were called with, in the order of the calls. */
  function Told(s: System): seq<(OpId, Snapshot)>
    requires forall k :: 0 <= k < |s.dispatch.callbacks| ==> 1 <= s.dispatch.callbacks[k] <= |s.registry.prepared|
  {
    seq(|s.dispatch.callbacks|, k requires 0 <= k < |s.dispatch.callbacks| =>
      s.registry.prepared[s.dispatch.callbacks[k] - 1])
  }

  lemma {:induction false} ObservationsAppend(a: seq<(OpId, Snapshot)>, b: seq<(OpId, Snapshot)>, id: OpId)
    ensures ObservationsOf(a + b, id) == ObservationsOf(a, id) + ObservationsOf(b, id)
  {
    if b == [] {
      assert a + b == a;
    } else {
      assert (a + b)[..|a + b| - 1] == a + b[..|b| - 1];
      ObservationsAppend(a, b[..|b| - 1], id);
    }
  }

  lemma {:induction false} NothingObserved(prepared: seq<(OpId, Snapshot)>, id: OpId)
    requires forall k :: 0 <= k < |prepared| ==> prepared[k].0 != id
    ensures ObservationsOf(prepared, id) == []
  {
    if prepared == [] {
    } else {
      NothingObserved(prepared[..|prepared| - 1], id);
    }
  }

  // The calls are those of a stretch of the revisions: none before an observer was there, none not yet
  // delivered.
  lemma ToldIsStretch(s: System) returns (from: nat, upto: nat)
    requires Joined(s)
    ensures from <= upto == |s.dispatch.delivered| <= |s.registry.prepared|
    ensures forall k :: 0 <= k < |s.dispatch.callbacks| ==> 1 <= s.dispatch.callbacks[k] <= |s.registry.prepared|
    ensures Told(s) == s.registry.prepared[from..upto]
    ensures |s.dispatch.observers| == |s.registry.prepared| && forall k :: 0 <= k < from ==> !s.dispatch.observers[k]
  {
    Dispatch.ReachableInv(s.dispatch);
    upto := |s.dispatch.delivered|;
    from := upto - |s.dispatch.callbacks|;
    assert |Told(s)| == upto - from;
  }

  /** `told` is a stretch of `path`, from its start or to its end where that is said. */
  ghost predicate StretchOf(told: seq<Snapshot>, path: seq<Snapshot>, fromStart: bool, toEnd: bool) {
    exists i, j :: 0 <= i <= j <= |path| && told == path[i..j] && (fromStart ==> i == 0) && (toEnd ==> j == |path|)
  }

  lemma StretchIsStretch(prepared: seq<(OpId, Snapshot)>, from: nat, upto: nat, id: OpId, fromStart: bool, toEnd: bool)
    requires from <= upto <= |prepared| && (toEnd ==> upto == |prepared|)
    requires fromStart ==> forall k :: 0 <= k < from ==> prepared[k].0 != id
    ensures StretchOf(ObservationsOf(prepared[from..upto], id), ObservationsOf(prepared, id), fromStart, toEnd)
  {
    var early, middle, late := prepared[..from], prepared[from..upto], prepared[upto..];
    assert prepared == early + middle + late;
    ObservationsAppend(early + middle, late, id);
    ObservationsAppend(early, middle, id);
    var path := ObservationsOf(prepared, id);
    var i, j := |ObservationsOf(early, id)|, |path| - |ObservationsOf(late, id)|;
    assert ObservationsOf(middle, id) == path[i..j];
    if fromStart {
      NothingObserved(early, id);
    }
  }

  lemma StretchFollows(told: seq<Snapshot>, path: seq<Snapshot>)
    requires StretchOf(told, path, false, false) && Path(path)
    ensures forall k :: 0 < k < |told| ==> Follows(told[k - 1], told[k])
  {
    var i, j :| 0 <= i <= j <= |path| && told == path[i..j];
    assert forall k :: 0 <= k < |told| ==> told[k] == path[i + k];
  }

  /** Every publisher has returned. */
  predicate AllReturned(s: System) {
    forall p :: 0 <= p < |s.dispatch.publishers| ==> s.dispatch.publishers[p].Done?
  }

  /** Every observation of `id` was prepared with an observer installed. */
  predicate ObservedThroughout(s: System, id: OpId)
    requires |s.dispatch.observers| == |s.registry.prepared|
  {
    forall k :: 0 <= k < |s.registry.prepared| && s.registry.prepared[k].0 == id ==> s.dispatch.observers[k]
  }

  /** What observers are told of one Operation, whatever the interleaving of its threads, of cancellers,
      of publishers and of the installation of an observer: a stretch of the Operation's path, without
      gap or repeat, each snapshot following the one before. Once every publisher has returned it goes on
      to the present state; if an observer was there throughout it starts at Queued. */
  lemma ToldIsPath(s: System, id: OpId)
    requires Possible(s) && id in s.registry.cells
    ensures forall k :: 0 <= k < |s.dispatch.callbacks| ==> 1 <= s.dispatch.callbacks[k] <= |s.registry.prepared|
    ensures |s.dispatch.observers| == |s.registry.prepared|
    ensures Path(s.registry.cells[id].observed)
    ensures StretchOf(ObservationsOf(Told(s), id), s.registry.cells[id].observed, ObservedThroughout(s, id),
                AllReturned(s))
    ensures var told := ObservationsOf(Told(s), id); forall k :: 0 < k < |told| ==> Follows(told[k - 1], told[k])
  {
    PossibleJoined(s);
    var from, upto := ToldIsStretch(s);
    ReachableInv(s.registry);
    assert ObservationsOf(s.registry.prepared, id) == ObservedBy(s.registry.cells, id);
    if AllReturned(s) {
      Dispatch.AllDeliveredAtQuiescence(s.dispatch);
    }
    StretchIsStretch(s.registry.prepared, from, upto, id, ObservedThroughout(s, id), AllReturned(s));
    StretchFollows(ObservationsOf(Told(s), id), s.registry.cells[id].observed);
  }
}

/** publish_observed under any number of publishers. Every prepared observation is published by
    exactly one thread, so a publisher is named by the revision it carries. One step is one critical
    section of the dispatch lock, or one call of the observer. */
module ObserverDispatch {

  datatype PublisherPc =
    | Carrying                    // prepared, not yet queued
    | Draining                    // about to look for the next revision
    | Delivering(revision: nat)   // took it out, about to call its observer
    | Done

  datatype Dispatch = Dispatch(
    installed: bool,              // an observer was installed
    observers: seq<bool>,         // whether revision k + 1 was prepared with an observer
    publishers: seq<PublisherPc>, // the publisher of revision k + 1
    nextRevision: nat,
    pending: set<nat>,
    draining: bool,
    delivered: seq<nat>,          // revisions processed, in order
    callbacks: seq<nat>)          // revisions an observer was called with, in order

  const START := Dispatch(false, [], [], 1, {}, false, [], [])

  datatype Step = Install | Prepare | Queue(p: nat) | Take(p: nat) | Deliver(p: nat)

  predicate CanStep(d: Dispatch, step: Step) {
    match step
    case Install => true
    case Prepare => true
    case Queue(p) => p < |d.publishers| && d.publishers[p].Carrying?
    case Take(p) => p < |d.publishers| && d.publishers[p].Draining?
    case Deliver(p) =>
        p < |d.publishers| && d.publishers[p].Delivering? && 1 <= d.publishers[p].revision <= |d.observers|
  }

  /** The source's assertion that a revision is not queued twice. */
  predicate QueuedTwice(d: Dispatch, step: Step) {
    step.Queue? && step.p + 1 in d.pending
  }

  function TakeStep(d: Dispatch, step: Step): Dispatch
    requires CanStep(d, step)
  {
    match step
    case Install => d.(installed := true)
    case Prepare => d.(observers := d.observers + [d.installed], publishers := d.publishers + [Carrying])
    case Queue(p) =>
      d.(pending := d.pending + {p + 1},
         draining := true,
         publishers := d.publishers[p := if d.draining then Done else Draining])
    case Take(p) =>
      if d.nextRevision in d.pending then
        d.(pending := d.pending - {d.nextRevision},
           nextRevision := d.nextRevision + 1,
           publishers := d.publishers[p := Delivering(d.nextRevision)])
      else
        d.(draining := false, publishers := d.publishers[p := Done])
    case Deliver(p) =>
      var revision := d.publishers[p].revision;
      d.(delivered := d.delivered + [revision],
         callbacks := if d.observers[revision - 1] then d.callbacks + [revision] else d.callbacks,
         publishers := d.publishers[p := Draining])
  }

  ghost predicate IsRun(run: seq<Dispatch>, steps: seq<Step>) {
    && |run| == |steps| + 1
    && run[0] == START
    && forall k :: 0 <= k < |steps| ==> CanStep(run[k], steps[k]) && run[k + 1] == TakeStep(run[k], steps[k])
  }

  ghost predicate Reachable(d: Dispatch) {
    exists run: seq<Dispatch>, steps: seq<Step> :: IsRun(run, steps) && run[|run| - 1] == d
  }

  predicate Drains(pc: PublisherPc) {
    pc.Draining? || pc.Delivering?
  }

  /** At most one publisher drains, and it does exactly while the `draining` flag is set. */
  predicate OneDrainer(publishers: seq<PublisherPc>, draining: bool) {
    && (forall p, q :: 0 <= p < q < |publishers| ==> !(Drains(publishers[p]) && Drains(publishers[q])))
    && (draining <==> exists p :: 0 <= p < |publishers| && Drains(publishers[p]))
  }

  predicate InDelivery(publishers: seq<PublisherPc>) {
    exists p :: 0 <= p < |publishers| && publishers[p].Delivering?
  }

  /** Queued and not yet taken are exactly the revisions from the next one on whose publisher has
      moved on; every earlier one was taken. */
  ghost predicate QueueOk(publishers: seq<PublisherPc>, next: nat, pending: set<nat>, draining: bool) {
    && 1 <= next <= |publishers| + 1
    && (forall r :: r in pending <==> next <= r <= |publishers| && !publishers[r - 1].Carrying?)
    && (forall p :: 0 <= p < next - 1 ==> !publishers[p].Carrying?)
    && (!draining ==> next !in pending)
    && (forall p :: 0 <= p < |publishers| && publishers[p].Delivering? ==> publishers[p].revision == next - 1 >= 1)
  }

  predicate DeliveryOk(publishers: seq<PublisherPc>, next: nat, delivered: seq<nat>) {
    && |delivered| == next - 1 - (if InDelivery(publishers) then 1 else 0)
    && forall k :: 0 <= k < |delivered| ==> delivered[k] == k + 1
  }

  /** An observer sees a suffix of what is delivered: once one observation captured it, all do. */
  predicate CallbacksOk(observers: seq<bool>, installed: bool, count: nat, callbacks: seq<nat>) {
    && (forall k :: 0 <= k < |observers| && observers[k] ==> installed)
    && (forall k, m :: 0 <= k < m < |observers| && observers[k] ==> observers[m])
    && |callbacks| <= count <= |observers|
    && (forall k :: 0 <= k < |callbacks| ==> callbacks[k] == count - |callbacks| + k + 1)
    && (forall k :: count - |callbacks| <= k < count ==> observers[k])
    && (forall k :: 0 <= k < count - |callbacks| ==> !observers[k])
  }

  ghost predicate Inv(d: Dispatch) {
    && |d.observers| == |d.publishers|
    && OneDrainer(d.publishers, d.draining)
    && QueueOk(d.publishers, d.nextRevision, d.pending, d.draining)
    && DeliveryOk(d.publishers, d.nextRevision, d.delivered)
    && CallbacksOk(d.observers, d.installed, |d.delivered|, d.callbacks)
  }

  lemma CarryingDrainsNothing(publishers: seq<PublisherPc>, draining: bool)
    requires OneDrainer(publishers, draining)
    ensures OneDrainer(publishers + [Carrying], draining)
    ensures InDelivery(publishers + [Carrying]) <==> InDelivery(publishers)
  {
    var n := publishers + [Carrying];
    assert forall p :: 0 <= p < |publishers| ==> n[p] == publishers[p];
  }

  lemma PrepareKeepsInv(d: Dispatch)
    requires Inv(d)
    ensures Inv(TakeStep(d, Prepare))
  {
    CarryingDrainsNothing(d.publishers, d.draining);
  }

  lemma QueueKeepsInv(d: Dispatch, p: nat)
    requires Inv(d) && CanStep(d, Queue(p))
    ensures !QueuedTwice(d, Queue(p)) && Inv(TakeStep(d, Queue(p)))
  {
    var n := TakeStep(d, Queue(p)).publishers;
    if d.draining {
      var q :| 0 <= q < |d.publishers| && Drains(d.publishers[q]);
      assert Drains(n[q]);
    } else {
      assert Drains(n[p]);
    }
    assert forall q :: 0 <= q < |n| && q != p ==> n[q] == d.publishers[q];
    assert InDelivery(n) <==> InDelivery(d.publishers);
  }

  lemma TakeKeepsInv(d: Dispatch, p: nat)
    requires Inv(d) && CanStep(d, Take(p))
    ensures Inv(TakeStep(d, Take(p)))
  {
    var n := TakeStep(d, Take(p)).publishers;
    assert Drains(d.publishers[p]);
    assert forall q :: 0 <= q < |n| && q != p ==> n[q] == d.publishers[q] && !Drains(n[q]);
    if d.nextRevision in d.pending {
      assert n[p].Delivering?;
    }
  }

  lemma DeliverKeepsInv(d: Dispatch, p: nat)
    requires Inv(d) && CanStep(d, Deliver(p))
    ensures Inv(TakeStep(d, Deliver(p)))
  {
    var n := TakeStep(d, Deliver(p)).publishers;
    assert Drains(d.publishers[p]) && Drains(n[p]);
    assert forall q :: 0 <= q < |n| && q != p ==> n[q] == d.publishers[q] && !Drains(n[q]);
    assert InDelivery(d.publishers);
    CallbackFollows(d.observers, d.installed, |d.delivered|, d.callbacks);
  }

  lemma CallbackFollows(observers: seq<bool>, installed: bool, count: nat, callbacks: seq<nat>)
    requires CallbacksOk(observers, installed, count, callbacks) && count < |observers|
    ensures CallbacksOk(observers, installed, count + 1, if observers[count] then callbacks + [count + 1]
                else callbacks)
  {
    if |callbacks| > 0 {
      assert observers[count - 1];
    }
  }

  lemma StepKeepsInv(d: Dispatch, step: Step)
    requires Inv(d) && CanStep(d, step)
    ensures Inv(TakeStep(d, step))
  {
    match step
    case Install =>
    case Prepare => PrepareKeepsInv(d);
    case Queue(p) => QueueKeepsInv(d, p);
    case Take(p) => TakeKeepsInv(d, p);
    case Deliver(p) => DeliverKeepsInv(d, p);
  }

  lemma {:induction false} RunKeepsInv(run: seq<Dispatch>, steps: seq<Step>, k: nat)
    requires IsRun(run, steps) && k < |run|
    ensures Inv(run[k])
  {
    if k == 0 {
    } else {
      RunKeepsInv(run, steps, k - 1);
      StepKeepsInv(run[k - 1], steps[k - 1]);
    }
  }

  lemma ReachableInv(d: Dispatch)
    requires Reachable(d)
    ensures Inv(d)
  {
    var run: seq<Dispatch>, steps: seq<Step> :| IsRun(run, steps) && run[|run| - 1] == d;
    RunKeepsInv(run, steps, |run| - 1);
  }

  lemma ReachFurther(d: Dispatch, step: Step)
    requires Reachable(d) && CanStep(d, step)
    ensures Reachable(TakeStep(d, step))
  {
    var run: seq<Dispatch>, steps: seq<Step> :| IsRun(run, steps) && run[|run| - 1] == d;
    var further := run + [TakeStep(d, step)];
    assert IsRun(further, steps + [step]);
    assert further[|further| - 1] == TakeStep(d, step);
  }

  // ---------- The main results ----------

  /** Whatever the interleaving: at most one publisher drains, revisions are delivered as 1, 2, 3, ...
      with no gap and no repeat, an observer's own calls are consecutive revisions, and while nobody
      drains the next revision is not waiting in the queue. */
  lemma DeliveredInOrder(d: Dispatch)
    requires Reachable(d)
    ensures forall p, q :: 0 <= p < q < |d.publishers| ==> !(Drains(d.publishers[p]) && Drains(d.publishers[q]))
    ensures |d.delivered| <= |d.publishers|
    ensures forall k :: 0 <= k < |d.delivered| ==> d.delivered[k] == k + 1
    ensures forall k :: 0 <= k < |d.callbacks| ==> d.callbacks[k] == |d.delivered| - |d.callbacks| + k + 1
    ensures !d.draining ==> d.nextRevision !in d.pending
  {
    ReachableInv(d);
  }

  predicate InstalledBefore(steps: seq<Step>, k: nat)
    requires k <= |steps|
  {
    exists j :: 0 <= j < k && steps[j].Install?
  }

  lemma {:induction false} RunInstalls(run: seq<Dispatch>, steps: seq<Step>, k: nat)
    requires IsRun(run, steps) && k < |run|
    ensures run[k].installed <==> InstalledBefore(steps, k)
  {
    if k == 0 {
    } else {
      RunInstalls(run, steps, k - 1);
    }
  }

  lemma {:induction false} PreparedStays(run: seq<Dispatch>, steps: seq<Step>, i: nat, j: nat)
    requires IsRun(run, steps) && i <= j < |run|
    ensures run[i].observers <= run[j].observers
  {
    if i == j {
    } else {
      PreparedStays(run, steps, i, j - 1);
    }
  }

  /** The observer is called with a delivered revision exactly if it was installed before that revision
      was prepared, however late the revision is delivered. */
  lemma CalledExactly(run: seq<Dispatch>, steps: seq<Step>, k: nat, j: nat)
    requires IsRun(run, steps) && k < j < |run| && steps[k].Prepare?
    ensures var revision := |run[k].observers| + 1;
            && |run[j].observers| >= revision
            && (revision in run[j].delivered ==> (revision in run[j].callbacks <==> InstalledBefore(steps, k)))
  {
    var revision := |run[k].observers| + 1;
    RunInstalls(run, steps, k);
    PreparedStays(run, steps, k + 1, j);
    RunKeepsInv(run, steps, j);
    var d := run[j];
    assert d.observers[revision - 1] == run[k].installed;
    if revision in d.delivered && d.observers[revision - 1] {
      var at := revision - 1 - (|d.delivered| - |d.callbacks|);
      assert at >= 0 && d.callbacks[at] == revision;
    }
  }

  lemma NeverQueuedTwice(d: Dispatch, p: nat)
    requires Reachable(d) && CanStep(d, Queue(p))
    ensures !QueuedTwice(d, Queue(p))
  {
    ReachableInv(d);
    QueueKeepsInv(d, p);
  }

  /** Once every publisher has returned, every prepared revision has been delivered. */
  lemma AllDeliveredAtQuiescence(d: Dispatch)
    requires Reachable(d) && forall p :: 0 <= p < |d.publishers| ==> d.publishers[p].Done?
    ensures |d.delivered| == |d.publishers| && d.pending == {} && !d.draining
  {
    ReachableInv(d);
  }
}

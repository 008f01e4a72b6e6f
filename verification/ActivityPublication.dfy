/** publish_ordered under any number of publishers: each event waits until every earlier revision
    has been published, calls the observer while it holds the publication lock, and passes the turn
    on. One step is one critical section of that lock. */
module ActivityPublication {
  import opened ActivityLog

  datatype PublisherPc = Carrying | Waiting | Done

  datatype Publication = Publication(
    publishers: seq<PublisherPc>,   // the thread that carries revision k + 1
    nextRevision: nat,
    published: seq<nat>)            // revisions the observer was called with, in order

  const START := Publication([], 1, [])

  datatype Step = Emit | Enter(p: nat) | Wake(p: nat)

  predicate CanStep(s: Publication, step: Step) {
    match step
    case Emit => true
    case Enter(p) => p < |s.publishers| && s.publishers[p].Carrying?
    case Wake(p) => p < |s.publishers| && s.publishers[p].Waiting?
  }

  /** "Activity event revision was already published". */
  predicate AssertionFails(s: Publication, step: Step) {
    step.Enter? && step.p + 1 < s.nextRevision
  }

  function TakeStep(s: Publication, step: Step): Publication
    requires CanStep(s, step)
  {
    match step
    case Emit => s.(publishers := s.publishers + [Carrying])
    case Enter(p) => Turn(s, p)
    case Wake(p) => Turn(s, p)
  }

  // The loop test of publish_ordered, and the body once the turn has come.
  function Turn(s: Publication, p: nat): Publication
    requires p < |s.publishers|
  {
    if p + 1 > s.nextRevision then s.(publishers := s.publishers[p := Waiting])
    else s.(publishers := s.publishers[p := Done],
            published := s.published + [p + 1],
            nextRevision := s.nextRevision + 1)
  }

  ghost predicate IsRun(run: seq<Publication>, steps: seq<Step>) {
    && |run| == |steps| + 1
    && run[0] == START
    && forall k :: 0 <= k < |steps| ==> CanStep(run[k], steps[k]) && run[k + 1] == TakeStep(run[k], steps[k])
  }

  ghost predicate Reachable(s: Publication) {
    exists run: seq<Publication>, steps: seq<Step> :: IsRun(run, steps) && run[|run| - 1] == s
  }

  predicate Inv(s: Publication) {
    && 1 <= s.nextRevision <= |s.publishers| + 1
    && (forall p :: 0 <= p < |s.publishers| ==> (s.publishers[p].Done? <==> p + 1 < s.nextRevision))
    && |s.published| == s.nextRevision - 1
    && (forall k :: 0 <= k < |s.published| ==> s.published[k] == k + 1)
  }

  lemma {:induction false} RunKeepsInv(run: seq<Publication>, steps: seq<Step>, k: nat)
    requires IsRun(run, steps) && k < |run|
    ensures Inv(run[k])
  {
    if k == 0 {
    } else {
      RunKeepsInv(run, steps, k - 1);
    }
  }

  /** In every reachable state: revisions are published as 1, 2, 3, ..., each once; the assertion
      never fires; and the next revision, if it exists, is held by a publisher whose step would
      publish it, so no publisher waits for a revision that nobody carries. */
  lemma PublishedInOrder(s: Publication, p: nat)
    requires Reachable(s)
    ensures |s.published| <= |s.publishers| && 1 <= s.nextRevision
    ensures forall k :: 0 <= k < |s.published| ==> s.published[k] == k + 1
    ensures CanStep(s, Enter(p)) ==> !AssertionFails(s, Enter(p))
    ensures s.nextRevision <= |s.publishers| ==>
              var holder := s.nextRevision - 1;
              && (CanStep(s, Enter(holder)) || CanStep(s, Wake(holder)))
              && Turn(s, holder).published == s.published + [s.nextRevision]
  {
    var run: seq<Publication>, steps: seq<Step> :| IsRun(run, steps) && run[|run| - 1] == s;
    RunKeepsInv(run, steps, |run| - 1);
  }

  lemma RunGrows(run: seq<Publication>, steps: seq<Step>, i: nat, j: nat)
    requires IsRun(run, steps) && i <= j < |run|
    ensures |run[i].publishers| <= |run[j].publishers| && |run[i].published| <= |run[j].published|
    decreases j
  {
    if i == j {
    } else {
      RunGrows(run, steps, i, j - 1);
    }
  }

  function Emitted(steps: seq<Step>): nat {
    if steps == [] then 0 else Emitted(steps[..|steps| - 1]) + if steps[|steps| - 1].Emit? then 1 else 0
  }

  /** Every change takes the next revision and a publisher that carries it. */
  lemma {:induction false} EveryChangeIsCarried(run: seq<Publication>, steps: seq<Step>, k: nat)
    requires IsRun(run, steps) && k < |run|
    ensures |run[k].publishers| == Emitted(steps[..k])
    ensures k < |steps| && steps[k].Emit? ==>
              CanStep(run[k + 1], Enter(|run[k].publishers|)) && |run[k + 1].publishers| == |run[k].publishers| + 1
  {
    if k == 0 {
    } else {
      EveryChangeIsCarried(run, steps, k - 1);
      assert steps[..k][..k - 1] == steps[..k - 1];
    }
  }

  // The subscriber's filter: events up to its snapshot's revision are dropped.
  function After(revisions: seq<nat>, at: nat): seq<nat> {
    if revisions == [] then []
    else (if revisions[0] > at then [revisions[0]] else []) + After(revisions[1..], at)
  }

  lemma {:induction false} AfterIs(revisions: seq<nat>, first: nat, at: nat)
    requires forall k :: 0 <= k < |revisions| ==> revisions[k] == first + k
    ensures first > at ==> After(revisions, at) == revisions
    ensures first <= at ==>
                After(revisions, at) == if first + |revisions| <= at + 1 then [] else revisions[at + 1 - first..]
  {
    if revisions == [] {
    } else {
      AfterIs(revisions[1..], first + 1, at);
    }
  }

  function ChangesOf(events: seq<Change>, revisions: seq<nat>): seq<Change>
    requires forall k :: 0 <= k < |revisions| ==> 1 <= revisions[k] <= |events|
  {
    seq(|revisions|, k requires 0 <= k < |revisions| => events[revisions[k] - 1])
  }

  // Of revisions without gap or repeat, those after `at` are too.
  lemma LaterAre(published: seq<nat>, from: nat, at: nat)
    requires from <= |published| && from <= at
    requires forall k :: 0 <= k < |published| ==> published[k] == k + 1
    ensures var kept := After(published[from..], at);
            && |kept| == (if |published| > at then |published| - at else 0)
            && forall m :: 0 <= m < |kept| ==> kept[m] == at + 1 + m
  {
    var received := published[from..];
    AfterIs(received, from + 1, at);
    if |published| > at {
      assert After(received, at) == received[at - from..];
    }
  }

  // What a subscriber keeps of the events: those after its snapshot, without gap or repeat.
  lemma KeptIs(run: seq<Publication>, steps: seq<Step>, i: nat, j: nat, k: nat)
    requires IsRun(run, steps) && i <= j <= k < |run|
    ensures |run[i].published| <= |run[k].published| <= |run[k].publishers|
    ensures |run[i].published| <= |run[j].publishers| <= |run[k].publishers|
    ensures var (at, kept) := (|run[j].publishers|, After(run[k].published[|run[i].published|..], |run[j].publishers|));
            && |kept| == (if |run[k].published| > at then |run[k].published| - at else 0)
            && forall m :: 0 <= m < |kept| ==> kept[m] == at + 1 + m
  {
    RunGrows(run, steps, i, j);
    RunGrows(run, steps, j, k);
    RunKeepsInv(run, steps, i);
    RunKeepsInv(run, steps, k);
    LaterAre(run[k].published, |run[i].published|, |run[j].publishers|);
  }

  /** A client subscribes at moment `i`, takes its snapshot at a later moment `j`, which may be ahead of
      publication, and applies what is published until moment `k` and is later than its snapshot. It then
      holds the records the Runtime had at the later of its snapshot and the last revision published; and
      so does the Workbench client, in whatever order. */
  lemma SubscriberCatchesUp(run: seq<Publication>, steps: seq<Step>, events: seq<Change>, i: nat, j: nat, k: nat)
    requires IsRun(run, steps) && i <= j <= k < |run| && |events| == |run[k].publishers|
    ensures |run[i].published| <= |run[k].published| && |run[j].publishers| <= |events|
    ensures var (at, last) := (|run[j].publishers|, |run[k].published|);
            var kept := After(run[k].published[|run[i].published|..], at);
            var now := if last > at then last else at;
            && now <= |events|
            && (forall m :: 0 <= m < |kept| ==> 1 <= kept[m] <= |events|)
            && Replay(Replay([], events[..at]), ChangesOf(events, kept)) == Replay([], events[..now])
            && SameRecords(ClientReplay(Replay([], events[..at]), ChangesOf(events, kept)), Replay([], events[..now]))
  {
    KeptIs(run, steps, i, j, k);
    var at, last := |run[j].publishers|, |run[k].published|;
    var kept := After(run[k].published[|run[i].published|..], at);
    var now := if last > at then last else at;
    assert ChangesOf(events, kept) == events[..now][at..];
    assert events[..now][..at] == events[..at];
    SnapshotPlusLaterEvents([], events[..now], at);
    ReplayKeepsUnique([], events[..at]);
    ClientHoldsTheRecords(Replay([], events[..at]), events[..now][at..]);
  }
}

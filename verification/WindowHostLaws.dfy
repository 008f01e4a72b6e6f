/** How each creation is settled: resolved with the window that opened for it, or rejected. */
module WindowHostLaws {
  import opened Options
  import opened WindowHostModel
  import opened WindowHostSafety

  /** The page of record `id`, which holds creation `t`, has loaded while the record was current, its window
      there, and the Desktop not ending. */
  predicate Opens(s: Host, step: Step, t: Token) {
    && step == LoadSettled(true) && s.running.AwaitLoad? && !s.shuttingDown
    && s.running.key in s.records && s.records[s.running.key].id == s.running.id
    && s.running.id !in s.destroyed
    && s.records[s.running.key].creation == Some(t)
  }

  // What was settled stays as it was; what is settled besides is rejected.
  predicate OnlyRejected(before: map<Token, Settlement>, after: map<Token, Settlement>) {
    && (forall t :: t in before ==> t in after && after[t] == before[t])
    && (forall t :: t in after && t !in before ==> after[t] == Rejected)
  }

  lemma DropRejects(s: Host, token: Token)
    ensures OnlyRejected(s.settled, DropCreation(s, token).settled)
  {}

  lemma ForgetRejects(s: Host, key: Key, destroy: bool)
    requires key in s.records
    ensures OnlyRejected(s.settled, Forget(s, key, destroy).settled)
  {}

  lemma ExitRejects(s: Host, destroyWindows: bool)
    ensures OnlyRejected(s.settled, Exit(s, destroyWindows).settled)
  {}

  lemma OpenFailedRejects(s: Host, key: Key, id: Option<nat>)
    ensures OnlyRejected(s.settled, OpenFailed(s, key, id).settled)
  {}

  lemma AfterTicketRejects(s: Host, outcome: TicketOutcome)
    requires s.running.AwaitTicket?
    ensures OnlyRejected(s.settled, AfterTicket(s, outcome).settled)
  {
    var key := s.running.key;
    if outcome.TicketFailed? || outcome.CreateFailed? {
      OpenFailedRejects(s, key, None);
    } else if outcome.PresentFailed? && !s.shuttingDown {
      OpenFailedRejects(AfterTicket(s, Opened), key, Some(s.nextRecord));
    }
  }

  lemma ClosedRejects(s: Host, key: Key, id: nat)
    ensures OnlyRejected(s.settled, Closed(s, key, id).settled)
  {
    if IsCurrent(s, key, id) {
      ForgetRejects(s, key, false);
      ExitRejects(Forget(s, key, false), false);
    }
  }

  lemma StartOpenRejects(s: Host)
    requires s.chain != []
    ensures OnlyRejected(s.settled, StartOpen(s).settled)
  {
    var popped := s.(chain := s.chain[1..]);
    if s.chain[0] in s.records {
      ForgetRejects(popped, s.chain[0], false);
    }
  }

  lemma OtherStepsReject(s: Host, step: Step)
    requires CanStep(s, step) && !step.LoadSettled?
    ensures OnlyRejected(s.settled, TakeStep(s, step).settled)
  {
    match step
    case ActivateFailed(token) => DropRejects(s.(awaiting := s.awaiting - {token}), token);
    case StartNext => StartOpenRejects(s);
    case TicketArrived(outcome) => AfterTicketRejects(s, outcome);
    case CleanupReturned(ok) => ExitRejects(s.(running := Idle), !ok);
    case WindowClosed(key, id) => ClosedRejects(s, key, id);
    case ReportFailed => ExitRejects(s, true);
    case ProductEnding => ExitRejects(s, true);
    case _ =>
  }

  predicate SettledNext(s: Host, step: Step, n: Host, t: Token) {
    && (t in s.settled ==> t in n.settled && n.settled[t] == s.settled[t])
    && (Opens(s, step, t) ==>
        && t !in s.settled && t in n.settled && n.settled[t] == Resolved(s.running.id)
        && s.running.key in n.records
        && n.records[s.running.key].id == s.running.id && n.records[s.running.key].phase.Live?
        && n.records[s.running.key].root == s.records[s.running.key].root)
    && (t in n.settled && t !in s.settled && !Opens(s, step, t) ==> n.settled[t] == Rejected)
  }

  lemma RunSettles(run: seq<Host>, steps: seq<Step>, k: nat, t: Token)
    requires IsRun(run, steps) && k < |steps|
    ensures SettledNext(run[k], steps[k], run[k + 1], t)
  {
    RunKeepsInv(run, steps, k);
    StepSettles(run[k], steps[k], t);
  }

  /** One step: a load that opens a window for a creation resolves it with that window, and leaves the
      record live under the root it had; every other settlement of any step is a rejection, and none is
      ever changed. */
  lemma StepSettles(s: Host, step: Step, t: Token)
    requires Inv(s) && CanStep(s, step)
    ensures SettledNext(s, step, TakeStep(s, step), t)
  {
    if step.LoadSettled? {
      LoadSettles(s, step.ok, t);
    } else {
      OtherStepsReject(s, step);
    }
  }

  lemma LoadSettles(s: Host, ok: bool, t: Token)
    requires Inv(s) && s.running.AwaitLoad?
    ensures SettledNext(s, LoadSettled(ok), AfterLoad(s, ok), t)
  {
    OpenFailedRejects(s, s.running.key, Some(s.running.id));
    assert Places(s.queue, s.pending, s.records, s.settled, t) == One(t < s.nextToken);
  }

  // The settlements of creation `t`, as far as every step of a run leaves them.
  predicate SettlesAlong(run: seq<Host>, steps: seq<Step>, t: Token) {
    && |run| == |steps| + 1 && t !in run[0].settled
    && forall k :: 0 <= k < |steps| ==> SettledNext(run[k], steps[k], run[k + 1], t)
  }

  predicate OpenedBefore(run: seq<Host>, steps: seq<Step>, t: Token, j: nat, window: nat)
    requires |run| == |steps| + 1 && j < |run|
  {
    exists k :: 0 <= k < j && Opens(run[k], steps[k], t) && run[k].running.id == window
  }

  lemma {:induction false} SettledAlong(run: seq<Host>, steps: seq<Step>, t: Token, j: nat)
    requires SettlesAlong(run, steps, t) && j < |run|
    ensures forall window: nat ::
              OpenedBefore(run, steps, t, j, window) <==> t in run[j].settled && run[j].settled[t] == Resolved(window)
    ensures forall k :: 0 <= k < j && Opens(run[k], steps[k], t) ==> t in run[j].settled
  {
    if j == 0 {
    } else {
      SettledAlong(run, steps, t, j - 1);
      assert SettledNext(run[j - 1], steps[j - 1], run[j], t);
      forall window: nat
        ensures OpenedBefore(run, steps, t, j, window)
           <==> OpenedBefore(run, steps, t, j - 1, window)
                || (Opens(run[j - 1], steps[j - 1], t) && run[j - 1].running.id == window)
      {}
    }
  }

  /** Over a whole run: a creation is settled with a window exactly when, at some moment before, the load
      of that window's record opened it for this creation; every other settlement is a rejection. */
  lemma ResolvedExactly(run: seq<Host>, steps: seq<Step>, j: nat, t: Token, window: nat)
    requires IsRun(run, steps) && j < |run|
    ensures t in run[j].settled && run[j].settled[t] == Resolved(window) <==> OpenedBefore(run, steps, t, j, window)
  {
    forall k | 0 <= k < |steps|
      ensures SettledNext(run[k], steps[k], run[k + 1], t)
    {
      RunSettles(run, steps, k, t);
    }
    assert SettlesAlong(run, steps, t);
    SettledAlong(run, steps, t, j);
  }

  // ---------- Its own root ----------

  /** The Project roots that windows were asked for, in the order of the creations. */
  function Roots(steps: seq<Step>): seq<Option<string>> {
    if steps == [] then []
    else
      var last := steps[|steps| - 1];
      Roots(steps[..|steps| - 1]) + if last.OpenWindow? then [last.root] else []
  }

  predicate QueueRoots(queue: seq<Creation>, roots: seq<Option<string>>) {
    forall k :: 0 <= k < |queue| ==> queue[k].token < |roots| && queue[k].root == roots[queue[k].token]
  }

  predicate PendingRoots(pending: map<Key, PendingOpen>, roots: seq<Option<string>>) {
    forall key :: key in pending && pending[key].creation.Some? ==>
      pending[key].creation.value < |roots| && pending[key].root == roots[pending[key].creation.value]
  }

  predicate RecordRoots(records: map<Key, WindowRecord>, roots: seq<Option<string>>) {
    forall key :: key in records && records[key].creation.Some? ==>
      records[key].creation.value < |roots| && records[key].root == roots[records[key].creation.value]
  }

  predicate RootsOk(s: Host, roots: seq<Option<string>>) {
    && |roots| == s.nextToken && QueueRoots(s.queue, roots)
    && PendingRoots(s.pending, roots) && RecordRoots(s.records, roots)
  }

  lemma ForgetKeepsRoots(s: Host, key: Key, destroy: bool, roots: seq<Option<string>>)
    requires RootsOk(s, roots) && key in s.records
    ensures RootsOk(Forget(s, key, destroy), roots)
  {}

  lemma ExitKeepsRoots(s: Host, destroyWindows: bool, roots: seq<Option<string>>)
    requires RootsOk(s, roots)
    ensures RootsOk(Exit(s, destroyWindows), roots)
  {}

  lemma OpenFailedKeepsRoots(s: Host, key: Key, id: Option<nat>, roots: seq<Option<string>>)
    requires RootsOk(s, roots)
    ensures RootsOk(OpenFailed(s, key, id), roots)
  {}

  lemma AfterTicketKeepsRoots(s: Host, outcome: TicketOutcome, roots: seq<Option<string>>)
    requires RootsOk(s, roots) && s.running.AwaitTicket?
    ensures RootsOk(AfterTicket(s, outcome), roots)
  {
    var key := s.running.key;
    if outcome.TicketFailed? || outcome.CreateFailed? {
      OpenFailedKeepsRoots(s, key, None, roots);
    } else if outcome.PresentFailed? && !s.shuttingDown {
      assert RootsOk(AfterTicket(s, Opened), roots);
      OpenFailedKeepsRoots(AfterTicket(s, Opened), key, Some(s.nextRecord), roots);
    }
  }

  lemma AfterLoadKeepsRoots(s: Host, ok: bool, roots: seq<Option<string>>)
    requires RootsOk(s, roots) && s.running.AwaitLoad?
    ensures RootsOk(AfterLoad(s, ok), roots)
  {
    OpenFailedKeepsRoots(s, s.running.key, Some(s.running.id), roots);
  }

  lemma ClosedKeepsRoots(s: Host, key: Key, id: nat, roots: seq<Option<string>>)
    requires RootsOk(s, roots)
    ensures RootsOk(Closed(s, key, id), roots)
  {
    if IsCurrent(s, key, id) {
      ForgetKeepsRoots(s, key, false, roots);
      ExitKeepsRoots(Forget(s, key, false), false, roots);
    }
  }

  lemma OpenWindowKeepsRoots(s: Host, root: Option<string>, roots: seq<Option<string>>)
    requires RootsOk(s, roots)
    ensures RootsOk(TakeStep(s, OpenWindow(root)), roots + [root])
  {}

  lemma ActivateFailedKeepsRoots(s: Host, token: Token, roots: seq<Option<string>>)
    requires RootsOk(s, roots) && token in s.awaiting
    ensures RootsOk(TakeStep(s, ActivateFailed(token)), roots)
  {
    var index := IndexOf(s.queue, token);
    if index >= 0 {
      TakenOutKeepsRoots(s.queue, index, roots);
    }
  }

  lemma TakenOutKeepsRoots(queue: seq<Creation>, index: nat, roots: seq<Option<string>>)
    requires QueueRoots(queue, roots) && index < |queue|
    ensures QueueRoots(queue[..index] + queue[index + 1..], roots)
  {
    var rest := queue[..index] + queue[index + 1..];
    assert forall k :: 0 <= k < |rest| ==> rest[k] == queue[if k < index then k else k + 1];
  }

  lemma RequestOpenKeepsRoots(s: Host, key: Key, roots: seq<Option<string>>)
    requires RootsOk(s, roots)
    ensures RootsOk(RequestOpen(s, key), roots)
  {}

  lemma StartOpenKeepsRoots(s: Host, roots: seq<Option<string>>)
    requires RootsOk(s, roots) && s.chain != []
    ensures RootsOk(StartOpen(s), roots)
  {
    if s.chain[0] in s.records {
      ForgetKeepsRoots(s.(chain := s.chain[1..]), s.chain[0], false, roots);
    }
  }

  lemma FocusKeepsRoots(s: Host, key: Key, roots: seq<Option<string>>)
    requires RootsOk(s, roots)
    ensures RootsOk(Focus(s, key), roots)
  {}

  lemma StepKeepsRoots(s: Host, step: Step, roots: seq<Option<string>>)
    requires RootsOk(s, roots) && CanStep(s, step)
    ensures RootsOk(TakeStep(s, step), roots + if step.OpenWindow? then [step.root] else [])
  {
    assert roots + [] == roots;
    match step
    case OpenWindow(root) => OpenWindowKeepsRoots(s, root, roots);
    case ActivateFailed(token) => ActivateFailedKeepsRoots(s, token, roots);
    case OpenRequested(key) => RequestOpenKeepsRoots(s, key, roots);
    case StartNext => StartOpenKeepsRoots(s, roots);
    case FocusRequested(key) => FocusKeepsRoots(s, key, roots);
    case TicketArrived(outcome) => AfterTicketKeepsRoots(s, outcome, roots);
    case LoadSettled(ok) => AfterLoadKeepsRoots(s, ok, roots);
    case CleanupReturned(ok) => ExitKeepsRoots(s.(running := Idle), !ok, roots);
    case WindowClosed(key, id) => ClosedKeepsRoots(s, key, id, roots);
    case ReportFailed => ExitKeepsRoots(s, true, roots);
    case ProductEnding => ExitKeepsRoots(s, true, roots);
    case _ =>
  }

  lemma {:induction false} RunKeepsRoots(run: seq<Host>, steps: seq<Step>, k: nat)
    requires IsRun(run, steps) && k < |run|
    ensures RootsOk(run[k], Roots(steps[..k]))
  {
    if k == 0 {
    } else {
      RunKeepsRoots(run, steps, k - 1);
      StepKeepsRoots(run[k - 1], steps[k - 1], Roots(steps[..k - 1]));
      assert steps[..k][..k - 1] == steps[..k - 1];
    }
  }

  /** The window that opens for a creation opens for the root it was asked for. */
  lemma OpensItsRoot(run: seq<Host>, steps: seq<Step>, k: nat, t: Token)
    requires IsRun(run, steps) && k < |steps| && Opens(run[k], steps[k], t)
    ensures t < |Roots(steps[..k])| && run[k].running.key in run[k + 1].records
    ensures run[k + 1].records[run[k].running.key].root == Roots(steps[..k])[t]
  {
    RunKeepsRoots(run, steps, k);
    RunSettles(run, steps, k, t);
  }

  // ---------- When the Desktop ends ----------

  lemma OpeningGoesOn(s: Host, outcome: TicketOutcome)
    requires !s.shuttingDown && s.running.AwaitTicket?
    ensures !AfterTicket(s, outcome).shuttingDown
  {}

  lemma LoadingGoesOn(s: Host, ok: bool)
    requires !s.shuttingDown && s.running.AwaitLoad?
    ensures !AfterLoad(s, ok).shuttingDown
  {}

  lemma StartingGoesOn(s: Host)
    requires !s.shuttingDown && s.chain != []
    ensures !StartOpen(s).shuttingDown
  {}

  lemma ExitDestroys(s: Host, destroyWindows: bool)
    requires !s.shuttingDown
    ensures Exit(s, destroyWindows).shuttingDown
    ensures destroyWindows ==> forall key :: key in s.records ==> s.records[key].id in Exit(s, true).destroyed
  {}

  lemma ClosingEnds(s: Host, key: Key, id: nat)
    requires !s.shuttingDown
    ensures Closed(s, key, id).shuttingDown <==> IsCurrent(s, key, id) && s.records.Keys == {key}
  {
    if IsCurrent(s, key, id) {
      OnlyRecord(s.records, key);
      var forgotten := Forget(s, key, false);
      assert !forgotten.shuttingDown && forgotten.records == s.records - {key};
      ExitDestroys(forgotten, false);
    }
  }

  lemma CleanupEnds(s: Host, ok: bool)
    requires !s.shuttingDown
    ensures AfterCleanup(s, ok).shuttingDown <==> !ok || s.records == map[]
    ensures AfterCleanup(s, ok).shuttingDown ==>
              forall key :: key in s.records ==> s.records[key].id in AfterCleanup(s, ok).destroyed
  {
    ExitDestroys(s.(running := Idle), !ok);
    if |s.records| == 0 {
      EmptyRecords(s.records);
    }
  }

  /** The Desktop ends with exactly these steps: a report that fails, the end of the product, a cleanup that
      fails, and one that returns, or a current window that closes, when no other window is left. It
      destroys the windows that are open then. */
  lemma EndsExactly(s: Host, step: Step)
    requires CanStep(s, step) && !s.shuttingDown
    ensures TakeStep(s, step).shuttingDown <==>
              || step.ReportFailed? || step.ProductEnding?
              || (step.CleanupReturned? && (!step.ok || s.records == map[]))
              || (step.WindowClosed? && IsCurrent(s, step.key, step.id) && s.records.Keys == {step.key})
    ensures TakeStep(s, step).shuttingDown && !step.WindowClosed? ==>
              forall key :: key in s.records ==> s.records[key].id in TakeStep(s, step).destroyed
    ensures step.CleanupReturned? && !TakeStep(s, step).shuttingDown ==> TakeStep(s, step) == s.(running := Idle)
  {
    match step
    case StartNext => StartingGoesOn(s);
    case TicketArrived(outcome) => OpeningGoesOn(s, outcome);
    case LoadSettled(ok) => LoadingGoesOn(s, ok);
    case CleanupReturned(ok) => CleanupEnds(s, ok);
    case WindowClosed(key, id) => ClosingEnds(s, key, id);
    case ReportFailed => ExitDestroys(s, true);
    case ProductEnding => ExitDestroys(s, true);
    case _ =>
  }

  lemma OnlyRecord(records: map<Key, WindowRecord>, key: Key)
    requires key in records
    ensures |records - {key}| == 0 <==> records.Keys == {key}
  {
    assert (records - {key}).Keys == records.Keys - {key};
    if |records - {key}| == 0 {
      assert records.Keys - {key} == {};
    }
  }

  /** A focus request is remembered by the request or the opening window of its key, and changes nothing
      else; a window that is opened takes over what its request remembers. */
  lemma FocusIsRemembered(s: Host, key: Key)
    requires !s.shuttingDown
    ensures var n := TakeStep(s, FocusRequested(key));
            && (key in s.pending && key !in s.records ==> n.pending[key].focusRequested)
            && (key in s.records && s.records[key].phase.Opening? && s.records[key].id !in s.destroyed ==>
                n.records[key].focusRequested)
            && n.pending.Keys == s.pending.Keys && n.records.Keys == s.records.Keys
            && n == s.(pending := n.pending, records := n.records)
            && (key in s.records && (s.records[key].phase.Live? || s.records[key].id in s.destroyed) ==> n == s)
            && (key !in s.records && key !in s.pending ==> n == s)
    ensures s.running == AwaitTicket(key) && key in s.pending ==>
              var n := TakeStep(s, TicketArrived(Opened));
              && key in n.records && n.records[key].focusRequested == s.pending[key].focusRequested
              && n.records[key].root == s.pending[key].root && n.records[key].creation == s.pending[key].creation
  {}

  // ---------- Requests, operations and windows ----------

  /** The windows and the requests of all other keys are as they were. */
  ghost predicate OthersKept(s: Host, n: Host, key: Key) {
    && (forall k :: k != key ==> (k in n.records <==> k in s.records) && (k in n.pending <==> k in s.pending))
    && (forall k :: k != key && k in s.records ==> n.records[k] == s.records[k])
    && (forall k :: k != key && k in s.pending ==> n.pending[k] == s.pending[k])
  }

  // Creations in the order they were made, with the next token still to come.
  predicate InOrder(queue: seq<Creation>, next: Token) {
    && (forall k :: 0 <= k < |queue| ==> queue[k].token < next)
    && (forall j, k :: 0 <= j < k < |queue| ==> queue[j].token < queue[k].token)
  }

  lemma TakenOutKeepsOrder(queue: seq<Creation>, next: Token, index: nat)
    requires InOrder(queue, next) && index < |queue|
    ensures InOrder(queue[..index] + queue[index + 1..], next)
  {
    var rest := queue[..index] + queue[index + 1..];
    assert forall k :: 0 <= k < |rest| ==> rest[k] == queue[if k < index then k else k + 1];
  }

  predicate QueueKept(s: Host, n: Host) {
    n.nextToken == s.nextToken && n.queue == s.queue
  }

  lemma TicketKeepsQueue(s: Host, outcome: TicketOutcome)
    requires s.running.AwaitTicket?
    ensures QueueKept(s, AfterTicket(s, outcome))
  {}

  lemma LoadKeepsQueue(s: Host, ok: bool)
    requires s.running.AwaitLoad?
    ensures QueueKept(s, AfterLoad(s, ok))
  {}

  lemma StartKeepsQueue(s: Host)
    requires s.chain != []
    ensures QueueKept(s, StartOpen(s))
  {}

  lemma ExitEmptiesQueue(s: Host, destroyWindows: bool)
    ensures QueueKept(if s.shuttingDown then s else s.(queue := []), Exit(s, destroyWindows))
  {}

  lemma RequestKeepsOrder(s: Host, key: Key)
    requires InOrder(s.queue, s.nextToken)
    ensures InOrder(RequestOpen(s, key).queue, RequestOpen(s, key).nextToken)
  {}

  lemma ClosedKeepsOrder(s: Host, key: Key, id: nat)
    requires InOrder(s.queue, s.nextToken)
    ensures InOrder(Closed(s, key, id).queue, Closed(s, key, id).nextToken)
  {
    if IsCurrent(s, key, id) {
      var forgotten := Forget(s, key, false);
      assert QueueKept(s, forgotten);
      ExitEmptiesQueue(forgotten, false);
    }
  }

  lemma StepKeepsOrder(s: Host, step: Step)
    requires InOrder(s.queue, s.nextToken) && CanStep(s, step)
    ensures InOrder(TakeStep(s, step).queue, TakeStep(s, step).nextToken)
  {
    match step
    case ActivateFailed(token) =>
      var index := IndexOf(s.queue, token);
      if index >= 0 {
        TakenOutKeepsOrder(s.queue, s.nextToken, index);
      }
    case OpenRequested(key) => RequestKeepsOrder(s, key);
    case StartNext => StartKeepsQueue(s);
    case TicketArrived(outcome) => TicketKeepsQueue(s, outcome);
    case LoadSettled(ok) => LoadKeepsQueue(s, ok);
    case CleanupReturned(ok) => ExitEmptiesQueue(s.(running := Idle), !ok);
    case WindowClosed(key, id) => ClosedKeepsOrder(s, key, id);
    case ReportFailed => ExitEmptiesQueue(s, true);
    case ProductEnding => ExitEmptiesQueue(s, true);
    case _ =>
  }

  lemma {:induction false} RunKeepsOrder(run: seq<Host>, steps: seq<Step>, k: nat)
    requires IsRun(run, steps) && k < |run|
    ensures InOrder(run[k].queue, run[k].nextToken)
  {
    if k == 0 {
    } else {
      RunKeepsOrder(run, steps, k - 1);
      StepKeepsOrder(run[k - 1], steps[k - 1]);
    }
  }

  /** A request for a window that is neither there nor asked for takes over the creation that waits longest,
      with its root, and leaves the others waiting; without one it asks for a window with no root. Any other
      request takes none. An operation is put at the end of the chain either way. */
  lemma RequestServesOldest(s: Host, key: Key)
    requires Reachable(s)
    ensures var n := TakeStep(s, OpenRequested(key));
            && n.chain == s.chain + [key] && n.records == s.records && n.running == s.running
            && OthersKept(s, n, key)
            && if s.shuttingDown || key in s.records || key in s.pending then
                 n.queue == s.queue && n.pending == s.pending
               else
                 && key in n.pending && !n.pending[key].focusRequested
                 && (s.queue == [] ==> n.queue == [] && n.pending[key].creation.None? && n.pending[key].root.None?)
                 && (forall c :: c in s.queue ==>
                       && n.pending[key].creation.Some? && n.pending[key].creation.value <= c.token
                       && (c in n.queue <==> c.token != n.pending[key].creation.value)
                       && (c.token == n.pending[key].creation.value ==> n.pending[key].root == c.root))
  {
    var run: seq<Host>, steps: seq<Step> :| IsRun(run, steps) && run[|run| - 1] == s;
    RunKeepsOrder(run, steps, |run| - 1);
  }

  /** The next operation of the chain: if its window is there, it is over at once and the window is kept; if
      not, its ticket is awaited, with the request kept, and a window that is destroyed is forgotten. It
      destroys nothing. */
  lemma StartsExactly(s: Host)
    requires Reachable(s) && CanStep(s, StartNext)
    ensures var (key, n) := (s.chain[0], TakeStep(s, StartNext));
            && n.chain == s.chain[1..] && n.destroyed == s.destroyed && OthersKept(s, n, key)
            && if s.shuttingDown then n.running.Idle?
               else if key in s.records && s.records[key].id !in s.destroyed then
                 n.running.Idle? && key in n.records && n.records[key] == s.records[key]
               else
                 && n.running == AwaitTicket(key) && key !in n.records
                 && (key in s.pending ==> key in n.pending && n.pending[key] == s.pending[key])
  {
    ReachableInv(s);
  }

  /** The steps at which opening the window of the running operation fails: no ticket, no window, one that
      cannot be presented, a page that does not load, or a window destroyed while it loaded. */
  predicate OpenFails(s: Host, step: Step) {
    && !s.shuttingDown
    && (|| (step.TicketArrived? && s.running.AwaitTicket? && !step.outcome.Opened?)
        || (step.LoadSettled? && s.running.AwaitLoad? && IsCurrent(s, s.running.key, s.running.id)
            && (!step.ok || s.running.id in s.destroyed)))
  }

  /** The window that such a step destroys, if there is one. */
  predicate FailedWindow(s: Host, step: Step, id: nat) {
    || (step == TicketArrived(PresentFailed) && id == s.nextRecord)
    || (step.LoadSettled? && s.running.AwaitLoad? && id == s.running.id)
  }

  /** An opening that fails leaves neither a window nor a request for its key, destroys the window it had,
      and waits for the cleanup. Other windows are left alone. */
  lemma FailureForgets(s: Host, step: Step)
    requires Reachable(s) && CanStep(s, step) && OpenFails(s, step)
    ensures var (key, n) := (s.running.key, TakeStep(s, step));
            && n.running == AwaitCleanup(key) && key !in n.records && key !in n.pending
            && OthersKept(s, n, key) && !n.shuttingDown
            && forall id :: id in n.destroyed <==> id in s.destroyed || FailedWindow(s, step, id)
  {
    ReachableInv(s);
    if step.TicketArrived? {
      TicketFails(s, step.outcome);
    } else {
      LoadFails(s, step.ok);
    }
  }

  lemma TicketFails(s: Host, outcome: TicketOutcome)
    requires Inv(s) && s.running.AwaitTicket? && !s.shuttingDown && !outcome.Opened?
    ensures var (key, n) := (s.running.key, AfterTicket(s, outcome));
            && n.running == AwaitCleanup(key) && key !in n.records && key !in n.pending
            && OthersKept(s, n, key) && !n.shuttingDown
            && n.destroyed == s.destroyed + if outcome.PresentFailed? then {s.nextRecord} else {}
  {
    var key := s.running.key;
    if outcome.PresentFailed? {
      var shown := AfterTicket(s, Opened);
      assert OthersKept(s, shown, key) && shown.records[key].id == s.nextRecord;
      OpenFailedForgets(shown, key, Some(s.nextRecord));
    } else {
      OpenFailedForgets(s, key, None);
    }
  }

  lemma OpenFailedForgets(s: Host, key: Key, id: Option<nat>)
    requires !s.shuttingDown && if id.Some? then IsCurrent(s, key, id.value) else key !in s.records
    ensures var n := OpenFailed(s, key, id);
            && n.running == AwaitCleanup(key) && key !in n.records && key !in n.pending
            && OthersKept(s, n, key) && !n.shuttingDown
            && n.destroyed == s.destroyed + if id.Some? then {id.value} else {}
  {}

  lemma LoadFails(s: Host, ok: bool)
    requires Inv(s) && s.running.AwaitLoad? && !s.shuttingDown && IsCurrent(s, s.running.key, s.running.id)
    requires !ok || s.running.id in s.destroyed
    ensures var (key, n) := (s.running.key, AfterLoad(s, ok));
            && n.running == AwaitCleanup(key) && key !in n.records && key !in n.pending
            && OthersKept(s, n, key) && !n.shuttingDown && n.destroyed == s.destroyed + {s.running.id}
  {
    OpenFailedForgets(s, s.running.key, Some(s.running.id));
  }

  /** A window that is opened: its record is new and opening, its request is gone, its load is awaited. */
  lemma OpeningShows(s: Host)
    requires Reachable(s) && s.running.AwaitTicket? && !s.shuttingDown
    ensures var (key, n) := (s.running.key, TakeStep(s, TicketArrived(Opened)));
            && n.running == AwaitLoad(key, s.nextRecord) && n.nextRecord == s.nextRecord + 1
            && key in n.records && n.records[key].id == s.nextRecord && n.records[key].phase.Opening?
            && (key !in s.pending ==> !n.records[key].focusRequested && n.records[key].root.None?
                                      && n.records[key].creation.None?)
            && key !in n.pending && OthersKept(s, n, key) && n.destroyed == s.destroyed
  {
    ReachableInv(s);
  }

  /** Where each step leaves the running operation: it goes from the ticket to the load, to the cleanup
      exactly if the opening fails, and is over otherwise; only the next operation of the chain, once the
      one before is over, starts one, and events from outside leave it alone. */
  lemma OperationGoesOn(s: Host, step: Step)
    requires Reachable(s) && CanStep(s, step)
    ensures var n := TakeStep(s, step);
            if OpenFails(s, step) then n.running == AwaitCleanup(s.running.key)
            else if step.StartNext? then n.running.Idle? || n.running == AwaitTicket(s.chain[0])
            else if step.TicketArrived? && !s.shuttingDown then n.running == AwaitLoad(s.running.key, s.nextRecord)
            else if step.TicketArrived? || step.LoadSettled? || step.CleanupReturned? then n.running.Idle?
            else n.running == s.running
  {
    if OpenFails(s, step) {
      FailureForgets(s, step);
    } else {
      match step
      case StartNext => StartsExactly(s);
      case TicketArrived(outcome) => TicketMovesOn(s, outcome);
      case LoadSettled(ok) => LoadMovesOn(s, ok);
      case WindowClosed(key, id) => ClosingLeavesRunning(s, key, id);
      case _ =>
    }
  }

  lemma TicketMovesOn(s: Host, outcome: TicketOutcome)
    requires s.running.AwaitTicket? && (s.shuttingDown || outcome.Opened?)
    ensures AfterTicket(s, outcome).running == if s.shuttingDown then Idle else AwaitLoad(s.running.key, s.nextRecord)
  {}

  lemma LoadMovesOn(s: Host, ok: bool)
    requires s.running.AwaitLoad? && !OpenFails(s, LoadSettled(ok))
    ensures AfterLoad(s, ok).running.Idle?
  {}

  lemma ClosingLeavesRunning(s: Host, key: Key, id: nat)
    ensures Closed(s, key, id).running == s.running
  {}

  /** What comes for a window that is not the present one of its key changes nothing, but that the operation
      that waited for its load is over. */
  lemma OldWindowsChangeNothing(s: Host, step: Step)
    requires CanStep(s, step)
    ensures step.WindowClosed? && !IsCurrent(s, step.key, step.id) ==> TakeStep(s, step) == s
    ensures step.LoadSettled? && (s.shuttingDown || !IsCurrent(s, s.running.key, s.running.id)) ==>
              TakeStep(s, step) == s.(running := Idle)
    ensures step.WindowClosed? ==>
              (IsCurrent(s, step.key, step.id) <==> step.key in s.records && s.records[step.key].id == step.id)
  {}

  /** A window that is closed while others are left is forgotten, and they are not. */
  lemma ClosedIsForgotten(s: Host, key: Key, id: nat)
    requires IsCurrent(s, key, id) && s.records.Keys != {key}
    ensures var n := TakeStep(s, WindowClosed(key, id));
            key !in n.records && OthersKept(s, n, key) && n.destroyed == s.destroyed
  {
    OnlyRecord(s.records, key);
    ForgottenAlone(s, key);
  }

  lemma ForgottenAlone(s: Host, key: Key)
    requires key in s.records
    ensures var n := Forget(s, key, false);
            n.records == s.records - {key} && OthersKept(s, n, key) && n.destroyed == s.destroyed
  {}

  /** The other steps destroy no window: only an opening that fails, the end of the Desktop, and the outside
      world do. */
  lemma NothingElseDestroys(s: Host, step: Step)
    requires Reachable(s) && CanStep(s, step) && !OpenFails(s, step) && !step.WindowDestroyed?
    requires !TakeStep(s, step).shuttingDown || s.shuttingDown
    ensures TakeStep(s, step).destroyed == s.destroyed
  {
    ReachableInv(s);
    match step
    case StartNext => StartsExactly(s);
    case TicketArrived(outcome) =>
      if !s.shuttingDown {
        OpeningShows(s);
      }
    case LoadSettled(ok) => LoadingDestroysNothing(s, ok);
    case WindowClosed(key, id) => ClosingDestroysNothing(s, key, id);
    case _ =>
  }

  lemma ClosingDestroysNothing(s: Host, key: Key, id: nat)
    ensures Closed(s, key, id).destroyed == s.destroyed
  {}

  lemma LoadingDestroysNothing(s: Host, ok: bool)
    requires s.running.AwaitLoad? && !OpenFails(s, LoadSettled(ok))
    ensures AfterLoad(s, ok).destroyed == s.destroyed
  {}
}

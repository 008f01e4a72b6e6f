/** The Desktop window host between awaits. Every function below is one synchronous stretch of the
    host's code: what runs from an event, a settled promise or a timer until the next await. A
    creation is a token: the promise pair of one `openWindow` call. */
module WindowHostModel {
  import opened Options

  type Key = string
  type Token = nat

  datatype Creation = Creation(token: Token, root: Option<string>)

  datatype PendingOpen = PendingOpen(focusRequested: bool, root: Option<string>, creation: Option<Token>)

  datatype WindowPhase = Opening | Live

  /** `id` is the identity of the record object; `window` answers for its native window. */
  datatype WindowRecord = WindowRecord(
    id: nat, phase: WindowPhase, root: Option<string>, focusRequested: bool, creation: Option<Token>)

  datatype Settlement = Resolved(window: nat) | Rejected

  /** Where the one running open operation is suspended. */
  datatype Running =
    | Idle
    | AwaitTicket(key: Key)
    | AwaitLoad(key: Key, id: nat)
    | AwaitCleanup(key: Key)

  datatype Host = Host(
    records: map<Key, WindowRecord>,
    pending: map<Key, PendingOpen>,
    queue: seq<Creation>,
    destroyed: set<nat>,                 // records whose native window is destroyed
    shuttingDown: bool,
    chain: seq<Key>,                     // open operations not started yet
    running: Running,
    nextToken: Token,
    nextRecord: nat,
    settled: map<Token, Settlement>,
    settledTwice: set<Token>,            // tokens a second settlement was attempted on
    tokensAtShutdown: Token,
    awaiting: set<Token>)                // creations whose activation is not answered yet

  const START := Host(map[], map[], [], {}, false, [], Idle, 0, 0, map[], {}, 0, {})

  function Settle(s: Host, t: Option<Token>, how: Settlement): Host {
    match t
    case None => s
    case Some(token) =>
      if token in s.settled then s.(settledTwice := s.settledTwice + {token})
      else s.(settled := s.settled[token := how])
  }

  // forgetRecord of a current record; its window is gone afterwards when `destroy` is set.
  function Forget(s: Host, key: Key, destroy: bool): Host
    requires key in s.records
  {
    var record := s.records[key];
    Settle(s.(records := s.records - {key}, pending := s.pending - {key},
              destroyed := if destroy then s.destroyed + {record.id} else s.destroyed),
           record.creation, Rejected)
  }

  predicate IsCurrent(s: Host, key: Key, id: nat) {
    key in s.records && s.records[key].id == id
  }

  function PendingTokens(pending: map<Key, PendingOpen>): set<Token> {
    set k | k in pending && pending[k].creation.Some? :: pending[k].creation.value
  }

  function RecordTokens(records: map<Key, WindowRecord>): set<Token> {
    set k | k in records && records[k].creation.Some? :: records[k].creation.value
  }

  function QueueTokens(queue: seq<Creation>): set<Token> {
    set c | c in queue :: c.token
  }

  function SettleAll(s: Host, tokens: set<Token>): Host {
    s.(settled := s.settled + (map t | t in tokens && t !in s.settled :: Rejected),
       settledTwice := s.settledTwice + (set t | t in tokens && t in s.settled))
  }

  // exitDesktopOnly, run at most once. It also closes the control channel.
  function Exit(s: Host, destroyWindows: bool): Host {
    if s.shuttingDown then s
    else
      var forgotten := if destroyWindows then RecordTokens(s.records) else {};
      var kept := if destroyWindows then map[] else s.records;
      var gone := if destroyWindows then s.destroyed + (set k | k in s.records :: s.records[k].id) else s.destroyed;
      // forgetRecord deletes the record's own pending request before the others are rejected
      var others := if destroyWindows then s.pending - s.records.Keys else s.pending;
      var cleared := s.(shuttingDown := true, records := kept, destroyed := gone, pending := map[], queue := [],
                        tokensAtShutdown := s.nextToken);
      SettleAll(SettleAll(SettleAll(cleared, forgotten), PendingTokens(others)), QueueTokens(s.queue))
  }

  datatype TicketOutcome = TicketFailed | CreateFailed | PresentFailed | Opened

  datatype Step =
    | OpenWindow(root: Option<string>)
    | Activated(token: Token)
    | ActivateFailed(token: Token)
    | OpenRequested(key: Key)
    | StartNext
    | TicketArrived(outcome: TicketOutcome)
    | LoadSettled(ok: bool)
    | CleanupReturned(ok: bool)
    | FocusRequested(key: Key)
    | WindowDestroyed(key: Key)
    | WindowClosed(key: Key, id: nat)
    | ReportFailed
    | ProductEnding

  predicate CanStep(s: Host, step: Step) {
    match step
    case StartNext => s.running.Idle? && s.chain != []
    case TicketArrived(_) => s.running.AwaitTicket?
    case LoadSettled(_) => s.running.AwaitLoad?
    case CleanupReturned(_) => s.running.AwaitCleanup?
    // a closed channel refuses every later request, so only an answer from before can still succeed
    case Activated(token) => token in s.awaiting && (s.shuttingDown ==> token < s.tokensAtShutdown)
    case ActivateFailed(token) => token in s.awaiting
    case WindowDestroyed(key) => key in s.records
    case _ => true
  }

  function IndexOf(queue: seq<Creation>, token: Token): (index: int)
    ensures -1 <= index < |queue|
    ensures index >= 0 ==> queue[index].token == token
    ensures index < 0 ==> forall k :: 0 <= k < |queue| ==> queue[k].token != token
  {
    if queue == [] then -1
    else if queue[0].token == token then 0
    else
      var rest := IndexOf(queue[1..], token);
      assert forall k :: 1 <= k < |queue| ==> queue[k] == queue[1..][k - 1];
      if rest < 0 then -1 else rest + 1
  }

  // The catch block of openWindow.
  function DropCreation(s: Host, token: Token): Host {
    var index := IndexOf(s.queue, token);
    if index < 0 then s
    else Settle(s.(queue := s.queue[..index] + s.queue[index + 1..]), Some(token), Rejected)
  }

  // receiveEvent for desktop_window_open_requested.
  function RequestOpen(s: Host, key: Key): Host {
    var queued := s.(chain := s.chain + [key]);
    if s.shuttingDown || key in s.records || key in s.pending then queued
    else if s.queue == [] then queued.(pending := s.pending[key := PendingOpen(false, None, None)])
    else
      var creation := s.queue[0];
      queued.(queue := s.queue[1..],
              pending := s.pending[key := PendingOpen(false, creation.root, Some(creation.token))])
  }

  // openRequestedWindow up to its first await.
  function StartOpen(s: Host): Host
    requires s.chain != []
  {
    var key := s.chain[0];
    var popped := s.(chain := s.chain[1..]);
    if s.shuttingDown then popped
    else if key !in s.records then popped.(running := AwaitTicket(key))
    else if s.records[key].id in s.destroyed then Forget(popped, key, false).(running := AwaitTicket(key))
    else
      var existing := s.records[key];
      popped.(pending := s.pending - {key},
              records := if existing.phase.Opening? then s.records[key := existing.(focusRequested := true)]
                  else s.records)
  }

  // The catch block of openRequestedWindow, and handleOpenFailure up to its await.
  function OpenFailed(s: Host, key: Key, id: Option<nat>): Host {
    if s.shuttingDown || (id.Some? && !IsCurrent(s, key, id.value)) then s.(running := Idle)
    else
      var own := if id.Some? then s.records[key].creation else None;
      var creation := if own.Some? then own
                      else if key in s.pending then s.pending[key].creation else None;
      var rejected := Settle(s, creation, Rejected);
      var cleared := rejected.(pending := s.pending - {key});
      (if id.Some? then
         Forget(cleared.(records := cleared.records[key := cleared.records[key].(creation := None)]), key, true)
       else cleared).(running := AwaitCleanup(key))
  }

  // From the launch ticket to the await of the page load.
  function AfterTicket(s: Host, outcome: TicketOutcome): Host
    requires s.running.AwaitTicket?
  {
    var key := s.running.key;
    if outcome.TicketFailed? then OpenFailed(s, key, None)
    else if s.shuttingDown then s.(running := Idle)
    else if outcome.CreateFailed? then OpenFailed(s, key, None)
    else
      var request := if key in s.pending then s.pending[key] else PendingOpen(false, None, None);
      var record := WindowRecord(s.nextRecord, Opening, request.root, request.focusRequested, request.creation);
      var shown := s.(records := s.records[key := record], pending := s.pending - {key},
                       nextRecord := s.nextRecord + 1, running := AwaitLoad(key, record.id));
      if outcome.PresentFailed? then OpenFailed(shown, key, Some(record.id)) else shown
  }

  function AfterLoad(s: Host, ok: bool): Host
    requires s.running.AwaitLoad?
  {
    var key, id := s.running.key, s.running.id;
    if !ok then OpenFailed(s, key, Some(id))
    else if !IsCurrent(s, key, id) || s.shuttingDown then s.(running := Idle)
    else if id in s.destroyed then OpenFailed(s, key, Some(id))
    else
      var record := s.records[key];
      Settle(s, record.creation, Resolved(id))
        .(records := s.records[key := record.(phase := Live, creation := None)], running := Idle)
  }

  function AfterCleanup(s: Host, ok: bool): Host {
    var done := s.(running := Idle);
    if s.shuttingDown then done
    else if !ok then Exit(done, true)
    else if |s.records| == 0 then Exit(done, false)
    else done
  }

  function Focus(s: Host, key: Key): Host {
    if s.shuttingDown then s
    else if key !in s.records then
      if key in s.pending then s.(pending := s.pending[key := s.pending[key].(focusRequested := true)]) else s
    else if s.records[key].id in s.destroyed || s.records[key].phase.Live? then s
    else s.(records := s.records[key := s.records[key].(focusRequested := true)])
  }

  // handleWindowClosed, for the listener of record `id`.
  function Closed(s: Host, key: Key, id: nat): Host {
    if !IsCurrent(s, key, id) then s
    else
      var forgotten := Forget(s, key, false);
      if !s.shuttingDown && |forgotten.records| == 0 then Exit(forgotten, false) else forgotten
  }

  function TakeStep(s: Host, step: Step): Host
    requires CanStep(s, step)
  {
    match step
    case OpenWindow(root) =>
      s.(queue := s.queue + [Creation(s.nextToken, root)], nextToken := s.nextToken + 1,
         awaiting := s.awaiting + {s.nextToken})
    case Activated(token) => s.(awaiting := s.awaiting - {token})
    case ActivateFailed(token) => DropCreation(s.(awaiting := s.awaiting - {token}), token)
    case OpenRequested(key) => RequestOpen(s, key)
    case StartNext => StartOpen(s)
    case TicketArrived(outcome) => AfterTicket(s, outcome)
    case LoadSettled(ok) => AfterLoad(s, ok)
    case CleanupReturned(ok) => AfterCleanup(s, ok)
    case FocusRequested(key) => Focus(s, key)
    case WindowDestroyed(key) => s.(destroyed := s.destroyed + {s.records[key].id})
    case WindowClosed(key, id) => Closed(s, key, id)
    case ReportFailed => Exit(s, true)
    case ProductEnding => Exit(s, true)
  }

  ghost predicate IsRun(run: seq<Host>, steps: seq<Step>) {
    && |run| == |steps| + 1
    && run[0] == START
    && forall k :: 0 <= k < |steps| ==> CanStep(run[k], steps[k]) && run[k + 1] == TakeStep(run[k], steps[k])
  }

  ghost predicate Reachable(s: Host) {
    exists run: seq<Host>, steps: seq<Step> :: IsRun(run, steps) && run[|run| - 1] == s
  }
}

/** The connection never wedges, never holds two sessions and never leaks a socket or a timer. */
module RuntimeConnectionSafety {
  import opened Options
  import opened RuntimeConnectionModel

  // The timers that are scheduled are those the fields name; a session start may be scheduled besides.
  ghost predicate TimersOk(c: Connection) {
    && (c.roundDeadline.Some? ==> c.roundDeadline.value in c.timers && c.timers[c.roundDeadline.value] == RoundDeadline)
    && (c.candidateDeadline.Some? ==>
          && c.candidate.Some?
          && c.candidateDeadline.value in c.timers
          && c.timers[c.candidateDeadline.value] == CandidateDeadline(c.candidate.value))
    && (c.retrySchedule.Some? ==> c.retrySchedule.value in c.timers && c.timers[c.retrySchedule.value] == Retry)
    && (forall h :: h in c.timers ==> TimerOk(c, h))
  }

  predicate TimerOk(c: Connection, h: Handle)
    requires h in c.timers
  {
    && h < c.nextHandle
    && match c.timers[h]
       case RoundDeadline => c.roundDeadline == Some(h)
       case CandidateDeadline(_) => c.candidateDeadline == Some(h)
       case Retry => c.retrySchedule == Some(h)
       case SessionStart(socket) => socket < c.nextSocket
  }

  predicate InRound(c: Connection) {
    && c.roundActive && c.candidate.Some? && c.roundDeadline.Some? && c.candidateDeadline.Some?
    && c.activeSocket.None? && c.activeSession.None? && c.retrySchedule.None? && c.status.Connecting?
  }

  predicate InSession(c: Connection) {
    && c.activeSocket.Some? && c.activeSession == c.activeSocket && c.status.Ready?
    && !c.roundActive && c.candidate.None? && c.roundDeadline.None? && c.candidateDeadline.None?
        && c.retrySchedule.None?
  }

  predicate Waiting(c: Connection) {
    && c.retrySchedule.Some? && Resting(c)
  }

  predicate Resting(c: Connection) {
    && !c.roundActive && c.candidate.None? && c.roundDeadline.None? && c.candidateDeadline.None?
    && c.activeSocket.None? && c.activeSession.None? && c.status.Disconnected?
  }

  predicate Phase(c: Connection) {
    if c.stopped then Resting(c) && c.retrySchedule.None? else InRound(c) || InSession(c) || Waiting(c)
  }

  ghost predicate SocketsOk(c: Connection) {
    && (c.candidate.Some? ==> c.candidate.value < c.nextSocket && c.candidate.value !in c.settled)
    && (c.activeSocket.Some? ==> c.activeSocket.value in c.accepted)
    && (forall k :: k in c.accepted ==> k < c.nextSocket && k in c.settled)
    && (forall k :: k in c.settled ==> k < c.nextSocket)
    && (forall k: Socket :: k < c.nextSocket && c.candidate != Some(k) && c.activeSocket != Some(k) ==> k in c.closed)
    && c.liveLeases == if c.activeSocket.Some? then {c.activeSocket.value} else {}
  }

  predicate RoundOk(c: Connection) {
    && c.candidateIndex <= |PHOTOSHOP_PORTS|
    && (c.roundActive ==> c.tried == PHOTOSHOP_PORTS[..c.candidateIndex])
    && (c.candidate.Some? ==> c.candidateIndex > 0)
  }

  predicate ReplacementOk(c: Connection) {
    && (c.immediateReconnect <==> c.announced || c.leftOver)
    && (c.announced ==> c.activeSocket.Some?)
  }

  ghost predicate Inv(c: Connection) {
    TimersOk(c) && Phase(c) && SocketsOk(c) && RoundOk(c) && ReplacementOk(c)
  }

  // Inside a callback that has just given up a candidate or started a round: no candidate yet.
  ghost predicate Probing(c: Connection) {
    && TimersOk(c) && SocketsOk(c) && RoundOk(c) && ReplacementOk(c)
    && !c.stopped && c.roundActive && c.candidate.None? && c.roundDeadline.Some? && c.candidateDeadline.None?
    && c.activeSocket.None? && c.activeSession.None? && c.retrySchedule.None? && c.status.Connecting?
  }

  lemma {:induction false} ProbeNextKeeps(c: Connection, creates: seq<bool>)
    requires Probing(c) && |creates| == |PHOTOSHOP_PORTS|
    ensures Inv(ProbeNext(c, creates)) && !ProbeNext(c, creates).stopped
    decreases |PHOTOSHOP_PORTS| - c.candidateIndex
  {
    if c.candidateIndex < |PHOTOSHOP_PORTS| && !creates[c.candidateIndex] {
      ProbeNextKeeps(c.(candidateIndex := c.candidateIndex + 1,
          tried := c.tried + [PHOTOSHOP_PORTS[c.candidateIndex]]), creates);
    }
  }

  // At rest without a retry scheduled, as between a lost session and what follows it.
  ghost predicate AtRest(c: Connection) {
    TimersOk(c) && SocketsOk(c) && RoundOk(c) && ReplacementOk(c) && Resting(c) && c.retrySchedule.None? && !c.stopped
  }

  lemma StartRoundKeeps(c: Connection, creates: seq<bool>)
    requires AtRest(c) && |creates| == |PHOTOSHOP_PORTS|
    ensures Inv(StartRound(c, creates)) && !StartRound(c, creates).stopped
  {
    ProbeNextKeeps(Arm(c, RoundDeadline).(roundActive := true, candidateIndex := 0, tried := [], status := Connecting,
                                          roundDeadline := Some(c.nextHandle)), creates);
  }

  lemma RejectKeeps(c: Connection, socket: Socket, creates: seq<bool>)
    requires Inv(c) && |creates| == |PHOTOSHOP_PORTS|
    ensures Inv(RejectCandidate(c, socket, creates))
  {
    if c.candidate == Some(socket) {
      ProbeNextKeeps(c.(settled := c.settled + {socket}, timers := Cancelled(c.timers, c.candidateDeadline),
                        candidateDeadline := None, candidate := None, closed := c.closed + {socket}), creates);
    }
  }

  // The candidate's deadline has just fired: its handle is still in the field but no longer scheduled.
  lemma CandidateExpires(c: Connection, handle: Handle, creates: seq<bool>)
    requires Inv(c) && handle in c.timers && c.timers[handle].CandidateDeadline? && |creates| == |PHOTOSHOP_PORTS|
    ensures c.candidate == Some(c.timers[handle].socket)
    ensures Inv(RejectCandidate(c.(timers := c.timers - {handle}), c.timers[handle].socket, creates))
  {
    assert TimerOk(c, handle);
    var socket := c.candidate.value;
    assert (c.timers - {handle}) - {handle} == c.timers - {handle};
    ProbeNextKeeps(c.(settled := c.settled + {socket}, timers := c.timers - {handle},
                      candidateDeadline := None, candidate := None, closed := c.closed + {socket}), creates);
  }

  lemma RoundExpires(c: Connection, handle: Handle)
    requires Inv(c) && handle in c.timers && c.timers[handle].RoundDeadline?
    ensures Inv(FinishRound(c.(timers := c.timers - {handle})))
  {
    assert TimerOk(c, handle);
    assert (c.timers - {handle}) - {handle} == c.timers - {handle};
  }

  lemma RetryExpires(c: Connection, handle: Handle, creates: seq<bool>)
    requires Inv(c) && handle in c.timers && c.timers[handle].Retry? && |creates| == |PHOTOSHOP_PORTS|
    ensures Inv(StartRound(c.(timers := c.timers - {handle}, retrySchedule := None), creates))
  {
    assert TimerOk(c, handle);
    StartRoundKeeps(c.(timers := c.timers - {handle}, retrySchedule := None), creates);
  }

  lemma AcceptKeeps(c: Connection, socket: Socket)
    requires Inv(c) && c.candidate == Some(socket)
    ensures Inv(AcceptSession(c, socket))
  {}

  lemma LoseKeeps(c: Connection, socket: Socket, creates: seq<bool>)
    requires Inv(c) && |creates| == |PHOTOSHOP_PORTS| && (c.activeSocket == Some(socket) ==> socket in c.closed)
    ensures Inv(LoseSession(c, socket, creates))
  {
    if c.activeSocket == Some(socket) {
      var lost := Revoke(c.(activeSocket := None, status := Disconnected, immediateReconnect := false,
                            announced := false, leftOver := false));
      assert AtRest(lost);
      StartRoundKeeps(lost, creates);
    }
  }

  lemma StopKeeps(c: Connection)
    requires Inv(c)
    ensures Inv(Stop(c))
  {}

  lemma CloseKeeps(c: Connection, socket: Socket)
    requires Inv(c)
    ensures Inv(Close(c, Some(socket)))
  {}

  lemma InvalidKeeps(c: Connection, socket: Socket, creates: seq<bool>)
    requires Inv(c) && |creates| == |PHOTOSHOP_PORTS|
    ensures Inv(CloseInvalidSession(c, socket, creates))
  {
    var told := if c.activeSocket == Some(socket)
        then c.(immediateReconnect := false, announced := false, leftOver := false)
                else c;
    CloseKeeps(told, socket);
    LoseKeeps(Close(told, Some(socket)), socket, creates);
  }

  lemma MessageKeeps(c: Connection, socket: Socket, message: Message, creates: seq<bool>)
    requires Inv(c) && socket < c.nextSocket && |creates| == |PHOTOSHOP_PORTS|
    ensures Inv(TakeStep(c, Received(socket, message, creates)))
  {
    if socket in c.accepted {
      CloseKeeps(c, socket);
      LoseKeeps(Close(c, Some(socket)), socket, creates);
      InvalidKeeps(c, socket, creates);
    } else {
      RejectKeeps(c, socket, creates);
      if c.candidate == Some(socket) {
        AcceptKeeps(c, socket);
      }
    }
  }

  lemma FireKeeps(c: Connection, handle: Handle, protocolOk: bool, sent: bool, creates: seq<bool>)
    requires Inv(c) && handle in c.timers && |creates| == |PHOTOSHOP_PORTS|
    ensures Inv(TakeStep(c, TimerFires(handle, protocolOk, sent, creates)))
  {
    match c.timers[handle]
    case RoundDeadline => RoundExpires(c, handle);
    case CandidateDeadline(_) => CandidateExpires(c, handle, creates);
    case Retry => RetryExpires(c, handle, creates);
    case SessionStart(socket) =>
      assert Inv(c.(timers := c.timers - {handle}));
      RejectKeeps(c.(timers := c.timers - {handle}), socket, creates);
  }

  lemma StepKeepsInv(c: Connection, step: Step)
    requires Inv(c) && CanStep(c, step)
    ensures Inv(TakeStep(c, step))
  {
    match step
    case Start(creates) => if c.stopped { StartRoundKeeps(c.(stopped := false), creates); }
    case StopCalled => StopKeeps(c);
    case TimerFires(handle, protocolOk, sent, creates) => FireKeeps(c, handle, protocolOk, sent, creates);
    case Opened(socket) =>
    case Ended(socket, creates) =>
      CloseKeeps(c, socket);
      LoseKeeps(Close(c, Some(socket)), socket, creates);
      RejectKeeps(Close(c, Some(socket)), socket, creates);
    case Received(socket, message, creates) => MessageKeeps(c, socket, message, creates);
    case SendFailed(creates) =>
      CloseKeeps(c, c.activeSession.value);
      LoseKeeps(Close(c, c.activeSession), c.activeSession.value, creates);
  }

  lemma {:induction false} RunKeepsInv(run: seq<Connection>, steps: seq<Step>, k: nat)
    requires IsRun(run, steps) && k < |run|
    ensures Inv(run[k])
  {
    if k == 0 {
    } else {
      RunKeepsInv(run, steps, k - 1);
      StepKeepsInv(run[k - 1], steps[k - 1]);
    }
  }

  lemma ReachableInv(c: Connection)
    requires Reachable(c)
    ensures Inv(c)
  {
    var run: seq<Connection>, steps: seq<Step> :| IsRun(run, steps) && run[|run| - 1] == c;
    RunKeepsInv(run, steps, |run| - 1);
  }

  // ---------- The main results ----------

  predicate Scheduled(c: Connection, handle: Option<Handle>, timer: Timer) {
    handle.Some? && handle.value in c.timers && c.timers[handle.value] == timer
  }

  /** Between callbacks a started connection is in exactly one of three states, each with the timer or the
      socket that moves it on; a stopped one has neither timer nor socket of its own. */
  lemma NeverWedged(c: Connection)
    requires Reachable(c)
    ensures c.stopped ==> Resting(c) && c.retrySchedule.None?
    ensures !c.stopped ==>
              || (InRound(c) && !InSession(c) && !Waiting(c)
                  && Scheduled(c, c.roundDeadline, RoundDeadline)
                  && Scheduled(c, c.candidateDeadline, CandidateDeadline(c.candidate.value)))
              || (InSession(c) && !InRound(c) && !Waiting(c))
              || (Waiting(c) && !InRound(c) && !InSession(c) && Scheduled(c, c.retrySchedule, Retry))
  {
    ReachableInv(c);
  }

  /** At most one lease is live: that of the active socket, and exactly while the status is ready. Every
      other socket but the candidate is closed, and every deadline or retry still scheduled is in its field. */
  lemma OneLiveLease(c: Connection, socket: Socket)
    requires Reachable(c)
    ensures socket in c.liveLeases <==> c.activeSocket == Some(socket)
    ensures c.status.Ready? <==> c.liveLeases != {}
    ensures c.status.Ready? <==> c.activeSession.Some?
    ensures socket < c.nextSocket && c.candidate != Some(socket) && c.activeSocket != Some(socket) ==>
                socket in c.closed
    ensures forall h :: h in c.timers && !c.timers[h].SessionStart? ==>
              Some(h) in {c.roundDeadline, c.candidateDeadline, c.retrySchedule}
  {
    ReachableInv(c);
    forall h | h in c.timers && !c.timers[h].SessionStart?
      ensures Some(h) in {c.roundDeadline, c.candidateDeadline, c.retrySchedule}
    {
      assert TimerOk(c, h);
    }
  }

  /** The event of a socket, or of the timer that starts a session on it. */
  predicate IsEventOf(c: Connection, step: Step, socket: Socket) {
    match step
    case Opened(s) => s == socket
    case Ended(s, _) => s == socket
    case Received(s, _, _) => s == socket
    case TimerFires(handle, _, _, _) => handle in c.timers && c.timers[handle] == SessionStart(socket)
    case _ => false
  }

  /** The events of a socket that is neither the candidate nor the active one change nothing but the timer
      of its session start: opening arms it, and when it fires only the timer is gone. */
  lemma OldSocketsChangeNothing(c: Connection, step: Step, socket: Socket)
    requires Reachable(c) && CanStep(c, step) && IsEventOf(c, step, socket)
    requires c.candidate != Some(socket) && c.activeSocket != Some(socket)
    ensures TakeStep(c, step) ==
              if step.Opened?
                  then c.(timers := c.timers[c.nextHandle := SessionStart(socket)], nextHandle := c.nextHandle + 1)
              else if step.TimerFires? then c.(timers := c.timers - {step.handle})
              else c
  {
    ReachableInv(c);
    if !step.Opened? && !step.TimerFires? {
      assert c.closed + {socket} == c.closed;
    }
  }

  lemma {:induction false} ProbeAdvances(c: Connection, creates: seq<bool>)
    requires Probing(c) && |creates| == |PHOTOSHOP_PORTS|
    ensures var n := ProbeNext(c, creates);
            && (n.roundActive ==> n.candidateIndex > c.candidateIndex)
            && (!n.roundActive ==> n.retrySchedule.Some?)
    decreases |PHOTOSHOP_PORTS| - c.candidateIndex
  {
    if c.candidateIndex < |PHOTOSHOP_PORTS| && !creates[c.candidateIndex] {
      ProbeAdvances(c.(candidateIndex := c.candidateIndex + 1,
          tried := c.tried + [PHOTOSHOP_PORTS[c.candidateIndex]]), creates);
    }
  }

  /** A round tries the eight ports in their order, each at most once, and ends: whenever its candidate is
      rejected it has moved on to a later port, or it is over and a retry is scheduled. */
  lemma PortsInOrder(c: Connection, creates: seq<bool>)
    requires Reachable(c) && c.roundActive && |creates| == |PHOTOSHOP_PORTS|
    ensures 0 < c.candidateIndex <= |PHOTOSHOP_PORTS| && c.tried == PHOTOSHOP_PORTS[..c.candidateIndex]
    ensures c.candidate.Some?
    ensures var n := RejectCandidate(c, c.candidate.value, creates);
            if n.roundActive then n.candidateIndex > c.candidateIndex else Waiting(n)
  {
    ReachableInv(c);
    var socket := c.candidate.value;
    RejectKeeps(c, socket, creates);
    ProbeAdvances(c.(settled := c.settled + {socket}, timers := Cancelled(c.timers, c.candidateDeadline),
                     candidateDeadline := None, candidate := None, closed := c.closed + {socket}), creates);
  }

  lemma {:induction false} ProbeConnects(c: Connection, creates: seq<bool>)
    requires Probing(c) && |creates| == |PHOTOSHOP_PORTS|
    ensures ProbeNext(c, creates).roundActive <==> true in creates[c.candidateIndex..]
    decreases |PHOTOSHOP_PORTS| - c.candidateIndex
  {
    if c.candidateIndex < |PHOTOSHOP_PORTS| && !creates[c.candidateIndex] {
      ProbeConnects(c.(candidateIndex := c.candidateIndex + 1,
          tried := c.tried + [PHOTOSHOP_PORTS[c.candidateIndex]]), creates);
    }
  }

  predicate IsRefused(message: Message) {
    message.NotText? || message.Invalid? || message.SessionReady?
  }

  /** The steps that end the active session, a stop apart: its socket ends, a send on it fails, or it gets
      a message that a session must not get. */
  predicate EndsSession(c: Connection, step: Step) {
    && c.activeSocket.Some?
    && match step
       case Ended(socket, _) => c.activeSocket == Some(socket)
       case Received(socket, message, _) =>
         c.activeSocket == Some(socket) && (IsRefused(message) || message == Other(true))
       case SendFailed(_) => true
       case _ => false
  }

  // What follows a session that is lost on the closed socket `socket`.
  lemma LossIsFollowed(c: Connection, socket: Socket, creates: seq<bool>)
    requires Inv(c) && c.activeSocket == Some(socket) && socket in c.closed && |creates| == |PHOTOSHOP_PORTS|
    ensures var n := LoseSession(c, socket, creates);
            && (InRound(n) <==> c.immediateReconnect && true in creates)
            && (!InRound(n) ==> Waiting(n))
            && n.activeSocket.None? && !n.announced && !n.leftOver
  {
    LoseKeeps(c, socket, creates);
    var lost := Revoke(c.(activeSocket := None, status := Disconnected, immediateReconnect := false,
                          announced := false, leftOver := false));
    assert AtRest(lost);
    StartRoundKeeps(lost, creates);
    var probing :=
        Arm(lost, RoundDeadline).(roundActive := true, candidateIndex := 0, tried := [], status := Connecting,
                                             roundDeadline := Some(lost.nextHandle));
    ProbeConnects(probing, creates);
    ProbeOnlyMoves(probing, creates);
  }

  lemma RefusalIsFollowed(c: Connection, socket: Socket, creates: seq<bool>)
    requires Inv(c) && c.activeSocket == Some(socket) && |creates| == |PHOTOSHOP_PORTS|
    ensures var n := CloseInvalidSession(c, socket, creates);
            Waiting(n) && !InRound(n) && n.activeSocket.None? && !n.announced && !n.leftOver
  {
    var told := c.(immediateReconnect := false, announced := false, leftOver := false);
    CloseKeeps(told, socket);
    LossIsFollowed(Close(told, Some(socket)), socket, creates);
  }

  lemma ClosedLossIsFollowed(c: Connection, socket: Socket, creates: seq<bool>)
    requires Inv(c) && c.activeSocket == Some(socket) && |creates| == |PHOTOSHOP_PORTS|
    ensures var n := LoseSession(Close(c, Some(socket)), socket, creates);
            && (InRound(n) <==> (c.announced || c.leftOver) && true in creates)
            && (!InRound(n) ==> Waiting(n))
            && n.activeSocket.None? && !n.announced && !n.leftOver
  {
    CloseKeeps(c, socket);
    LossIsFollowed(Close(c, Some(socket)), socket, creates);
  }

  /** A session is lost by exactly these steps. It is followed at once by a round exactly when it announced
      that its Runtime is being replaced, or a stop cut an earlier announcement short, unless it was lost by
      a message it must not get, and some socket can be created; otherwise a retry is scheduled. */
  lemma ReconnectsAtOnce(c: Connection, step: Step)
    requires Reachable(c) && c.activeSocket.Some? && CanStep(c, step) && !step.StopCalled?
    ensures TakeStep(c, step).activeSocket != c.activeSocket <==> EndsSession(c, step)
    ensures EndsSession(c, step) ==>
              var n := TakeStep(c, step);
              && (InRound(n) <==> (c.announced || c.leftOver) && true in step.creates
                                  && !(step.Received? && IsRefused(step.message)))
              && (!InRound(n) ==> Waiting(n))
              && !n.announced && !n.leftOver
  {
    ReachableInv(c);
    var socket := c.activeSocket.value;
    if EndsSession(c, step) {
      if step.Received? && IsRefused(step.message) {
        RefusalIsFollowed(c, socket, step.creates);
      } else {
        ClosedLossIsFollowed(c, socket, step.creates);
      }
    } else {
      OtherStepsKeepSession(c, step);
    }
  }

  lemma OtherStepsKeepSession(c: Connection, step: Step)
    requires Inv(c) && c.activeSocket.Some? && CanStep(c, step) && !step.StopCalled? && !EndsSession(c, step)
    ensures TakeStep(c, step).activeSocket == c.activeSocket
  {
    if step.TimerFires? {
      assert TimerOk(c, step.handle);
    }
  }

  lemma FinishOnlyMoves(c: Connection)
    ensures FinishRound(c).announced == c.announced && FinishRound(c).leftOver == c.leftOver
    ensures FinishRound(c).activeSocket == c.activeSocket
  {}

  lemma {:induction false} ProbeOnlyMoves(c: Connection, creates: seq<bool>)
    requires |creates| == |PHOTOSHOP_PORTS|
    ensures ProbeNext(c, creates).announced == c.announced && ProbeNext(c, creates).leftOver == c.leftOver
    ensures ProbeNext(c, creates).activeSocket == c.activeSocket
    decreases |PHOTOSHOP_PORTS| - c.candidateIndex
  {
    if c.candidateIndex >= |PHOTOSHOP_PORTS| {
      FinishOnlyMoves(c);
    } else if c.roundActive && !c.stopped && !creates[c.candidateIndex] {
      ProbeOnlyMoves(c.(candidateIndex := c.candidateIndex + 1,
          tried := c.tried + [PHOTOSHOP_PORTS[c.candidateIndex]]), creates);
    }
  }

  const EVERY_PORT: seq<bool> := [true, true, true, true, true, true, true, true]

  /** It does happen: stopping between the announcement and the close of its socket leaves the flag set
      for a later session that announced nothing. */
  lemma AnnouncementOutlivesStop() returns (c: Connection)
    ensures Reachable(c) && c.activeSocket.Some? && c.leftOver && !c.announced
  {
    assert IsRun([START], []) && [START][|[START]| - 1] == START;
    c := StepIsReachable(START, Start(EVERY_PORT));
    c := StepIsReachable(c, Received(0, SessionReady, EVERY_PORT));
    c := StepIsReachable(c, Received(0, Replacing, EVERY_PORT));
    c := StepIsReachable(c, StopCalled);
    assert c.stopped && c.leftOver && c.nextSocket == 1;
    c := StepIsReachable(c, Start(EVERY_PORT));
    assert c.candidate == Some(1);
    c := StepIsReachable(c, Received(1, SessionReady, EVERY_PORT));
  }

  lemma StepIsReachable(c: Connection, step: Step) returns (n: Connection)
    requires Reachable(c) && CanStep(c, step)
    ensures n == TakeStep(c, step) && Reachable(n)
  {
    n := TakeStep(c, step);
    var run: seq<Connection>, steps: seq<Step> :| IsRun(run, steps) && run[|run| - 1] == c;
    var longer := run + [n];
    assert IsRun(longer, steps + [step]);
    assert longer[|longer| - 1] == n;
  }
}

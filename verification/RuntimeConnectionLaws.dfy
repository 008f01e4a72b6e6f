/** What each event of a socket, of a timer or of the caller leads to, said of the connection before and
    after it. */
module RuntimeConnectionLaws {
  import opened Options
  import opened RuntimeConnectionModel
  import opened RuntimeConnectionSafety

  // ---------- A candidate's socket is open ----------

  ghost predicate OpenOk(c: Connection) {
    && (forall k :: k in c.closed ==> k < c.nextSocket)
    && (c.candidate.Some? ==> c.candidate.value !in c.closed)
  }

  lemma {:induction false} ProbeKeepsOpen(c: Connection, creates: seq<bool>)
    requires OpenOk(c) && c.candidate.None? && |creates| == |PHOTOSHOP_PORTS|
    ensures OpenOk(ProbeNext(c, creates))
    ensures ProbeNext(c, creates).candidate.Some? ==> ProbeNext(c, creates).candidate.value >= c.nextSocket
    ensures c.closed <= ProbeNext(c, creates).closed
    decreases |PHOTOSHOP_PORTS| - c.candidateIndex
  {
    if c.candidateIndex >= |PHOTOSHOP_PORTS| {
    } else if c.roundActive && !c.stopped && !creates[c.candidateIndex] {
      ProbeKeepsOpen(c.(candidateIndex := c.candidateIndex + 1,
          tried := c.tried + [PHOTOSHOP_PORTS[c.candidateIndex]]), creates);
    }
  }

  lemma StartKeepsOpen(c: Connection, creates: seq<bool>)
    requires OpenOk(c) && c.candidate.None? && |creates| == |PHOTOSHOP_PORTS|
    ensures OpenOk(StartRound(c, creates)) && c.closed <= StartRound(c, creates).closed
  {
    if !(c.stopped || c.roundActive || c.activeSocket.Some?) {
      ProbeKeepsOpen(Arm(c, RoundDeadline).(roundActive := true, candidateIndex := 0, tried := [], status := Connecting,
                                            roundDeadline := Some(c.nextHandle)), creates);
    }
  }

  lemma RejectKeepsOpen(c: Connection, socket: Socket, creates: seq<bool>)
    requires OpenOk(c) && socket < c.nextSocket && |creates| == |PHOTOSHOP_PORTS|
    ensures OpenOk(RejectCandidate(c, socket, creates))
  {
    if !(socket in c.settled || c.candidate != Some(socket) || !c.roundActive) {
      ProbeKeepsOpen(c.(settled := c.settled + {socket}, timers := Cancelled(c.timers, c.candidateDeadline),
                        candidateDeadline := None, candidate := None, closed := c.closed + {socket}), creates);
    }
  }

  lemma LoseKeepsOpen(c: Connection, socket: Socket, creates: seq<bool>)
    requires OpenOk(c) && |creates| == |PHOTOSHOP_PORTS| && (c.activeSocket.Some? ==> c.candidate.None?)
    ensures OpenOk(LoseSession(c, socket, creates))
  {
    if c.activeSocket == Some(socket) {
      StartKeepsOpen(Revoke(c.(activeSocket := None, status := Disconnected, immediateReconnect := false,
                               announced := false, leftOver := false)), creates);
    }
  }

  // The end of the candidate's own socket: it is closed before it is given up.
  lemma EndedKeepsOpen(c: Connection, socket: Socket, creates: seq<bool>)
    requires Inv(c) && OpenOk(c) && CanStep(c, Ended(socket, creates))
    ensures OpenOk(TakeStep(c, Ended(socket, creates)))
  {
    var gone := Close(c, Some(socket));
    if c.candidate == Some(socket) {
      ProbeKeepsOpen(gone.(settled := c.settled + {socket}, timers := Cancelled(c.timers, c.candidateDeadline),
                           candidateDeadline := None, candidate := None, closed := gone.closed + {socket}), creates);
    } else if socket in c.accepted {
      LoseKeepsOpen(gone, socket, creates);
    } else {
      RejectKeepsOpen(gone, socket, creates);
    }
  }

  lemma MessageKeepsOpen(c: Connection, socket: Socket, message: Message, creates: seq<bool>)
    requires Inv(c) && OpenOk(c) && CanStep(c, Received(socket, message, creates))
    ensures OpenOk(TakeStep(c, Received(socket, message, creates)))
  {
    if socket in c.accepted {
      LoseKeepsOpen(Close(c, Some(socket)), socket, creates);
      LoseKeepsOpen(Close(c.(immediateReconnect := false, announced := false, leftOver := false), Some(socket)), socket,
                    creates);
    } else {
      RejectKeepsOpen(c, socket, creates);
    }
  }

  lemma FireKeepsOpen(c: Connection, handle: Handle, protocolOk: bool, sent: bool, creates: seq<bool>)
    requires Inv(c) && OpenOk(c) && CanStep(c, TimerFires(handle, protocolOk, sent, creates))
    ensures OpenOk(TakeStep(c, TimerFires(handle, protocolOk, sent, creates)))
  {
    assert TimerOk(c, handle);
    var fired := c.(timers := c.timers - {handle});
    match c.timers[handle]
    case RoundDeadline =>
    case CandidateDeadline(socket) => RejectKeepsOpen(fired, socket, creates);
    case Retry => StartKeepsOpen(fired.(retrySchedule := None), creates);
    case SessionStart(socket) => RejectKeepsOpen(fired, socket, creates);
  }

  lemma StepKeepsOpen(c: Connection, step: Step)
    requires Inv(c) && OpenOk(c) && CanStep(c, step)
    ensures OpenOk(TakeStep(c, step))
  {
    match step
    case Start(creates) => StartKeepsOpen(if c.stopped then c.(stopped := false) else c.(candidate := None), creates);
    case StopCalled =>
    case TimerFires(handle, protocolOk, sent, creates) => FireKeepsOpen(c, handle, protocolOk, sent, creates);
    case Opened(_) =>
    case Ended(socket, creates) => EndedKeepsOpen(c, socket, creates);
    case Received(socket, message, creates) => MessageKeepsOpen(c, socket, message, creates);
    case SendFailed(creates) => LoseKeepsOpen(Close(c, c.activeSession), c.activeSession.value, creates);
  }

  lemma {:induction false} RunKeepsOpen(run: seq<Connection>, steps: seq<Step>, k: nat)
    requires IsRun(run, steps) && k < |run|
    ensures Inv(run[k]) && OpenOk(run[k])
  {
    RunKeepsInv(run, steps, k);
    if k == 0 {
    } else {
      RunKeepsOpen(run, steps, k - 1);
      StepKeepsOpen(run[k - 1], steps[k - 1]);
    }
  }

  lemma ReachableOpen(c: Connection)
    requires Reachable(c)
    ensures Inv(c) && OpenOk(c)
  {
    var run: seq<Connection>, steps: seq<Step> :| IsRun(run, steps) && run[|run| - 1] == c;
    RunKeepsOpen(run, steps, |run| - 1);
  }

  // ---------- A candidate ----------

  /** Of the ports from `from` on, the one before `after` is the first that gives a socket. */
  predicate IsFirstPort(creates: seq<bool>, from: nat, after: nat) {
    from < after <= |creates| && creates[after - 1] && forall k :: from <= k < after - 1 ==> !creates[k]
  }

  lemma {:induction false} ProbeFindsPort(c: Connection, creates: seq<bool>)
    requires Probing(c) && |creates| == |PHOTOSHOP_PORTS|
    ensures var n := ProbeNext(c, creates);
            if n.roundActive then IsFirstPort(creates, c.candidateIndex, n.candidateIndex)
            else forall k :: c.candidateIndex <= k < |creates| ==> !creates[k]
    decreases |PHOTOSHOP_PORTS| - c.candidateIndex
  {
    if c.candidateIndex < |PHOTOSHOP_PORTS| && !creates[c.candidateIndex] {
      ProbeFindsPort(c.(candidateIndex := c.candidateIndex + 1,
          tried := c.tried + [PHOTOSHOP_PORTS[c.candidateIndex]]), creates);
    }
  }

  /** `socket` was given up: it is closed, and the round has gone on to a new socket on the first later port
      that gives one; if there is none it is over with a retry scheduled. */
  predicate GivenUp(c: Connection, n: Connection, socket: Socket, creates: seq<bool>) {
    && socket in n.closed
    && if n.roundActive then
         && InRound(n) && n.candidate.value >= c.nextSocket
         && IsFirstPort(creates, c.candidateIndex, n.candidateIndex)
       else Waiting(n) && forall k :: c.candidateIndex <= k < |creates| ==> !creates[k]
  }

  // Giving up the candidate, whether its deadline is still scheduled or has just fired.
  lemma RejectionGivesUp(c: Connection, timers: map<Handle, Timer>, creates: seq<bool>)
    requires Inv(c) && OpenOk(c) && c.candidate.Some? && |creates| == |PHOTOSHOP_PORTS|
    requires timers == Cancelled(c.timers, c.candidateDeadline)
    ensures var socket := c.candidate.value;
            var left := c.(settled := c.settled + {socket}, closed := c.closed + {socket}, timers := timers,
                           candidateDeadline := None, candidate := None);
            Inv(ProbeNext(left, creates)) && GivenUp(c, ProbeNext(left, creates), socket, creates)
  {
    var socket := c.candidate.value;
    var left := c.(settled := c.settled + {socket}, timers := timers, candidateDeadline := None, candidate := None,
                   closed := c.closed + {socket});
    assert Probing(left);
    ProbeNextKeeps(left, creates);
    ProbeAdvances(left, creates);
    ProbeFindsPort(left, creates);
    ProbeKeepsOpen(left, creates);
    ProbeOnlyMoves(left, creates);
  }

  /** When the session start of the present candidate is due, its socket stays the candidate, open, exactly
      if it speaks the right protocol and the start message was sent; nothing else changes then. Otherwise
      it is given up. */
  lemma SessionStartDecides(c: Connection, handle: Handle, protocolOk: bool, sent: bool, creates: seq<bool>)
    requires Reachable(c) && CanStep(c, TimerFires(handle, protocolOk, sent, creates))
    requires c.timers[handle].SessionStart? && c.candidate == Some(c.timers[handle].socket)
    ensures var n := TakeStep(c, TimerFires(handle, protocolOk, sent, creates));
            var socket := c.candidate.value;
            && (n.candidate == Some(socket) && socket !in n.closed <==> protocolOk && sent)
            && (if protocolOk && sent then n == c.(timers := c.timers - {handle}) else GivenUp(c, n, socket, creates))
  {
    ReachableOpen(c);
    assert TimerOk(c, handle);
    var fired := c.(timers := c.timers - {handle});
    assert Inv(fired);
    RejectionGivesUp(fired, Cancelled(fired.timers, c.candidateDeadline), creates);
  }

  /** The candidate is given up when its deadline fires, its socket ends, or it gets any message but the one
      that opens a session. */
  lemma CandidateFails(c: Connection, step: Step)
    requires Reachable(c) && CanStep(c, step) && c.candidate.Some?
    requires match step
             case TimerFires(handle, _, _, _) => c.timers[handle] == CandidateDeadline(c.candidate.value)
             case Ended(socket, _) => c.candidate == Some(socket)
             case Received(socket, message, _) => c.candidate == Some(socket) && !message.SessionReady?
             case _ => false
    ensures GivenUp(c, TakeStep(c, step), c.candidate.value, step.creates)
  {
    ReachableOpen(c);
    var socket := c.candidate.value;
    match step
    case TimerFires(handle, _, _, creates) =>
      assert TimerOk(c, handle);
      assert (c.timers - {handle}) - {handle} == c.timers - {handle};
      RejectionGivesUp(c, c.timers - {handle}, creates);
    case Ended(_, creates) =>
      assert c.closed + {socket} + {socket} == c.closed + {socket};
      RejectionGivesUp(c, Cancelled(c.timers, c.candidateDeadline), creates);
    case Received(_, _, creates) => RejectionGivesUp(c, Cancelled(c.timers, c.candidateDeadline), creates);
  }

  /** A session starts exactly when the present candidate gets the message that opens one; it is on that
      socket, with its lease live and no deadline left. */
  lemma SessionStartsExactly(c: Connection, step: Step)
    requires Reachable(c) && CanStep(c, step) && c.activeSocket.None?
    ensures var n := TakeStep(c, step);
            && (n.activeSocket.Some? <==>
                step.Received? && step.message.SessionReady? && c.candidate == Some(step.socket))
            && (n.activeSocket.Some? ==>
                n.activeSocket == Some(step.socket) && InSession(n) && n.liveLeases == {step.socket})
  {
    ReachableOpen(c);
    StepKeepsInv(c, step);
    if !(step.Received? && step.message.SessionReady? && c.candidate == Some(step.socket)) {
      NoSessionStarts(c, step);
    }
  }

  lemma StartStaysWithout(c: Connection, creates: seq<bool>)
    requires c.activeSocket.None? && |creates| == |PHOTOSHOP_PORTS|
    ensures StartRound(c, creates).activeSocket.None?
  {
    if !(c.stopped || c.roundActive || c.activeSocket.Some?) {
      ProbeOnlyMoves(Arm(c, RoundDeadline).(roundActive := true, candidateIndex := 0, tried := [], status := Connecting,
                                            roundDeadline := Some(c.nextHandle)), creates);
    }
  }

  lemma RejectStaysWithout(c: Connection, socket: Socket, creates: seq<bool>)
    requires c.activeSocket.None? && |creates| == |PHOTOSHOP_PORTS|
    ensures RejectCandidate(c, socket, creates).activeSocket.None?
  {
    if !(socket in c.settled || c.candidate != Some(socket) || !c.roundActive) {
      ProbeOnlyMoves(c.(settled := c.settled + {socket}, timers := Cancelled(c.timers, c.candidateDeadline),
                        candidateDeadline := None, candidate := None, closed := c.closed + {socket}), creates);
    }
  }

  lemma NoSessionStarts(c: Connection, step: Step)
    requires Inv(c) && CanStep(c, step) && c.activeSocket.None?
    requires !(step.Received? && step.message.SessionReady? && c.candidate == Some(step.socket))
    ensures TakeStep(c, step).activeSocket.None?
  {
    match step
    case Start(creates) => StartStaysWithout(c.(stopped := false), creates);
    case TimerFires(handle, _, _, creates) =>
      var fired := c.(timers := c.timers - {handle});
      StartStaysWithout(fired.(retrySchedule := None), creates);
      if c.timers[handle].CandidateDeadline? || c.timers[handle].SessionStart? {
        RejectStaysWithout(fired, c.timers[handle].socket, creates);
      }
    case Ended(socket, creates) => RejectStaysWithout(Close(c, Some(socket)), socket, creates);
    case Received(socket, _, creates) => RejectStaysWithout(c, socket, creates);
    case _ =>
  }

  // ---------- Rounds ----------

  lemma RoundBegins(c: Connection, creates: seq<bool>)
    requires AtRest(c) && |creates| == |PHOTOSHOP_PORTS|
    ensures var n := StartRound(c, creates);
            if true in creates then InRound(n) && IsFirstPort(creates, 0, n.candidateIndex) else Waiting(n)
  {
    StartRoundKeeps(c, creates);
    var probing := Arm(c, RoundDeadline).(roundActive := true, candidateIndex := 0, tried := [], status := Connecting,
                                          roundDeadline := Some(c.nextHandle));
    ProbeConnects(probing, creates);
    ProbeFindsPort(probing, creates);
    ProbeOnlyMoves(probing, creates);
  }

  /** Starting a stopped connection, and a retry that fires, begin a round on the first port that gives a
      socket; one that can create no socket is over at once with a retry scheduled. Starting a started
      connection changes nothing. */
  lemma RoundsBegin(c: Connection, step: Step)
    requires Reachable(c) && CanStep(c, step)
    requires step.Start? || (step.TimerFires? && c.timers[step.handle].Retry?)
    ensures var n := TakeStep(c, step);
            if step.Start? && !c.stopped then n == c
            else
              && !n.stopped
              && if true in step.creates then InRound(n) && IsFirstPort(step.creates, 0, n.candidateIndex)
                 else Waiting(n)
  {
    ReachableOpen(c);
    StepKeepsInv(c, step);
    if step.Start? && c.stopped {
      RoundBegins(c.(stopped := false), step.creates);
    } else if step.TimerFires? {
      assert TimerOk(c, step.handle);
      RoundBegins(c.(timers := c.timers - {step.handle}, retrySchedule := None), step.creates);
    }
  }

  /** When the deadline of a round fires, the round is over: its candidate is closed and a retry scheduled. */
  lemma RoundDeadlineEnds(c: Connection, step: Step)
    requires Reachable(c) && CanStep(c, step) && step.TimerFires? && c.timers[step.handle].RoundDeadline?
    ensures c.candidate.Some? && c.candidate.value in TakeStep(c, step).closed && Waiting(TakeStep(c, step))
  {
    ReachableOpen(c);
    assert TimerOk(c, step.handle);
    StepKeepsInv(c, step);
  }

  // ---------- Announcements ----------

  predicate Announces(c: Connection, step: Step) {
    step.Received? && step.message.Replacing? && c.activeSocket == Some(step.socket)
  }

  /** What is remembered of announcements: a session has announced that its Runtime is being replaced from
      the message that says so until the session is lost or stopped; a stop keeps an announcement, its own
      or an older one, until a later session is lost. A message that announces also closes the socket; any
      other message that a session may get, when nothing fails to be sent, changes nothing at all. */
  lemma AnnouncementsExactly(c: Connection, step: Step)
    requires Reachable(c) && CanStep(c, step)
    ensures var n := TakeStep(c, step);
            && (n.announced <==> Announces(c, step) || (c.announced && !EndsSession(c, step) && !step.StopCalled?))
            && (n.leftOver <==>
                if step.StopCalled? then c.announced || c.leftOver else c.leftOver && !EndsSession(c, step))
            && (Announces(c, step) ==> n.activeSocket == c.activeSocket && step.socket in n.closed)
            && (step.Received? && c.activeSocket == Some(step.socket) && step.message == Other(false) ==> n == c)
  {
    ReachableOpen(c);
    if EndsSession(c, step) {
      ReconnectsAtOnce(c, step);
    } else {
      OtherStepsKeepAnnouncements(c, step);
    }
  }

  lemma RejectKeepsAnnouncements(c: Connection, socket: Socket, creates: seq<bool>)
    requires |creates| == |PHOTOSHOP_PORTS|
    ensures var n := RejectCandidate(c, socket, creates); n.announced == c.announced && n.leftOver == c.leftOver
  {
    if !(socket in c.settled || c.candidate != Some(socket) || !c.roundActive) {
      ProbeOnlyMoves(c.(settled := c.settled + {socket}, timers := Cancelled(c.timers, c.candidateDeadline),
                        candidateDeadline := None, candidate := None, closed := c.closed + {socket}), creates);
    }
  }

  lemma StartKeepsAnnouncements(c: Connection, creates: seq<bool>)
    requires |creates| == |PHOTOSHOP_PORTS|
    ensures var n := StartRound(c, creates); n.announced == c.announced && n.leftOver == c.leftOver
  {
    if !(c.stopped || c.roundActive || c.activeSocket.Some?) {
      ProbeOnlyMoves(Arm(c, RoundDeadline).(roundActive := true, candidateIndex := 0, tried := [], status := Connecting,
                                            roundDeadline := Some(c.nextHandle)), creates);
    }
  }

  lemma OtherStepsKeepAnnouncements(c: Connection, step: Step)
    requires Inv(c) && CanStep(c, step) && !EndsSession(c, step)
    ensures var n := TakeStep(c, step);
            && (n.announced <==> Announces(c, step) || (c.announced && !step.StopCalled?))
            && (n.leftOver <==> if step.StopCalled? then c.announced || c.leftOver else c.leftOver)
            && (Announces(c, step) ==> n.activeSocket == c.activeSocket && step.socket in n.closed)
            && (step.Received? && c.activeSocket == Some(step.socket) && step.message == Other(false) ==> n == c)
  {
    match step
    case Start(creates) => StartKeepsAnnouncements(c.(stopped := false), creates);
    case TimerFires(handle, _, _, creates) =>
      var fired := c.(timers := c.timers - {handle});
      StartKeepsAnnouncements(fired.(retrySchedule := None), creates);
      if c.timers[handle].CandidateDeadline? || c.timers[handle].SessionStart? {
        RejectKeepsAnnouncements(fired, c.timers[handle].socket, creates);
      }
    case Ended(socket, creates) => RejectKeepsAnnouncements(Close(c, Some(socket)), socket, creates);
    case Received(socket, _, creates) => RejectKeepsAnnouncements(c, socket, creates);
    case _ =>
  }
}

/** The connection as an object whose fields its callbacks update. Each callback (`Start`, `Stop` and the
    `On...` methods) takes the step of RuntimeConnectionModel that stands for it and keeps the invariant,
    so what is proved of every reachable connection holds of the object between callbacks. */
module RuntimeConnectionObject {
  import opened Options
  import Model = RuntimeConnectionModel
  import Safety = RuntimeConnectionSafety
  import opened RuntimeConnectionModel

  class RuntimeConnection {
    var stopped: bool
    var roundActive: bool
    var candidateIndex: nat
    var candidate: Option<Socket>
    var activeSocket: Option<Socket>
    var roundDeadline: Option<Handle>
    var candidateDeadline: Option<Handle>
    var retrySchedule: Option<Handle>
    var activeSession: Option<Socket>
    var immediateReconnect: bool
    var status: Status
    var timers: map<Handle, Timer>
    var nextHandle: Handle
    var nextSocket: Socket
    var settled: set<Socket>
    var accepted: set<Socket>
    var liveLeases: set<Socket>
    var closed: set<Socket>
    ghost var tried: seq<nat>
    ghost var announced: bool
    ghost var leftOver: bool

    ghost function View(): Connection
      reads this
    {
      Connection(stopped, roundActive, candidateIndex, candidate, activeSocket, roundDeadline, candidateDeadline,
                 retrySchedule, activeSession, immediateReconnect, status, timers, nextHandle, nextSocket, settled,
                 accepted, liveLeases, closed, tried, announced, leftOver)
    }

    ghost predicate Valid()
      reads this
    {
      Safety.Inv(View())
    }

    constructor ()
      ensures Valid() && View() == Model.START
    {
      stopped, roundActive, candidateIndex, candidate, activeSocket := true, false, 0, None, None;
      roundDeadline, candidateDeadline, retrySchedule, activeSession := None, None, None, None;
      immediateReconnect, status, timers, nextHandle, nextSocket := false, Disconnected, map[], 0, 0;
      settled, accepted, liveLeases, closed := {}, {}, {}, {};
      tried, announced, leftOver := [], false, false;
    }

    method Schedule(timer: Timer) returns (handle: Handle)
      modifies `timers, `nextHandle
      ensures handle == old(nextHandle) && View() == Arm(old(View()), timer)
    {
      handle := nextHandle;
      nextHandle := nextHandle + 1;
      timers := timers[handle := timer];
    }

    method ClearRoundDeadline()
      modifies `timers, `roundDeadline
      ensures View() == old(View()).(timers := Cancelled(old(timers), old(roundDeadline)), roundDeadline := None)
    {
      if roundDeadline.None? { return; }
      timers := timers - {roundDeadline.value};
      roundDeadline := None;
    }

    method ClearCandidateDeadline()
      modifies `timers, `candidateDeadline
      ensures View()
                  == old(View()).(timers := Cancelled(old(timers), old(candidateDeadline)), candidateDeadline := None)
    {
      if candidateDeadline.None? { return; }
      timers := timers - {candidateDeadline.value};
      candidateDeadline := None;
    }

    method ClearBothDeadlines()
      modifies `timers, `roundDeadline, `candidateDeadline
      ensures View() == ClearDeadlines(old(View()))
    {
      ClearRoundDeadline();
      ClearCandidateDeadline();
    }

    method CloseSocket(socket: Option<Socket>)
      modifies `closed
      ensures View() == Close(old(View()), socket)
    {
      if socket.Some? {
        closed := closed + {socket.value};
      }
    }

    method RevokeActiveSession()
      modifies `liveLeases, `activeSession
      ensures View() == Revoke(old(View()))
    {
      if activeSession.Some? {
        liveLeases := liveLeases - {activeSession.value};
      }
      activeSession := None;
    }

    method RetryLater()
      modifies `timers, `nextHandle, `retrySchedule
      ensures View() == ScheduleRetry(old(View()))
    {
      if stopped || retrySchedule.Some? || activeSocket.Some? { return; }
      var handle := Schedule(Retry);
      retrySchedule := Some(handle);
    }

    method EndRound()
      modifies this
      ensures View() == FinishRound(old(View()))
    {
      if !roundActive { return; }
      ClearBothDeadlines();
      var last := candidate;
      roundActive, candidate, status := false, None, Disconnected;
      assert View() == ClearDeadlines(old(View())).(roundActive := false, candidate := None, status := Disconnected);
      CloseSocket(last);
      RetryLater();
    }

    method Probe(creates: seq<bool>)
      requires |creates| == |PHOTOSHOP_PORTS|
      modifies this
      ensures View() == ProbeNext(old(View()), creates)
      decreases |PHOTOSHOP_PORTS| - candidateIndex
    {
      if !roundActive || stopped { return; }
      if candidateIndex >= |PHOTOSHOP_PORTS| {
        EndRound();
        return;
      }
      var created := creates[candidateIndex];
      tried := tried + [PHOTOSHOP_PORTS[candidateIndex]];
      candidateIndex := candidateIndex + 1;
      if !created {
        Probe(creates);
        return;
      }
      var socket := nextSocket;
      nextSocket := nextSocket + 1;
      candidate := Some(socket);
      var handle := Schedule(CandidateDeadline(socket));
      candidateDeadline := Some(handle);
    }

    method OpenRound()
      modifies `roundActive, `candidateIndex, `status, `tried
      ensures View() == old(View()).(roundActive := true, candidateIndex := 0, tried := [], status := Connecting)
    {
      roundActive, candidateIndex, status := true, 0, Connecting;
      tried := [];
    }

    method ArmRound()
      modifies `timers, `nextHandle, `roundDeadline
      ensures View() == Arm(old(View()), RoundDeadline).(roundDeadline := Some(old(nextHandle)))
    {
      var handle := Schedule(RoundDeadline);
      roundDeadline := Some(handle);
    }

    method BeginRound(creates: seq<bool>)
      requires |creates| == |PHOTOSHOP_PORTS|
      modifies this
      ensures View() == StartRound(old(View()), creates)
    {
      if stopped || roundActive || activeSocket.Some? { return; }
      OpenRound();
      ArmRound();
      Probe(creates);
    }

    method Reject(socket: Socket, creates: seq<bool>)
      requires |creates| == |PHOTOSHOP_PORTS|
      modifies this
      ensures View() == RejectCandidate(old(View()), socket, creates)
    {
      if socket in settled || candidate != Some(socket) || !roundActive { return; }
      Settle(socket);
      ClearCandidateDeadline();
      candidate := None;
      CloseSocket(Some(socket));
      Probe(creates);
    }

    method Settle(socket: Socket)
      modifies `settled
      ensures View() == old(View()).(settled := old(settled) + {socket})
    {
      settled := settled + {socket};
    }

    method Promote(socket: Socket)
      modifies `roundActive, `candidate, `activeSocket, `status
      ensures View()
                  == old(View()).(roundActive := false, candidate := None, activeSocket := Some(socket),
                  status := Ready)
    {
      roundActive, candidate, activeSocket, status := false, None, Some(socket), Ready;
    }

    method OpenLease(socket: Socket)
      modifies `activeSession, `liveLeases, `accepted, `announced
      ensures View() == old(View()).(activeSession := Some(socket), liveLeases := old(liveLeases) + {socket},
                accepted := old(accepted) + {socket}, announced := false)
    {
      activeSession, liveLeases, accepted := Some(socket), liveLeases + {socket}, accepted + {socket};
      announced := false;
    }

    method Accept(socket: Socket)
      modifies this
      ensures View() == AcceptSession(old(View()), socket)
    {
      Settle(socket);
      ClearBothDeadlines();
      Promote(socket);
      OpenLease(socket);
    }

    method Detach()
      modifies `activeSocket, `status
      ensures View() == old(View()).(activeSocket := None, status := Disconnected)
    {
      activeSocket, status := None, Disconnected;
    }

    method Unflag()
      modifies `immediateReconnect, `announced, `leftOver
      ensures View() == old(View()).(immediateReconnect := false, announced := false, leftOver := false)
    {
      immediateReconnect := false;
      announced, leftOver := false, false;
    }

    ghost method Forget()
      modifies `announced, `leftOver
      ensures View() == old(View()).(announced := false, leftOver := old(immediateReconnect))
    {
      announced, leftOver := false, immediateReconnect;
    }

    method HandleSessionLoss(socket: Socket, creates: seq<bool>)
      requires |creates| == |PHOTOSHOP_PORTS|
      modifies this
      ensures View() == LoseSession(old(View()), socket, creates)
    {
      if activeSocket != Some(socket) { return; }
      var immediate := immediateReconnect;
      Detach();
      Unflag();
      RevokeActiveSession();
      if immediate {
        BeginRound(creates);
      } else {
        RetryLater();
      }
    }

    method CloseInvalid(socket: Socket, creates: seq<bool>)
      requires |creates| == |PHOTOSHOP_PORTS|
      modifies this
      ensures View() == CloseInvalidSession(old(View()), socket, creates)
    {
      if activeSocket == Some(socket) {
        Unflag();
      }
      CloseSocket(Some(socket));
      HandleSessionLoss(socket, creates);
    }

    method RetireLease(socket: Socket, creates: seq<bool>)
      requires |creates| == |PHOTOSHOP_PORTS|
      modifies this
      ensures View() == Retire(old(View()), socket, creates)
    {
      CloseSocket(Some(socket));
      HandleSessionLoss(socket, creates);
    }

    method HandleCandidateMessage(socket: Socket, message: Message, creates: seq<bool>)
      requires |creates| == |PHOTOSHOP_PORTS|
      modifies this
      ensures View() == CandidateMessage(old(View()), socket, message, creates)
    {
      if socket in settled || candidate != Some(socket) || message.NotText? {
        Reject(socket, creates);
        return;
      }
      if !message.SessionReady? {
        Reject(socket, creates);
        return;
      }
      Accept(socket);
    }

    method HandleSessionMessage(socket: Socket, message: Message, creates: seq<bool>)
      requires |creates| == |PHOTOSHOP_PORTS|
      modifies this
      ensures View() == SessionMessage(old(View()), socket, message, creates)
    {
      if activeSocket != Some(socket) || message.NotText? {
        CloseInvalid(socket, creates);
        return;
      }
      if message.Invalid? || message.SessionReady? || activeSession.None? || activeSession.value !in liveLeases {
        CloseInvalid(socket, creates);
        return;
      }
      if message.Replacing? {
        immediateReconnect := true;
        announced := true;
        CloseSocket(Some(socket));
      } else if message.sendFails {
        RetireLease(socket, creates);
      }
    }

    method Start(creates: seq<bool>)
      requires Valid() && |creates| == |PHOTOSHOP_PORTS|
      modifies this
      ensures View() == TakeStep(old(View()), Step.Start(creates)) && Valid()
    {
      Safety.StepKeepsInv(View(), Step.Start(creates));
      if !stopped { return; }
      stopped := false;
      BeginRound(creates);
    }

    method ClearRetrySchedule()
      modifies `timers, `retrySchedule
      ensures View() == old(View()).(timers := Cancelled(old(timers), old(retrySchedule)), retrySchedule := None)
    {
      if retrySchedule.Some? {
        timers := timers - {retrySchedule.value};
        retrySchedule := None;
      }
    }

    method Halt()
      modifies `stopped, `roundActive
      ensures View() == old(View()).(stopped := true, roundActive := false)
    {
      stopped, roundActive := true, false;
    }

    method StopAll()
      modifies this
      ensures View() == Model.Stop(old(View()))
    {
      var last, active := candidate, activeSocket;
      Halt();
      ClearBothDeadlines();
      ClearRetrySchedule();
      candidate := None;
      Detach();
      Forget();
      CloseSocket(last);
      CloseSocket(active);
      RevokeActiveSession();
    }

    method Stop()
      requires Valid()
      modifies this
      ensures View() == Model.Stop(old(View())) && Valid()
    {
      Safety.StopKeeps(View());
      StopAll();
    }

    // ---------- The callbacks ----------

    /** A scheduled timer fires. A session start checks the protocol and sends its first message. */
    method OnTimer(handle: Handle, protocolOk: bool, sent: bool, creates: seq<bool>)
      requires Valid() && CanStep(View(), TimerFires(handle, protocolOk, sent, creates))
      modifies this
      ensures View() == TakeStep(old(View()), TimerFires(handle, protocolOk, sent, creates)) && Valid()
    {
      Safety.StepKeepsInv(View(), TimerFires(handle, protocolOk, sent, creates));
      var timer := timers[handle];
      timers := timers - {handle};
      match timer {
        case RoundDeadline => EndRound();
        case CandidateDeadline(socket) => Reject(socket, creates);
        case Retry =>
          retrySchedule := None;
          BeginRound(creates);
        case SessionStart(socket) =>
          if !(socket in settled || candidate != Some(socket) || !roundActive) && (!protocolOk || !sent) {
            Reject(socket, creates);
          }
      }
    }

    method OnOpen(socket: Socket)
      requires Valid() && CanStep(View(), Opened(socket))
      modifies this
      ensures View() == TakeStep(old(View()), Opened(socket)) && Valid()
    {
      Safety.StepKeepsInv(View(), Opened(socket));
      var _ := Schedule(SessionStart(socket));
    }

    /** A socket closes or fails. */
    method OnEnd(socket: Socket, creates: seq<bool>)
      requires Valid() && CanStep(View(), Ended(socket, creates))
      modifies this
      ensures View() == TakeStep(old(View()), Ended(socket, creates)) && Valid()
    {
      Safety.StepKeepsInv(View(), Ended(socket, creates));
      CloseSocket(Some(socket));
      if socket in accepted {
        HandleSessionLoss(socket, creates);
      } else {
        Reject(socket, creates);
      }
    }

    method OnMessage(socket: Socket, message: Message, creates: seq<bool>)
      requires Valid() && CanStep(View(), Received(socket, message, creates))
      modifies this
      ensures View() == TakeStep(old(View()), Received(socket, message, creates)) && Valid()
    {
      Safety.StepKeepsInv(View(), Received(socket, message, creates));
      if socket in accepted {
        HandleSessionMessage(socket, message, creates);
      } else {
        HandleCandidateMessage(socket, message, creates);
      }
    }

    /** A send through the active session fails, and its lease retires itself. */
    method OnSendFailed(creates: seq<bool>)
      requires Valid() && CanStep(View(), SendFailed(creates))
      modifies this
      ensures View() == TakeStep(old(View()), SendFailed(creates)) && Valid()
    {
      Safety.StepKeepsInv(View(), SendFailed(creates));
      RetireLease(activeSession.value, creates);
    }
  }
}

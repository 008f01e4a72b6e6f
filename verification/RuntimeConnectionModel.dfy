/** The plugin's connection to Runtime: rounds over the candidate ports, their timers, the one active
    session and its lease. Every function is one callback of the connection, run to its end. */
module RuntimeConnectionModel {
  import opened Options

  const PHOTOSHOP_PORTS: seq<nat> := [32124, 32125, 32126, 32127, 32128, 32129, 32130, 32131]

  type Socket = nat
  type Handle = nat

  datatype Status = Disconnected | Connecting | Ready

  datatype Timer = RoundDeadline | CandidateDeadline(socket: Socket) | Retry | SessionStart(socket: Socket)

  datatype Message = NotText | Invalid | SessionReady | Replacing | Other(sendFails: bool)

  datatype Connection = Connection(
    stopped: bool,
    roundActive: bool,
    candidateIndex: nat,
    candidate: Option<Socket>,
    activeSocket: Option<Socket>,
    roundDeadline: Option<Handle>,
    candidateDeadline: Option<Handle>,
    retrySchedule: Option<Handle>,
    activeSession: Option<Socket>,       // the lease on this socket
    immediateReconnect: bool,
    status: Status,
    timers: map<Handle, Timer>,          // scheduled, neither fired nor cancelled
    nextHandle: Handle,
    nextSocket: Socket,
    settled: set<Socket>,
    accepted: set<Socket>,               // sockets whose handlers are those of a session
    liveLeases: set<Socket>,
    closed: set<Socket>,
    tried: seq<nat>,                     // ports of the current round
    announced: bool,                     // the active session said its Runtime is being replaced
    leftOver: bool)                      // immediateReconnect is still set from before a stop

  const START := Connection(true, false, 0, None, None, None, None, None, None, false, Disconnected,
                            map[], 0, 0, {}, {}, {}, {}, [], false, false)

  function Arm(c: Connection, timer: Timer): Connection {
    c.(timers := c.timers[c.nextHandle := timer], nextHandle := c.nextHandle + 1)
  }

  function Cancelled(timers: map<Handle, Timer>, handle: Option<Handle>): map<Handle, Timer> {
    if handle.None? then timers else timers - {handle.value}
  }

  function ClearDeadlines(c: Connection): Connection {
    c.(timers := Cancelled(Cancelled(c.timers, c.roundDeadline), c.candidateDeadline),
       roundDeadline := None, candidateDeadline := None)
  }

  function Close(c: Connection, socket: Option<Socket>): Connection {
    if socket.None? then c else c.(closed := c.closed + {socket.value})
  }

  function Revoke(c: Connection): Connection {
    c.(liveLeases := if c.activeSession.None? then c.liveLeases else c.liveLeases - {c.activeSession.value},
       activeSession := None)
  }

  function ScheduleRetry(c: Connection): Connection {
    if c.stopped || c.retrySchedule.Some? || c.activeSocket.Some? then c
    else Arm(c, Retry).(retrySchedule := Some(c.nextHandle))
  }

  function FinishRound(c: Connection): Connection {
    if !c.roundActive then c
    else
      var ended := ClearDeadlines(c).(roundActive := false, candidate := None, status := Disconnected);
      ScheduleRetry(Close(ended, c.candidate))
  }

  // `creates` says for each port whether a socket can be created for it.
  function ProbeNext(c: Connection, creates: seq<bool>): Connection
    requires |creates| == |PHOTOSHOP_PORTS|
    decreases |PHOTOSHOP_PORTS| - c.candidateIndex
  {
    if !c.roundActive || c.stopped then c
    else if c.candidateIndex >= |PHOTOSHOP_PORTS| then FinishRound(c)
    else
      var tried := c.(candidateIndex := c.candidateIndex + 1, tried := c.tried + [PHOTOSHOP_PORTS[c.candidateIndex]]);
      if !creates[c.candidateIndex] then ProbeNext(tried, creates)
      else
        Arm(tried, CandidateDeadline(c.nextSocket))
          .(candidate := Some(c.nextSocket), nextSocket := c.nextSocket + 1, candidateDeadline := Some(c.nextHandle))
  }

  function StartRound(c: Connection, creates: seq<bool>): Connection
    requires |creates| == |PHOTOSHOP_PORTS|
  {
    if c.stopped || c.roundActive || c.activeSocket.Some? then c
    else
      ProbeNext(Arm(c, RoundDeadline).(roundActive := true, candidateIndex := 0, tried := [], status := Connecting,
                                       roundDeadline := Some(c.nextHandle)), creates)
  }

  function RejectCandidate(c: Connection, socket: Socket, creates: seq<bool>): Connection
    requires |creates| == |PHOTOSHOP_PORTS|
  {
    if socket in c.settled || c.candidate != Some(socket) || !c.roundActive then c
    else
      ProbeNext(c.(settled := c.settled + {socket}, timers := Cancelled(c.timers, c.candidateDeadline),
                   candidateDeadline := None, candidate := None, closed := c.closed + {socket}), creates)
  }

  function AcceptSession(c: Connection, socket: Socket): Connection {
    ClearDeadlines(c.(settled := c.settled + {socket}))
      .(roundActive := false, candidate := None, activeSocket := Some(socket), activeSession := Some(socket),
        liveLeases := c.liveLeases + {socket}, accepted := c.accepted + {socket}, status := Ready, announced := false)
  }

  function LoseSession(c: Connection, socket: Socket, creates: seq<bool>): Connection
    requires |creates| == |PHOTOSHOP_PORTS|
  {
    if c.activeSocket != Some(socket) then c
    else
      var lost := Revoke(c.(activeSocket := None, status := Disconnected, immediateReconnect := false,
                            announced := false, leftOver := false));
      if c.immediateReconnect then StartRound(lost, creates) else ScheduleRetry(lost)
  }

  // The lease retires itself when a send on its socket fails.
  function Retire(c: Connection, socket: Socket, creates: seq<bool>): Connection
    requires |creates| == |PHOTOSHOP_PORTS|
  {
    LoseSession(Close(c, Some(socket)), socket, creates)
  }

  function CloseInvalidSession(c: Connection, socket: Socket, creates: seq<bool>): Connection
    requires |creates| == |PHOTOSHOP_PORTS|
  {
    var told := if c.activeSocket == Some(socket)
        then c.(immediateReconnect := false, announced := false, leftOver := false)
                else c;
    LoseSession(Close(told, Some(socket)), socket, creates)
  }

  function CandidateMessage(c: Connection, socket: Socket, message: Message, creates: seq<bool>): Connection
    requires |creates| == |PHOTOSHOP_PORTS|
  {
    if socket in c.settled || c.candidate != Some(socket) || !message.SessionReady?
        then RejectCandidate(c, socket, creates)
    else AcceptSession(c, socket)
  }

  function SessionMessage(c: Connection, socket: Socket, message: Message, creates: seq<bool>): Connection
    requires |creates| == |PHOTOSHOP_PORTS|
  {
    if c.activeSocket != Some(socket) || message.NotText? || message.Invalid? || message.SessionReady?
       || c.activeSession.None? || c.activeSession.value !in c.liveLeases then CloseInvalidSession(c, socket, creates)
    else
      match message
      case Replacing => Close(c, Some(socket)).(immediateReconnect := true, announced := true)
      case Other(sendFails) => if sendFails then Retire(c, socket, creates) else c
  }

  function Stop(c: Connection): Connection {
    var cleared := ClearDeadlines(c);
    var quiet := cleared.(stopped := true, roundActive := false, timers := Cancelled(cleared.timers, c.retrySchedule),
                          retrySchedule := None, candidate := None, activeSocket := None, status := Disconnected,
                          announced := false, leftOver := c.immediateReconnect);
    Revoke(Close(Close(quiet, c.candidate), c.activeSocket))
  }

  datatype Step =
    | Start(creates: seq<bool>)
    | StopCalled
    | TimerFires(handle: Handle, protocolOk: bool, sent: bool, creates: seq<bool>)
    | Opened(socket: Socket)
    | Ended(socket: Socket, creates: seq<bool>)
    | Received(socket: Socket, message: Message, creates: seq<bool>)
    | SendFailed(creates: seq<bool>)

  function Fire(c: Connection, timer: Timer, protocolOk: bool, sent: bool, creates: seq<bool>): Connection
    requires |creates| == |PHOTOSHOP_PORTS|
  {
    match timer
    case RoundDeadline => FinishRound(c)
    case CandidateDeadline(socket) => RejectCandidate(c, socket, creates)
    case Retry => StartRound(c.(retrySchedule := None), creates)
    case SessionStart(socket) =>
      if socket in c.settled || c.candidate != Some(socket) || !c.roundActive then c
      else if !protocolOk || !sent then RejectCandidate(c, socket, creates)
      else c
  }

  predicate CanStep(c: Connection, step: Step) {
    match step
    case Start(creates) => |creates| == |PHOTOSHOP_PORTS|
    case StopCalled => true
    case TimerFires(handle, _, _, creates) => handle in c.timers && |creates| == |PHOTOSHOP_PORTS|
    case Opened(socket) => socket < c.nextSocket && socket !in c.accepted
    case Ended(socket, creates) => socket < c.nextSocket && |creates| == |PHOTOSHOP_PORTS|
    case Received(socket, _, creates) => socket < c.nextSocket && |creates| == |PHOTOSHOP_PORTS|
    case SendFailed(creates) => c.activeSession.Some? && |creates| == |PHOTOSHOP_PORTS|
  }

  function TakeStep(c: Connection, step: Step): Connection
    requires CanStep(c, step)
  {
    match step
    case Start(creates) => if !c.stopped then c else StartRound(c.(stopped := false), creates)
    case StopCalled => Stop(c)
    case TimerFires(handle, protocolOk, sent, creates) =>
      Fire(c.(timers := c.timers - {handle}), c.timers[handle], protocolOk, sent, creates)
    case Opened(socket) => Arm(c, SessionStart(socket))
    case Ended(socket, creates) =>
      var gone := Close(c, Some(socket));
      if socket in c.accepted then LoseSession(gone, socket, creates) else RejectCandidate(gone, socket, creates)
    case Received(socket, message, creates) =>
      if socket in c.accepted then SessionMessage(c, socket, message, creates)
      else CandidateMessage(c, socket, message, creates)
    case SendFailed(creates) => Retire(c, c.activeSession.value, creates)
  }

  ghost predicate IsRun(run: seq<Connection>, steps: seq<Step>) {
    && |run| == |steps| + 1
    && run[0] == START
    && forall k :: 0 <= k < |steps| ==> CanStep(run[k], steps[k]) && run[k + 1] == TakeStep(run[k], steps[k])
  }

  ghost predicate Reachable(c: Connection) {
    exists run: seq<Connection>, steps: seq<Step> :: IsRun(run, steps) && run[|run| - 1] == c
  }
}

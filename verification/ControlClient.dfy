/** The requests and the writes of the Runtime control client. A request is registered, its message is
    queued, written in turn, and answered; a failure ends all of them. */
module ControlClient {
  import opened Options
  import opened BigEndian
  import opened ControlFrames

  const CONTROL_OUTBOUND_QUEUE_CAPACITY: nat := 64

  type Id = nat

  datatype Write = Write(request: Option<Id>, payload: Bytes)

  datatype Client = Client(
    terminal: bool,
    pending: set<Id>,
    resolved: set<Id>,
    rejected: set<Id>,
    dropped: set<Id>,            // taken back by the request itself: its message was never written out
    writes: seq<Write>,          // queued or being written
    writing: bool,
    wire: Bytes,
    made: nat,
    sent: seq<Bytes>,
    queued: seq<Bytes>)          // every payload ever admitted to the queue

  const START := Client(false, {}, {}, {}, {}, [], false, [], 0, [], [])

  function Fail(c: Client): Client {
    if c.terminal then c
    else c.(terminal := true, rejected := c.rejected + c.pending, pending := {})
  }

  function Drop(c: Client, request: Option<Id>): Client {
    if request.Some? && request.value in c.pending then
      c.(pending := c.pending - {request.value}, dropped := c.dropped + {request.value})
    else c
  }

  function Enqueue(c: Client, write: Write): Client {
    if |c.writes| >= CONTROL_OUTBOUND_QUEUE_CAPACITY then Drop(Fail(c), write.request)
    else c.(writes := c.writes + [write], queued := c.queued + [write.payload])
  }

  // `waited` requests let the client become ready first; it may fail in the meantime.
  function Request(c: Client, payload: Bytes, waited: bool): Client {
    if c.terminal && !waited then c
    else Enqueue(c.(pending := c.pending + {c.made}, made := c.made + 1), Write(Some(c.made), payload))
  }

  function WriteFails(c: Client): Client
    requires c.writes != []
  {
    Drop(Fail(c).(writes := c.writes[1..], writing := false), c.writes[0].request)
  }

  function WriteStarts(c: Client): Client
    requires c.writes != []
  {
    var payload := c.writes[0].payload;
    if c.terminal || |payload| > MAX_CONTROL_FRAME_BYTES then WriteFails(c)
    else c.(writing := true, wire := c.wire + Frame(payload), sent := c.sent + [payload])
  }

  function WriteEnds(c: Client, ok: bool): Client
    requires c.writes != []
  {
    if ok then c.(writes := c.writes[1..], writing := false) else WriteFails(c)
  }

  function Respond(c: Client, id: Id): Client {
    if c.terminal then c
    else if id !in c.pending then Fail(c)
    else c.(pending := c.pending - {id}, resolved := c.resolved + {id})
  }

  datatype Step =
    | Handshake(payload: Bytes)
    | Requested(payload: Bytes, waited: bool)
    | WriteStarted
    | WriteEnded(ok: bool)
    | Responded(id: Id)
    | Failed

  predicate CanStep(c: Client, step: Step) {
    match step
    case Handshake(payload) => payload != []
    case Requested(payload, _) => payload != []
    case WriteStarted => c.writes != [] && !c.writing
    case WriteEnded(_) => c.writing && c.writes != []
    case _ => true
  }

  function TakeStep(c: Client, step: Step): Client
    requires CanStep(c, step)
  {
    match step
    case Handshake(payload) => Enqueue(c, Write(None, payload))
    case Requested(payload, waited) => Request(c, payload, waited)
    case WriteStarted => WriteStarts(c)
    case WriteEnded(ok) => WriteEnds(c, ok)
    case Responded(id) => Respond(c, id)
    case Failed => Fail(c)
  }

  ghost predicate IsRun(run: seq<Client>, steps: seq<Step>) {
    && |run| == |steps| + 1
    && run[0] == START
    && forall k :: 0 <= k < |steps| ==> CanStep(run[k], steps[k]) && run[k + 1] == TakeStep(run[k], steps[k])
  }

  ghost predicate Reachable(c: Client) {
    exists run: seq<Client>, steps: seq<Step> :: IsRun(run, steps) && run[|run| - 1] == c
  }

  // ---------- What every step keeps ----------

  function Places(c: Client, id: Id): nat {
    One(id in c.pending) + One(id in c.resolved) + One(id in c.rejected) + One(id in c.dropped)
  }

  predicate Queued(writes: seq<Write>, id: Id) {
    exists k :: 0 <= k < |writes| && writes[k].request == Some(id)
  }

  function NotStarted(c: Client): seq<Write> {
    if c.writing && c.writes != [] then c.writes[1..] else c.writes
  }

  // After a failure, a request still pending is a late one whose message is still to be given up.
  ghost predicate RequestsOk(c: Client) {
    && (forall id: Id :: Places(c, id) == One(id < c.made))
    && (c.terminal ==> forall id :: id in c.pending ==> Queued(NotStarted(c), id))
  }

  ghost predicate WritesOk(c: Client) {
    && |c.writes| <= CONTROL_OUTBOUND_QUEUE_CAPACITY
    && (c.writing ==> c.writes != [])
    && (forall k :: 0 <= k < |c.writes| ==> c.writes[k].payload != [])
    && Payloads(c.sent) && c.wire == Frames(c.sent)
    && c.sent <= c.queued
    && |c.queued| >= |c.writes|
    && (forall k :: 0 <= k < |c.writes| ==> c.queued[|c.queued| - |c.writes| + k] == c.writes[k].payload)
    && (!c.terminal ==> |c.sent| == |c.queued| - |c.writes| + One(c.writing))
  }

  ghost predicate Inv(c: Client) {
    RequestsOk(c) && WritesOk(c)
  }

  lemma FailKeeps(c: Client)
    requires Inv(c)
    ensures Inv(Fail(c))
  {
    var n := Fail(c);
    forall id: Id
      ensures Places(n, id) == One(id < n.made)
    {
      assert Places(c, id) == One(id < c.made);
    }
  }

  lemma QueueGrows(writes: seq<Write>, write: Write, id: Id)
    ensures Queued(writes + [write], id) <==> Queued(writes, id) || write.request == Some(id)
  {
    if Queued(writes, id) {
      var k :| 0 <= k < |writes| && writes[k].request == Some(id);
      assert (writes + [write])[k].request == Some(id);
    }
    assert (writes + [write])[|writes|] == write;
  }

  lemma RequestKeeps(c: Client, payload: Bytes, waited: bool)
    requires Inv(c) && payload != []
    ensures Inv(Request(c, payload, waited))
  {
    var n := Request(c, payload, waited);
    if !c.terminal || waited {
      assert Places(c, c.made) == 0;
      forall id: Id
        ensures Places(n, id) == One(id < n.made)
      {
        assert Places(c, id) == One(id < c.made);
      }
      if |c.writes| < CONTROL_OUTBOUND_QUEUE_CAPACITY {
        assert NotStarted(n) == NotStarted(c) + [Write(Some(c.made), payload)];
        forall id
          ensures Queued(NotStarted(n), id) <==> Queued(NotStarted(c), id) || id == c.made
        {
          QueueGrows(NotStarted(c), Write(Some(c.made), payload), id);
        }
      }
    }
  }

  lemma HandshakeKeeps(c: Client, payload: Bytes)
    requires Inv(c) && payload != []
    ensures Inv(Enqueue(c, Write(None, payload)))
  {
    if |c.writes| >= CONTROL_OUTBOUND_QUEUE_CAPACITY {
      FailKeeps(c);
    } else {
      var n := Enqueue(c, Write(None, payload));
      assert NotStarted(n) == NotStarted(c) + [Write(None, payload)];
      forall id: Id
        ensures Places(n, id) == Places(c, id)
        ensures Queued(NotStarted(n), id) <==> Queued(NotStarted(c), id)
      {
        QueueGrows(NotStarted(c), Write(None, payload), id);
      }
    }
  }

  lemma QueueShrinks(writes: seq<Write>, id: Id)
    requires writes != [] && Queued(writes, id) && writes[0].request != Some(id)
    ensures Queued(writes[1..], id)
  {
    var k :| 0 <= k < |writes| && writes[k].request == Some(id);
    assert writes[1..][k - 1].request == Some(id);
  }

  lemma WriteFailsKeeps(c: Client)
    requires Inv(c) && c.writes != []
    ensures Inv(WriteFails(c))
  {
    FailKeeps(c);
    var f := Fail(c);
    var n := WriteFails(c);
    forall id: Id
      ensures Places(n, id) == One(id < n.made)
    {
      assert Places(f, id) == One(id < f.made);
    }
    forall id | id in n.pending
      ensures Queued(n.writes, id)
    {
      if !c.writing {
        QueueShrinks(c.writes, id);
      }
    }
  }

  lemma WriteStartsKeeps(c: Client)
    requires Inv(c) && c.writes != [] && !c.writing
    ensures Inv(WriteStarts(c))
  {
    var payload := c.writes[0].payload;
    if c.terminal || |payload| > MAX_CONTROL_FRAME_BYTES {
      WriteFailsKeeps(c);
    } else {
      var n := WriteStarts(c);
      FramesAppend(c.sent, payload);
      forall id: Id
        ensures Places(n, id) == One(id < n.made)
      {
        assert Places(c, id) == One(id < c.made);
      }
      assert c.queued[|c.sent|] == payload;
    }
  }

  lemma WriteEndsKeeps(c: Client, ok: bool)
    requires Inv(c) && c.writing && c.writes != []
    ensures Inv(WriteEnds(c, ok))
  {
    if ok {
      var n := WriteEnds(c, ok);
      forall id: Id
        ensures Places(n, id) == One(id < n.made)
      {
        assert Places(c, id) == One(id < c.made);
      }
    } else {
      WriteFailsKeeps(c);
    }
  }

  lemma RespondKeeps(c: Client, id: Id)
    requires Inv(c)
    ensures Inv(Respond(c, id))
  {
    FailKeeps(c);
    if !c.terminal && id in c.pending {
      var n := Respond(c, id);
      forall other: Id
        ensures Places(n, other) == One(other < n.made)
      {
        assert Places(c, other) == One(other < c.made);
      }
    }
  }

  lemma StepKeepsInv(c: Client, step: Step)
    requires Inv(c) && CanStep(c, step)
    ensures Inv(TakeStep(c, step))
  {
    match step
    case Handshake(payload) => HandshakeKeeps(c, payload);
    case Requested(payload, waited) => RequestKeeps(c, payload, waited);
    case WriteStarted => WriteStartsKeeps(c);
    case WriteEnded(ok) => WriteEndsKeeps(c, ok);
    case Responded(id) => RespondKeeps(c, id);
    case Failed => FailKeeps(c);
  }

  lemma {:induction false} RunKeepsInv(run: seq<Client>, steps: seq<Step>, k: nat)
    requires IsRun(run, steps) && k < |run|
    ensures Inv(run[k])
  {
    if k == 0 {
    } else {
      RunKeepsInv(run, steps, k - 1);
      StepKeepsInv(run[k - 1], steps[k - 1]);
    }
  }

  lemma ReachableInv(c: Client)
    requires Reachable(c)
    ensures Inv(c)
  {
    var run: seq<Client>, steps: seq<Step> :| IsRun(run, steps) && run[|run| - 1] == c;
    RunKeepsInv(run, steps, |run| - 1);
  }

  // ---------- The main results ----------

  /** Every request made is pending, resolved, rejected or taken back, and only one of these. Once the
      client has failed and its queue has run empty, none is pending: no caller waits for ever. */
  lemma RequestsAreSettledOnce(c: Client, id: Id)
    requires Reachable(c)
    ensures One(id in c.pending) + One(id in c.resolved) + One(id in c.rejected) + One(id in c.dropped)
                == One(id < c.made)
    ensures c.terminal && c.writes == [] ==> c.pending == {}
  {
    ReachableInv(c);
    assert Places(c, id) == One(id < c.made);
    if c.terminal && c.writes == [] {
      assert forall other :: other in c.pending ==> Queued(NotStarted(c), other);
    }
  }

  /** What a step settles, and how: a pending request is resolved by its own answer and by nothing else,
      taken back when its own message is given up while the client had failed before, and rejected by
      every step that makes the client fail, except that the request whose message cannot be queued or
      written is among those rejected. Nothing settled is settled again. */
  lemma SettledExactly(c: Client, step: Step, id: Id)
    requires Reachable(c) && CanStep(c, step) && id in c.pending
    ensures var n := TakeStep(c, step);
            && (id in n.resolved <==> step == Responded(id) && !c.terminal)
            && (id in n.rejected <==> !c.terminal && FailsClient(c, step))
            && (id in n.dropped <==> c.terminal && GivesUpWrite(c, step) && c.writes[0].request == Some(id))
  {
    ReachableInv(c);
    assert Places(c, id) == One(id < c.made);
  }

  /** The steps at which the client fails: told so, an answer to nothing pending, a message that finds the
      queue full, one too long for a frame, and a write that fails. */
  predicate FailsClient(c: Client, step: Step)
    requires CanStep(c, step)
  {
    || step.Failed?
    || (step.Responded? && step.id !in c.pending)
    || ((step.Handshake? || step.Requested?) && |c.writes| >= CONTROL_OUTBOUND_QUEUE_CAPACITY)
    || GivesUpWrite(c, step)
  }

  // The first message of the queue is given up.
  predicate GivesUpWrite(c: Client, step: Step)
    requires CanStep(c, step)
  {
    || (step.WriteStarted? && (c.terminal || |c.writes[0].payload| > MAX_CONTROL_FRAME_BYTES))
    || (step.WriteEnded? && !step.ok)
  }

  /** The client fails at exactly those steps, and for good. A new request is afterwards pending with its
      message last in the queue; or, if the queue was full, rejected by the failure, or taken back from a
      client that had failed before. */
  lemma FailsExactly(c: Client, step: Step)
    requires Reachable(c) && CanStep(c, step)
    ensures var n := TakeStep(c, step);
            && (n.terminal <==> c.terminal || FailsClient(c, step))
            && (step.Requested? && (!c.terminal || step.waited) ==>
                && n.made == c.made + 1
                && if |c.writes| < CONTROL_OUTBOUND_QUEUE_CAPACITY then
                     c.made in n.pending && n.writes == c.writes + [Write(Some(c.made), step.payload)]
                   else n.writes == c.writes && c.made in if c.terminal then n.dropped else n.rejected)
            && (step.Requested? && c.terminal && !step.waited ==> n == c)
  {
    ReachableInv(c);
    assert Places(c, c.made) == 0;
  }

  /** What each step does to the queue: messages are written one at a time from its front, a message that
      is given up leaves it unwritten, and only a request or the handshake puts one in, at its end. */
  lemma WritesExactly(c: Client, step: Step)
    requires Reachable(c) && CanStep(c, step)
    ensures var n := TakeStep(c, step);
            if step.WriteStarted? && !GivesUpWrite(c, step) then
              n.writing && n.writes == c.writes && n.sent == c.sent + [c.writes[0].payload]
            else if step.WriteStarted? || step.WriteEnded? then
              !n.writing && n.writes == c.writes[1..] && n.sent == c.sent
            else
              && n.writing == c.writing && n.sent == c.sent
              && (n.writes == c.writes
                  || (|c.writes| < CONTROL_OUTBOUND_QUEUE_CAPACITY && |n.writes| == |c.writes| + 1
                      && c.writes < n.writes && (step.Handshake? || step.Requested?)
                      && n.writes[|c.writes|].payload == step.payload))
  {}

  /** The wire carries the frames of the queued messages in the order they were queued, and a peer that
      accepts them reads exactly those messages from it. The queue never exceeds its capacity. */
  lemma WireReadsBack(c: Client, accepts: seq<Bytes> -> bool)
    requires Reachable(c)
    ensures c.sent <= c.queued && |c.writes| <= CONTROL_OUTBOUND_QUEUE_CAPACITY
    ensures !c.terminal && c.writes == [] ==> c.sent == c.queued
    ensures AllAccepted([], c.sent, accepts) ==> Read(c.wire, [], accepts) == Open(c.sent, [])
  {
    ReachableInv(c);
    if AllAccepted([], c.sent, accepts) {
      FramesReadBack(c.sent, [], accepts);
      assert [] + c.sent == c.sent;
    }
  }

  class NodeRuntimeControlClient {
    var terminal: bool
    var pending: set<Id>
    var resolved: set<Id>
    var rejected: set<Id>
    var dropped: set<Id>
    var writes: seq<Write>
    var writing: bool
    var wire: Bytes
    var made: nat
    ghost var sent: seq<Bytes>
    ghost var queued: seq<Bytes>

    ghost function View(): Client
      reads this
    {
      Client(terminal, pending, resolved, rejected, dropped, writes, writing, wire, made, sent, queued)
    }

    ghost predicate Valid()
      reads this
    {
      Inv(View())
    }

    constructor ()
      ensures Valid() && View() == START
    {
      terminal, pending, resolved, rejected, dropped := false, {}, {}, {}, {};
      writes, writing, wire, made := [], false, [], 0;
      sent, queued := [], [];
    }

    method FailAll()
      modifies `terminal, `pending, `rejected
      ensures View() == Fail(old(View()))
    {
      if terminal { return; }
      terminal := true;
      rejected := rejected + pending;
      pending := {};
    }

    method TakeBack(request: Option<Id>)
      modifies `pending, `dropped
      ensures View() == Drop(old(View()), request)
    {
      if request.Some? && request.value in pending {
        pending := pending - {request.value};
        dropped := dropped + {request.value};
      }
    }

    method EnqueueWrite(write: Write)
      modifies `terminal, `pending, `rejected, `dropped, `writes, `queued
      ensures View() == Enqueue(old(View()), write)
    {
      if |writes| >= CONTROL_OUTBOUND_QUEUE_CAPACITY {
        FailAll();
        TakeBack(write.request);
        return;
      }
      writes := writes + [write];
      queued := queued + [write.payload];
    }

    method MakeRequest(payload: Bytes, waited: bool)
      requires payload != []
      modifies this
      ensures View() == TakeStep(old(View()), Requested(payload, waited))
      ensures old(Valid()) ==> Valid() && Places(View(), old(made)) == One(!old(terminal) || waited)
    {
      if Valid() {
        RequestKeeps(View(), payload, waited);
        assert Places(Request(View(), payload, waited), made) == One(made < Request(View(), payload, waited).made);
      }
      if terminal && !waited { return; }
      var id := made;
      made := made + 1;
      pending := pending + {id};
      EnqueueWrite(Write(Some(id), payload));
    }

    method GiveUpWrite()
      requires writes != []
      modifies this
      ensures View() == WriteFails(old(View()))
    {
      var request := writes[0].request;
      FailAll();
      writes := writes[1..];
      writing := false;
      TakeBack(request);
    }

    method StartWrite()
      requires writes != [] && !writing
      modifies this
      ensures View() == TakeStep(old(View()), WriteStarted)
      ensures old(Valid()) ==> Valid()
    {
      if Valid() {
        WriteStartsKeeps(View());
      }
      var payload := writes[0].payload;
      if terminal || |payload| > MAX_CONTROL_FRAME_BYTES {
        GiveUpWrite();
        return;
      }
      writing := true;
      wire := wire + Uint32(|payload|) + payload;
      assert wire == old(wire) + Frame(payload);
      sent := sent + [payload];
    }

    method EndWrite(ok: bool)
      requires writes != [] && writing
      modifies this
      ensures View() == TakeStep(old(View()), WriteEnded(ok))
      ensures old(Valid()) ==> Valid()
    {
      if Valid() {
        WriteEndsKeeps(View(), ok);
      }
      if ok {
        writes := writes[1..];
        writing := false;
      } else {
        GiveUpWrite();
      }
    }

    method HandleResponse(id: Id)
      modifies this
      ensures View() == TakeStep(old(View()), Responded(id))
      ensures old(Valid()) ==> Valid()
    {
      if Valid() {
        RespondKeeps(View(), id);
      }
      if terminal { return; }
      if id !in pending {
        FailAll();
        return;
      }
      pending := pending - {id};
      resolved := resolved + {id};
    }
  }
}

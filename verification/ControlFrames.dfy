/** The length-prefixed frames of the Runtime control channel, and the reader that cuts them out of the
    chunks a socket delivers. */
module ControlFrames {
  import opened BigEndian
  import opened Flattening

  const MAX_CONTROL_FRAME_BYTES: nat := 1048576

  predicate Payload(payload: Bytes) {
    0 < |payload| <= MAX_CONTROL_FRAME_BYTES
  }

  function Frame(payload: Bytes): Bytes
    requires |payload| <= MAX_CONTROL_FRAME_BYTES
  {
    Uint32(|payload|) + payload
  }

  ghost predicate Framable(payloads: seq<Bytes>) {
    forall p :: p in payloads ==> |p| <= MAX_CONTROL_FRAME_BYTES
  }

  ghost predicate Payloads(payloads: seq<Bytes>) {
    forall p :: p in payloads ==> Payload(p)
  }

  ghost function Frames(payloads: seq<Bytes>): Bytes
    requires Framable(payloads)
  {
    if payloads == [] then [] else Frame(payloads[0]) + Frames(payloads[1..])
  }

  // ---------- The reader ----------

  /** What reading has come to: the payloads passed on so far, and the bytes of the frame that is not
      complete; or a failure, after which nothing is read. */
  datatype Reading = Open(passed: seq<Bytes>, rest: Bytes) | Failed(passed: seq<Bytes>)

  // `accepts` says of the payloads passed on so far whether the last one leaves the channel usable.
  function Read(buffered: Bytes, passed: seq<Bytes>, accepts: seq<Bytes> -> bool): Reading
    decreases |buffered|
  {
    if |buffered| < 4 then Open(passed, buffered)
    else
      var length := ReadUint32(buffered);
      if length == 0 || length > MAX_CONTROL_FRAME_BYTES then Failed(passed)
      else if |buffered| < length + 4 then Open(passed, buffered)
      else
        var now := passed + [buffered[4..length + 4]];
        if !accepts(now) then Failed(now) else Read(buffered[length + 4..], now, accepts)
  }

  // One more chunk after `so`.
  function Receive(so: Reading, chunk: Bytes, accepts: seq<Bytes> -> bool): Reading {
    match so
    case Failed(_) => so
    case Open(passed, rest) => Read(rest + chunk, passed, accepts)
  }

  function ReceiveAll(so: Reading, chunks: seq<Bytes>, accepts: seq<Bytes> -> bool): Reading
    decreases |chunks|
  {
    if chunks == [] then so else ReceiveAll(Receive(so, chunks[0], accepts), chunks[1..], accepts)
  }

  lemma {:induction false} ReadSplits(a: Bytes, b: Bytes, passed: seq<Bytes>, accepts: seq<Bytes> -> bool)
    ensures Read(a + b, passed, accepts) == Receive(Read(a, passed, accepts), b, accepts)
    decreases |a|
  {
    if |a| >= 4 {
      var length := ReadUint32(a);
      if 0 < length <= MAX_CONTROL_FRAME_BYTES && |a| >= length + 4 {
        assert (a + b)[4..length + 4] == a[4..length + 4];
        assert (a + b)[length + 4..] == a[length + 4..] + b;
        ReadSplits(a[length + 4..], b, passed + [a[4..length + 4]], accepts);
      }
    }
  }

  /** Reading does not depend on where the chunks are cut: it passes on what reading the whole stream at
      once passes on, fails where it fails, and leaves what it leaves. */
  lemma {:induction false} ChunkIndependent(so: Reading, chunks: seq<Bytes>, accepts: seq<Bytes> -> bool)
    requires so.Open? ==> Read(so.rest, so.passed, accepts) == so
    ensures ReceiveAll(so, chunks, accepts) == Receive(so, Joined(chunks), accepts)
    decreases |chunks|
  {
    if so.Open? {
      ReadSplits(so.rest, [], so.passed, accepts);
      if chunks == [] {
        assert so.rest + [] == so.rest;
      } else {
        var next := Receive(so, chunks[0], accepts);
        ReadSplits(so.rest + chunks[0], Joined(chunks[1..]), so.passed, accepts);
        assert so.rest + chunks[0] + Joined(chunks[1..]) == so.rest + Joined(chunks);
        RestIsStable(so.rest + chunks[0], so.passed, accepts);
        ChunkIndependent(next, chunks[1..], accepts);
      }
    } else if chunks != [] {
      ChunkIndependent(so, chunks[1..], accepts);
    }
  }

  // What reading leaves has no complete frame in it.
  lemma {:induction false} RestIsStable(buffered: Bytes, passed: seq<Bytes>, accepts: seq<Bytes> -> bool)
    ensures var so := Read(buffered, passed, accepts);
            so.Open? ==>
              && Read(so.rest, so.passed, accepts) == so
              && (|so.rest| < 4
                  || (0 < ReadUint32(so.rest) <= MAX_CONTROL_FRAME_BYTES && |so.rest| < ReadUint32(so.rest) + 4))
    decreases |buffered|
  {
    if |buffered| >= 4 {
      var length := ReadUint32(buffered);
      if 0 < length <= MAX_CONTROL_FRAME_BYTES && |buffered| >= length + 4 {
        RestIsStable(buffered[length + 4..], passed + [buffered[4..length + 4]], accepts);
      }
    }
  }

  /** Whether some frame goes on after these bytes. */
  ghost predicate StartsSomeFrame(bytes: Bytes) {
    exists payload :: Payload(payload) && bytes < Frame(payload)
  }

  // What is seen so far of a length field holds no length above the limit.
  predicate LengthMayFit(bytes: Bytes) {
    || |bytes| >= 4
    || bytes == []
    || (&& bytes[0] == 0
        && (|bytes| >= 2 ==> bytes[1] <= 16)
        && (|bytes| == 3 && bytes[1] == 16 ==> bytes[2] == 0))
  }

  lemma LengthFits(bytes: Bytes, payload: Bytes)
    requires Payload(payload) && bytes < Frame(payload)
    ensures LengthMayFit(bytes)
  {
    var n := |payload|;
    assert n / 0x100_0000 == 0 && n / 0x1_0000 <= 16;
    assert n / 0x1_0000 == 16 ==> n == MAX_CONTROL_FRAME_BYTES;
    assert forall k :: 0 <= k < |bytes| && k < 4 ==> bytes[k] == Uint32(n)[k];
  }

  // A frame that starts with less than a length field.
  function ShortestLength(bytes: Bytes): nat
    requires |bytes| < 4
  {
    if |bytes| < 2 then 1
    else
      var second: int := bytes[1];
      var third: int := if |bytes| == 3 then bytes[2] else 0;
      if second == 16 then MAX_CONTROL_FRAME_BYTES else second * 0x1_0000 + third * 0x100 + 1
  }

  lemma ShortRestStarts(bytes: Bytes)
    requires |bytes| < 4 && LengthMayFit(bytes)
    ensures StartsSomeFrame(bytes)
  {
    var n := ShortestLength(bytes);
    ShortestStarts(bytes);
    var payload: Bytes := seq(n, _ => 0);
    assert Frame(payload)[..|bytes|] == Uint32(n)[..|bytes|];
    assert bytes < Frame(payload);
  }

  lemma ShortestStarts(bytes: Bytes)
    requires |bytes| < 4 && LengthMayFit(bytes)
    ensures var n := ShortestLength(bytes); 0 < n <= MAX_CONTROL_FRAME_BYTES && bytes == Uint32(n)[..|bytes|]
  {
    var n := ShortestLength(bytes);
    assert |bytes| >= 2 ==> n / 0x1_0000 == bytes[1];
    assert |bytes| == 3 ==> n / 0x100 % 0x100 == bytes[2];
    assert n / 0x100_0000 == 0;
  }

  lemma LongRestStarts(bytes: Bytes)
    requires |bytes| >= 4 && 0 < ReadUint32(bytes) <= MAX_CONTROL_FRAME_BYTES && |bytes| < ReadUint32(bytes) + 4
    ensures StartsSomeFrame(bytes)
  {
    var n := ReadUint32(bytes);
    var payload: Bytes := bytes[4..] + seq(n - (|bytes| - 4), _ => 0);
    assert ReadUint32(bytes[..4]) == n;
    WritesBack(bytes[..4]);
    assert Frame(payload) == bytes + seq(n - (|bytes| - 4), _ => 0);
  }

  /** What reading leaves is a proper prefix of some frame exactly when the part of a length field in it
      may still become a length within the limit: the reader judges a length only once it has all of it. */
  lemma RestStartsFrameExactly(buffered: Bytes, passed: seq<Bytes>, accepts: seq<Bytes> -> bool)
    ensures var so := Read(buffered, passed, accepts); so.Open? ==>
                (StartsSomeFrame(so.rest) <==> LengthMayFit(so.rest))
  {
    RestIsStable(buffered, passed, accepts);
    var so := Read(buffered, passed, accepts);
    if so.Open? {
      if StartsSomeFrame(so.rest) {
        var payload :| Payload(payload) && so.rest < Frame(payload);
        LengthFits(so.rest, payload);
      }
      if LengthMayFit(so.rest) {
        if |so.rest| < 4 {
          ShortRestStarts(so.rest);
        } else {
          LongRestStarts(so.rest);
        }
      }
    }
  }

  /** A byte that starts no frame, and is kept. */
  lemma RestThatStartsNoFrame(accepts: seq<Bytes> -> bool)
    ensures Read([255], [], accepts) == Open([], [255]) && !StartsSomeFrame([255])
  {
    RestStartsFrameExactly([255], [], accepts);
  }

  lemma {:induction false} FramesAppend(payloads: seq<Bytes>, payload: Bytes)
    requires Framable(payloads + [payload]) && Framable(payloads)
    ensures Frames(payloads + [payload]) == Frames(payloads) + Frame(payload)
  {
    if payloads == [] {
      assert [payload][1..] == [];
    } else {
      assert (payloads + [payload])[1..] == payloads[1..] + [payload];
      FramesAppend(payloads[1..], payload);
    }
  }

  /** Nothing is lost or invented: what was passed on, framed again and followed by what is left, is the
      stream. What is left is shorter than the largest frame. */
  lemma {:induction false} StreamIsKept(buffered: Bytes, passed: seq<Bytes>, accepts: seq<Bytes> -> bool)
    requires Payloads(passed)
    ensures var so := Read(buffered, passed, accepts);
            && Payloads(so.passed)
            && (so.Open? ==> Frames(so.passed) + so.rest == Frames(passed) + buffered)
            && (so.Open? ==> |so.rest| < MAX_CONTROL_FRAME_BYTES + 4)
            && (so.Failed? ==> exists rest :: Frames(so.passed) + rest == Frames(passed) + buffered)
    decreases |buffered|
  {
    if |buffered| >= 4 {
      var length := ReadUint32(buffered);
      if 0 < length <= MAX_CONTROL_FRAME_BYTES && |buffered| >= length + 4 {
        var payload := buffered[4..length + 4];
        assert |payload| == length;
        WritesBack(buffered[..4]);
        assert ReadUint32(buffered[..4]) == length;
        assert Frame(payload) == buffered[..length + 4];
        FramesAppend(passed, payload);
        assert Frames(passed + [payload]) + buffered[length + 4..] == Frames(passed) + buffered;
        StreamIsKept(buffered[length + 4..], passed + [payload], accepts);
      }
    }
    if Read(buffered, passed, accepts) == Failed(passed) {
      assert Frames(passed) + buffered == Frames(passed) + buffered;
    }
  }

  lemma FrameHeader(payload: Bytes)
    requires |payload| <= MAX_CONTROL_FRAME_BYTES
    ensures |Frame(payload)| == |payload| + 4 && Frame(payload)[4..] == payload
    ensures ReadUint32(Frame(payload)) == |payload|
  {
    SmallReadsBack(|payload|);
    SameNumber(Uint32(|payload|), payload);
  }

  lemma SameNumber(header: Bytes, rest: Bytes)
    requires |header| >= 4
    ensures ReadUint32(header + rest) == ReadUint32(header)
  {
    var stream := header + rest;
    assert stream[0] == header[0] && stream[1] == header[1] && stream[2] == header[2] && stream[3] == header[3];
  }

  // What reading needs to know of a stream that starts with a frame.
  predicate StartsWithFrame(stream: Bytes, payload: Bytes, rest: Bytes) {
    && |stream| >= |payload| + 4 && ReadUint32(stream) == |payload|
    && stream[4..|payload| + 4] == payload && stream[|payload| + 4..] == rest
  }

  lemma FrameStarts(frame: Bytes, payload: Bytes, rest: Bytes)
    requires |frame| == |payload| + 4 && frame[4..] == payload && ReadUint32(frame) == |payload|
    ensures StartsWithFrame(frame + rest, payload, rest)
  {
    SameNumber(frame, rest);
  }

  lemma FirstFrame(payloads: seq<Bytes>)
    requires Framable(payloads) && payloads != []
    ensures StartsWithFrame(Frames(payloads), payloads[0], Frames(payloads[1..]))
  {
    FrameHeader(payloads[0]);
    FrameStarts(Frame(payloads[0]), payloads[0], Frames(payloads[1..]));
  }

  lemma ReadsFirstFrame(stream: Bytes, payload: Bytes, rest: Bytes, passed: seq<Bytes>, accepts: seq<Bytes> -> bool)
    requires Payload(payload) && StartsWithFrame(stream, payload, rest) && accepts(passed + [payload])
    ensures Read(stream, passed, accepts) == Read(rest, passed + [payload], accepts)
  {}

  ghost predicate FramedAs(stream: Bytes, payloads: seq<Bytes>)
    decreases |payloads|
  {
    if payloads == [] then stream == []
    else
      && |stream| >= |payloads[0]| + 4
      && StartsWithFrame(stream, payloads[0], stream[|payloads[0]| + 4..])
      && FramedAs(stream[|payloads[0]| + 4..], payloads[1..])
  }

  lemma {:induction false} FramesAreFramed(payloads: seq<Bytes>)
    requires Framable(payloads)
    ensures FramedAs(Frames(payloads), payloads)
    decreases |payloads|
  {
    if payloads == [] {
    } else {
      FirstFrame(payloads);
      FramesAreFramed(payloads[1..]);
    }
  }

  // Each of the payloads is accepted after those before it.
  predicate AllAccepted(passed: seq<Bytes>, payloads: seq<Bytes>, accepts: seq<Bytes> -> bool)
    decreases |payloads|
  {
    payloads == []
    || (accepts(passed + [payloads[0]]) && AllAccepted(passed + [payloads[0]], payloads[1..], accepts))
  }

  lemma {:induction false} FramedReadsBack(stream: Bytes, payloads: seq<Bytes>, passed: seq<Bytes>,
                                           accepts: seq<Bytes> -> bool)
    requires FramedAs(stream, payloads) && Payloads(payloads) && AllAccepted(passed, payloads, accepts)
    ensures Read(stream, passed, accepts) == Open(passed + payloads, [])
    decreases |payloads|
  {
    if payloads == [] {
      assert passed + payloads == passed;
    } else {
      var first, later := payloads[0], payloads[1..];
      var rest := stream[|first| + 4..];
      assert Payload(first) && Payloads(later);
      ReadsFirstFrame(stream, first, rest, passed, accepts);
      FramedReadsBack(rest, later, passed + [first], accepts);
      assert passed + [first] + later == passed + payloads;
    }
  }

  /** Frames read back: as long as each payload is accepted, exactly the payloads written are passed on. */
  lemma FramesReadBack(payloads: seq<Bytes>, passed: seq<Bytes>, accepts: seq<Bytes> -> bool)
    requires Payloads(payloads) && AllAccepted(passed, payloads, accepts)
    ensures Read(Frames(payloads), passed, accepts) == Open(passed + payloads, [])
  {
    FramesAreFramed(payloads);
    FramedReadsBack(Frames(payloads), payloads, passed, accepts);
  }

  /** A payload within the limit is read back from its frame exactly when it is not empty. */
  lemma FrameReadsBackExactly(payload: Bytes, accepts: seq<Bytes> -> bool)
    requires |payload| <= MAX_CONTROL_FRAME_BYTES && accepts([payload])
    ensures Read(Frame(payload), [], accepts) == Open([payload], []) <==> payload != []
  {
    if payload != [] {
      assert [] + [payload] == [payload] && [payload][1..] == [];
      FramesReadBack([payload], [], accepts);
      assert Frames([payload]) == Frame(payload);
    } else {
      ReadsBack(0);
      assert Frame(payload) == Uint32(0);
    }
  }

  // Reading goes on after frames that are all accepted.
  lemma ReadsOn(payloads: seq<Bytes>, more: Bytes, accepts: seq<Bytes> -> bool)
    requires Payloads(payloads) && AllAccepted([], payloads, accepts)
    ensures Read(Frames(payloads) + more, [], accepts) == Read(more, payloads, accepts)
  {
    FramesReadBack(payloads, [], accepts);
    ReadSplits(Frames(payloads), more, [], accepts);
    assert [] + payloads == payloads && [] + more == more;
  }

  /** A payload that is not accepted is still passed on and ends the reading, whatever follows it. */
  lemma RefusedPayloadEnds(payloads: seq<Bytes>, payload: Bytes, rest: Bytes, accepts: seq<Bytes> -> bool)
    requires Payloads(payloads) && AllAccepted([], payloads, accepts)
    requires Payload(payload) && !accepts(payloads + [payload])
    ensures Read(Frames(payloads) + (Frame(payload) + rest), [], accepts) == Reading.Failed(payloads + [payload])
  {
    ReadsOn(payloads, Frame(payload) + rest, accepts);
    FrameHeader(payload);
    FrameStarts(Frame(payload), payload, rest);
  }

  /** A length that is zero or above the limit ends the reading after the payloads before it. */
  lemma BadLengthEnds(payloads: seq<Bytes>, length: nat, rest: Bytes, accepts: seq<Bytes> -> bool)
    requires Payloads(payloads) && AllAccepted([], payloads, accepts)
    requires length == 0 || MAX_CONTROL_FRAME_BYTES < length < 0x1_0000_0000
    ensures Read(Frames(payloads) + (Uint32(length) + rest), [], accepts) == Reading.Failed(payloads)
  {
    ReadsOn(payloads, Uint32(length) + rest, accepts);
    ReadsBack(length);
    SameNumber(Uint32(length), rest);
  }

  // ---------- The receiving side of the client ----------

  class FrameReader {
    const accepts: seq<Bytes> -> bool
    var buffered: Bytes
    var passed: seq<Bytes>
    var failed: bool

    constructor (accepts: seq<Bytes> -> bool)
      ensures this.accepts == accepts && View() == Open([], [])
    {
      this.accepts := accepts;
      buffered, passed, failed := [], [], false;
    }

    ghost function View(): Reading
      reads this
    {
      if failed then Reading.Failed(passed) else Open(passed, buffered)
    }

    method ReceiveChunk(chunk: Bytes)
      modifies this
      ensures View() == Receive(old(View()), chunk, accepts)
    {
      if failed { return; }
      buffered := buffered + chunk;
      ghost var whole := Read(buffered, passed, accepts);
      while |buffered| >= 4
        invariant !failed && Read(buffered, passed, accepts) == whole
        decreases |buffered|
      {
        var length := ReadUint32(buffered);
        if length == 0 || length > MAX_CONTROL_FRAME_BYTES {
          failed := true;
          return;
        }
        if |buffered| < length + 4 { return; }
        passed := passed + [buffered[4..length + 4]];
        buffered := buffered[length + 4..];
        if !accepts(passed) {
          failed := true;
          return;
        }
      }
    }
  }
}

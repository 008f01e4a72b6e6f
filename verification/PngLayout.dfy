/** How a PNG stream is laid out in chunks (section 3.2 of RFC 2083), for any way of writing a 32-bit
    number and of sealing a chunk. */
module PngLayout {
  import opened BigEndian
  import opened Flattening
  import opened Options

  const PNG_SIGNATURE: Bytes := [137, 80, 78, 71, 13, 10, 26, 10]

  const IHDR: Bytes := [73, 72, 68, 82]
  const IDAT: Bytes := [73, 68, 65, 84]
  const IEND: Bytes := [73, 69, 78, 68]

  /** How numbers and seals are written: four bytes each. */
  datatype Encoding = Encoding(write: nat -> Bytes, read: Bytes -> nat, seal: Bytes -> Bytes)

  predicate NumberReads(e: Encoding, n: nat) {
    |e.write(n)| == 4 && e.read(e.write(n)) == n % 0x1_0000_0000
  }

  // A number is stored modulo 2^32.
  ghost predicate EncodingOk(e: Encoding) {
    && (forall n: nat :: NumberReads(e, n))
    && (forall body :: |e.seal(body)| == 4)
  }

  function Chunk(e: Encoding, kind: Bytes, data: Bytes): Bytes {
    e.write(|data|) + kind + data + e.seal(kind + data)
  }

  datatype ReadResult = Chunked(kind: Bytes, data: Bytes, rest: Bytes) | Damaged

  function ReadChunk(e: Encoding, stream: Bytes): ReadResult {
    if |stream| < 12 then Damaged
    else
      var length := e.read(stream[..4]);
      if |stream| < 12 + length then Damaged
      else if stream[8 + length..12 + length] != e.seal(stream[4..8 + length]) then Damaged
      else Chunked(stream[4..8], stream[8..8 + length], stream[12 + length..])
  }

  lemma ChunkParts(number: Bytes, kind: Bytes, data: Bytes, sealing: Bytes, rest: Bytes)
    requires |number| == |kind| == |sealing| == 4
    ensures var stream := number + kind + data + sealing + rest;
            && stream[..4] == number && stream[4..8] == kind && stream[8..8 + |data|] == data
            && stream[4..8 + |data|] == kind + data && stream[8 + |data|..12 + |data|] == sealing
            && stream[12 + |data|..] == rest
  {}

  /** A chunk reads back, with a valid length and CRC and nothing of what follows taken, exactly when its
      data is shorter than 4 GiB: the length field holds no more. */
  lemma ChunkReadsBack(e: Encoding, kind: Bytes, data: Bytes, rest: Bytes)
    requires EncodingOk(e) && |kind| == 4
    ensures ReadChunk(e, Chunk(e, kind, data) + rest) == Chunked(kind, data, rest) <==> |data| < 0x1_0000_0000
  {
    assert NumberReads(e, |data|);
    ChunkParts(e.write(|data|), kind, data, e.seal(kind + data), rest);
    var stream, length := Chunk(e, kind, data) + rest, |data| % 0x1_0000_0000;
    if |data| >= 0x1_0000_0000 {
      assert |stream[8..8 + length]| < |data|;
    }
  }

  function ReadChunks(e: Encoding, stream: Bytes): Option<seq<(Bytes, Bytes)>>
    decreases |stream|
  {
    if stream == [] then Some([])
    else
      match ReadChunk(e, stream)
      case Damaged => None
      case Chunked(kind, data, rest) =>
        if |rest| >= |stream| then None
        else
          match ReadChunks(e, rest)
          case None => None
          case Some(others) => Some([(kind, data)] + others)
  }

  function ReadPng(e: Encoding, png: Bytes): Option<seq<(Bytes, Bytes)>> {
    if |png| < 8 || png[..8] != PNG_SIGNATURE then None else ReadChunks(e, png[8..])
  }

  lemma OneMoreChunk(e: Encoding, kind: Bytes, data: Bytes, rest: Bytes)
    requires EncodingOk(e) && |kind| == 4 && |data| < 0x1_0000_0000
    ensures ReadChunks(e, Chunk(e, kind, data) + rest) ==
              match ReadChunks(e, rest)
              case None => None
              case Some(others) => Some([(kind, data)] + others)
  {
    ChunkReadsBack(e, kind, data, rest);
    assert NumberReads(e, |data|);
  }

  // A chunk whose length does not fit its field is read as a shorter one, or as none.
  lemma LongChunkIsLost(e: Encoding, kind: Bytes, data: Bytes, rest: Bytes)
    requires EncodingOk(e) && |kind| == 4 && |data| >= 0x1_0000_0000
    ensures var chunks := ReadChunks(e, Chunk(e, kind, data) + rest);
            chunks.Some? ==> chunks.value != [] && |chunks.value[0].1| < |data|
  {
    assert NumberReads(e, |data|);
    ChunkParts(e.write(|data|), kind, data, e.seal(kind + data), rest);
  }

  /** A concrete chunk that does not read back. */
  lemma LongChunkDoesNotReadBack(e: Encoding)
    requires EncodingOk(e)
    ensures var data: Bytes := seq(0x1_0000_0000, _ => 0); ReadChunk(e, Chunk(e, IDAT, data)) != Chunked(IDAT, data, [])
  {
    var data: Bytes := seq(0x1_0000_0000, _ => 0);
    assert Chunk(e, IDAT, data) + [] == Chunk(e, IDAT, data);
    ChunkReadsBack(e, IDAT, data, []);
  }

  function ImageHeader(e: Encoding, width: nat, height: nat): Bytes {
    e.write(width) + e.write(height) + [8, 6, 0, 0, 0]
  }

  // The signature, the header, the compressed scanlines and the end.
  function Stream(e: Encoding, width: nat, height: nat, data: Bytes): Bytes {
    PNG_SIGNATURE + (Chunk(e, IHDR, ImageHeader(e, width, height)) + (Chunk(e, IDAT, data) + Chunk(e, IEND, [])))
  }

  /** What reading a stream gives: the header of an image of that size, its data and the end. */
  ghost predicate StreamReads(e: Encoding, png: Bytes, width: nat, height: nat, data: Bytes) {
    exists header: Bytes ::
      && |header| == 13
      && ReadPng(e, png) == Some([(IHDR, header), (IDAT, data), (IEND, [])])
      && header[8..] == [8, 6, 0, 0, 0]
      && (e.read(header[..4]) == width <==> width < 0x1_0000_0000)
      && (e.read(header[4..8]) == height <==> height < 0x1_0000_0000)
  }

  lemma HeaderReadsBack(e: Encoding, width: nat, height: nat)
    requires EncodingOk(e)
    ensures var header := ImageHeader(e, width, height);
            && |header| == 13 && header[8..] == [8, 6, 0, 0, 0]
            && (e.read(header[..4]) == width <==> width < 0x1_0000_0000)
            && (e.read(header[4..8]) == height <==> height < 0x1_0000_0000)
  {
    assert NumberReads(e, width) && NumberReads(e, height);
    var header := ImageHeader(e, width, height);
    assert header[..4] == e.write(width) && header[4..8] == e.write(height);
  }

  /** Image data that does not fit its chunk is not read back. */
  lemma LongStreamIsLost(e: Encoding, width: nat, height: nat, data: Bytes)
    requires EncodingOk(e) && |data| >= 0x1_0000_0000
    ensures !StreamReads(e, Stream(e, width, height, data), width, height, data)
  {
    var header, end := ImageHeader(e, width, height), Chunk(e, IEND, []);
    var tail := Chunk(e, IDAT, data) + end;
    HeaderReadsBack(e, width, height);
    assert Stream(e, width, height, data)[8..] == Chunk(e, IHDR, header) + tail;
    LongChunkIsLost(e, IDAT, data, end);
    OneMoreChunk(e, IHDR, header, tail);
    var chunks := ReadPng(e, Stream(e, width, height, data));
    assert chunks.Some? ==> chunks.value[1] == ReadChunks(e, tail).value[0];
  }

  lemma StreamReadsBack(e: Encoding, width: nat, height: nat, data: Bytes)
    requires EncodingOk(e) && |data| < 0x1_0000_0000
    ensures StreamReads(e, Stream(e, width, height, data), width, height, data)
  {
    var header := ImageHeader(e, width, height);
    var end := Chunk(e, IEND, []);
    var tail := Chunk(e, IDAT, data) + end;
    HeaderReadsBack(e, width, height);
    assert Stream(e, width, height, data)[8..] == Chunk(e, IHDR, header) + tail;
    assert Stream(e, width, height, data)[..8] == PNG_SIGNATURE;
    assert end + [] == end;
    OneMoreChunk(e, IEND, [], []);
    OneMoreChunk(e, IDAT, data, end);
    OneMoreChunk(e, IHDR, header, tail);
    assert [(IHDR, header)] + ([(IDAT, data)] + ([(IEND, [])] + [])) == [(IHDR, header), (IDAT, data), (IEND, [])];
  }

  // ---------- Putting bytes in place ----------

  // TypedArray.set
  method SetBytes(target: array<Byte>, source: Bytes, offset: nat)
    requires offset + |source| <= target.Length
    modifies target
    ensures target[..] == old(target[..offset]) + source + old(target[offset + |source|..])
    ensures target[..offset + |source|] == old(target[..offset]) + source
  {
    for k := 0 to |source|
      invariant target[..offset] == old(target[..offset])
      invariant target[offset..offset + k] == source[..k]
      invariant target[offset + k..] == old(target[offset + k..])
    {
      target[offset + k] := source[k];
      assert target[offset..offset + k + 1] == target[offset..offset + k] + [source[k]];
    }
    assert target[..] == target[..offset] + target[offset..offset + |source|] + target[offset + |source|..];
  }

  // The length, the type and the data of a chunk, with room for its CRC.
  method StartChunk(number: Bytes, kind: Bytes, data: Bytes) returns (result: array<Byte>)
    requires |number| == |kind| == 4
    ensures fresh(result) && result.Length == 12 + |data|
    ensures result[..8 + |data|] == number + kind + data && result[4..8 + |data|] == kind + data
  {
    result := new Byte[12 + |data|];
    SetBytes(result, number, 0);
    SetBytes(result, kind, 4);
    SetBytes(result, data, 8);
    assert result[4..8 + |data|] == result[..8 + |data|][4..];
  }

  method FinishChunk(result: array<Byte>, sealing: Bytes)
    requires |sealing| == 4 && result.Length >= 12
    modifies result
    ensures result[..] == old(result[..result.Length - 4]) + sealing
  {
    SetBytes(result, sealing, result.Length - 4);
    assert result[..] == result[..result.Length];
  }

  lemma {:induction false} JoinedGrows(parts: seq<Bytes>, k: nat)
    requires k <= |parts|
    ensures |Joined(parts[..k])| <= |Joined(parts)|
    decreases |parts| - k
  {
    if k < |parts| {
      JoinedUpTo(parts, k);
      JoinedGrows(parts, k + 1);
    } else {
      assert parts[..k] == parts;
    }
  }

  method Concatenate(parts: seq<Bytes>) returns (result: array<Byte>)
    ensures fresh(result) && result[..] == Joined(parts)
  {
    var size := 0;
    for k := 0 to |parts|
      invariant size == |Joined(parts[..k])|
    {
      JoinedUpTo(parts, k);
      size := size + |parts[k]|;
    }
    assert parts[..|parts|] == parts;
    result := new Byte[size];
    var offset := 0;
    for k := 0 to |parts|
      invariant offset == |Joined(parts[..k])| <= size
      invariant result[..offset] == Joined(parts[..k])
    {
      JoinedUpTo(parts, k);
      JoinedGrows(parts, k + 1);
      SetBytes(result, parts[k], offset);
      offset := offset + |parts[k]|;
    }
    assert result[..size] == result[..];
  }
}

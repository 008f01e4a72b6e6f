/** The PNG encoder: scanlines, chunks and their layout (section 3.2 of RFC 2083), with the compression
    of the scanlines as an opaque function, and a reader that checks every length and CRC. */
module PngEncoder {
  import opened Options
  import opened BigEndian
  import opened Crc32
  import opened PngLayout
  import opened Flattening

  datatype Result = Encoded(png: Bytes) | BadDimensions | BadBuffer

  // ---------- Numbers and seals ----------

  function ReadLength(bytes: Bytes): nat {
    if |bytes| < 4 then 0 else ReadUint32(bytes)
  }

  function Low(word: bv32): Byte {
    ((word & 0xff) as bv8) as int
  }

  function CrcBytes(crc: bv32): (bytes: Bytes)
    ensures |bytes| == 4
  {
    [Low(crc >> 24), Low(crc >> 16), Low(crc >> 8), Low(crc)]
  }

  function Sealed(body: Bytes): (bytes: Bytes)
    ensures |bytes| == 4
  {
    CrcBytes(Crc(body))
  }

  // ---------- The image ----------

  lemma OneRowLess(rowBytes: nat, height: nat)
    requires height > 0
    ensures rowBytes * height == rowBytes * (height - 1) + rowBytes && rowBytes * (height - 1) >= 0
  {}

  // Each row after a filter byte of zero.
  function Scanlines(rgba: Bytes, rowBytes: nat, height: nat): (scanlines: Bytes)
    requires |rgba| == rowBytes * height
    ensures |scanlines| == |rgba| + height
    decreases height
  {
    if height == 0 then []
    else
      OneRowLess(rowBytes, height);
      var start := rowBytes * (height - 1);
      Scanlines(rgba[..start], rowBytes, height - 1) + ([0] + rgba[start..])
  }

  function WithoutFilters(scanlines: Bytes, rowBytes: nat, height: nat): (rgba: Bytes)
    requires |scanlines| == rowBytes * height + height
    decreases height
  {
    if height == 0 then []
    else
      OneRowLess(rowBytes, height);
      var start := rowBytes * (height - 1) + (height - 1);
      WithoutFilters(scanlines[..start], rowBytes, height - 1) + scanlines[start + 1..]
  }

  lemma CutRow(before: Bytes, row: Bytes)
    ensures (before + ([0] + row))[..|before|] == before && (before + ([0] + row))[|before| + 1..] == row
  {}

  /** Each scanline is a filter byte of zero, which means no filter (section 6.1 of RFC 2083), and the bytes
      of its row. */
  lemma {:induction false} ScanlineIs(rgba: Bytes, rowBytes: nat, height: nat, row: nat)
    requires |rgba| == rowBytes * height && row < height
    ensures var (start, line) := (rowBytes * row, (rowBytes + 1) * row);
            && 0 <= start && start + rowBytes <= |rgba| && 0 <= line && line + rowBytes + 1 <= |rgba| + height
            && Scanlines(rgba, rowBytes, height)[line..line + rowBytes + 1] == [0] + rgba[start..start + rowBytes]
    decreases height
  {
    OneRowLess(rowBytes, height);
    var last := rowBytes * (height - 1);
    var before, line := Scanlines(rgba[..last], rowBytes, height - 1), [0] + rgba[last..];
    LineStart(rowBytes, height - 1);
    LineStart(rowBytes, row);
    if row < height - 1 {
      ScanlineIs(rgba[..last], rowBytes, height - 1, row);
      EarlierRow(before, line, (rowBytes + 1) * row, rgba, last, rowBytes * row, rowBytes);
    } else {
      LastRow(before, line);
      assert rgba[last..] == rgba[last..last + rowBytes];
    }
  }

  lemma EarlierRow(before: Bytes, line: Bytes, at: nat, rgba: Bytes, last: nat, start: nat, rowBytes: nat)
    requires at + rowBytes + 1 <= |before| && start + rowBytes <= last <= |rgba|
    requires before[at..at + rowBytes + 1] == [0] + rgba[..last][start..start + rowBytes]
    ensures (before + line)[at..at + rowBytes + 1] == [0] + rgba[start..start + rowBytes]
  {
    assert (before + line)[at..at + rowBytes + 1] == before[at..at + rowBytes + 1];
    assert rgba[..last][start..start + rowBytes] == rgba[start..start + rowBytes];
  }

  lemma LastRow(before: Bytes, line: Bytes)
    ensures (before + line)[|before|..|before| + |line|] == line
  {}

  lemma LineStart(rowBytes: nat, row: nat)
    ensures (rowBytes + 1) * row == rowBytes * row + row && rowBytes * row >= 0
  {}

  /** Dropping the filter byte of every scanline gives the pixels back. */
  lemma {:induction false} ScanlinesReadBack(rgba: Bytes, rowBytes: nat, height: nat)
    requires |rgba| == rowBytes * height
    ensures WithoutFilters(Scanlines(rgba, rowBytes, height), rowBytes, height) == rgba
    decreases height
  {
    if height == 0 {
    } else {
      OneRowLess(rowBytes, height);
      var start := rowBytes * (height - 1);
      CutRow(Scanlines(rgba[..start], rowBytes, height - 1), rgba[start..]);
      ScanlinesReadBack(rgba[..start], rowBytes, height - 1);
      assert rgba == rgba[..start] + rgba[start..];
    }
  }

  const ENCODING := Encoding(Uint32, ReadLength, Sealed)

  lemma EncodingHolds()
    ensures EncodingOk(ENCODING)
  {
    forall n: nat
      ensures NumberReads(ENCODING, n)
    {
      ReadsBack(n);
    }
    forall body
      ensures |ENCODING.seal(body)| == 4
    {}
  }

  function Png(rgba: Bytes, width: nat, height: nat, deflate: Bytes -> Bytes): Bytes
    requires |rgba| == width * 4 * height
  {
    Stream(ENCODING, width, height, deflate(Scanlines(rgba, width * 4, height)))
  }

  /** For every image and every compression the encoded stream is read back as a signature and the chunks
      IHDR, IDAT and IEND, each with a valid length and CRC, exactly when the compressed scanlines are
      shorter than 4 GiB; and then the header gives each dimension back exactly when it fits 32 bits. */
  lemma PngReadsBack(rgba: Bytes, width: nat, height: nat, deflate: Bytes -> Bytes)
    requires |rgba| == width * 4 * height
    ensures StreamReads(ENCODING, Png(rgba, width, height, deflate), width, height,
                        deflate(Scanlines(rgba, width * 4, height)))
       <==> |deflate(Scanlines(rgba, width * 4, height))| < 0x1_0000_0000
  {
    EncodingHolds();
    var data := deflate(Scanlines(rgba, width * 4, height));
    if |data| < 0x1_0000_0000 {
      StreamReadsBack(ENCODING, width, height, data);
    } else {
      LongStreamIsLost(ENCODING, width, height, data);
    }
  }

  // ---------- The encoder's code ----------

  method PngChunk(table: array<bv32>, kind: Bytes, data: Bytes) returns (result: array<Byte>)
    requires IsTable(table) && |kind| == 4
    ensures fresh(result) && result[..] == Chunk(ENCODING, kind, data)
  {
    result := StartChunk(Uint32(|data|), kind, data);
    var crc := TableCrc(table, result[4..8 + |data|]);
    FinishChunk(result, CrcBytes(crc));
  }

  // The scanlines of one row more.
  lemma OneMoreRow(rgba: Bytes, rowBytes: nat, row: nat)
    requires rowBytes * (row + 1) <= |rgba| && rowBytes * row >= 0
    ensures rowBytes * (row + 1) == rowBytes * row + rowBytes
    ensures Scanlines(rgba[..rowBytes * (row + 1)], rowBytes, row + 1)
         == Scanlines(rgba[..rowBytes * row], rowBytes, row) + ([0] + rgba[rowBytes * row..rowBytes * (row + 1)])
  {
    OneRowLess(rowBytes, row + 1);
    var start, end := rowBytes * row, rowBytes * (row + 1);
    assert rgba[..end][..start] == rgba[..start] && rgba[..end][start..] == rgba[start..end];
  }

  method EncodeScanlines(rgba: Bytes, rowBytes: nat, height: nat) returns (scanlines: array<Byte>)
    requires |rgba| == rowBytes * height
    ensures fresh(scanlines) && scanlines[..] == Scanlines(rgba, rowBytes, height)
  {
    scanlines := new Byte[|rgba| + height];
    var start := 0;
    for row := 0 to height
      invariant start == rowBytes * row <= |rgba| && start + row <= scanlines.Length
      invariant scanlines[..start + row] == Scanlines(rgba[..rowBytes * row], rowBytes, row)
    {
      RowFits(rowBytes, row, height);
      OneMoreRow(rgba, rowBytes, row);
      CopyRow(scanlines, start + row, rgba[start..start + rowBytes]);
      start := start + rowBytes;
    }
    assert rgba[..rowBytes * height] == rgba;
    assert scanlines[..scanlines.Length] == scanlines[..];
  }

  // A filter byte and the bytes of a row.
  method CopyRow(scanlines: array<Byte>, targetOffset: nat, row: Bytes)
    requires targetOffset + 1 + |row| <= scanlines.Length
    modifies scanlines
    ensures scanlines[..targetOffset + 1 + |row|] == old(scanlines[..targetOffset]) + ([0] + row)
  {
    SetBytes(scanlines, [0], targetOffset);
    SetBytes(scanlines, row, targetOffset + 1);
  }

  lemma RowFits(rowBytes: nat, row: nat, height: nat)
    requires row < height
    ensures rowBytes * (row + 1) <= rowBytes * height && rowBytes * row >= 0
  {
    assert rowBytes * height == rowBytes * (row + 1) + rowBytes * (height - row - 1);
  }

  method EncodeRgbaPng(table: array<bv32>, rgba: Bytes, width: int, height: int, deflate: Bytes -> Bytes)
    returns (result: Result)
    requires IsTable(table)
    ensures result.BadDimensions? <==> width <= 0 || height <= 0
    ensures result.BadBuffer? <==> width > 0 && height > 0 && |rgba| != width * 4 * height
    ensures result.Encoded? ==> |rgba| == width * 4 * height && result.png == Png(rgba, width, height, deflate)
  {
    if width <= 0 || height <= 0 {
      return BadDimensions;
    }
    var rowBytes := width * 4;
    if |rgba| != rowBytes * height {
      return BadBuffer;
    }
    var scanlines := EncodeScanlines(rgba, rowBytes, height);
    var compressed := deflate(scanlines[..]);
    var header := PngChunk(table, IHDR, ImageHeader(ENCODING, width, height));
    var body := PngChunk(table, IDAT, compressed);
    var end := PngChunk(table, IEND, []);
    var png := Concatenate([PNG_SIGNATURE, header[..], body[..], end[..]]);
    FourParts(PNG_SIGNATURE, header[..], body[..], end[..]);
    result := Encoded(png[..]);
  }

  lemma FourParts(a: Bytes, b: Bytes, c: Bytes, d: Bytes)
    ensures Joined([a, b, c, d]) == a + (b + (c + d))
  {
    assert [a, b, c, d][1..] == [b, c, d] && [b, c, d][1..] == [c, d] && [c, d][1..] == [d] && [d][1..] == [];
    assert Joined([d]) == d + Joined([]);
    assert Joined([c, d]) == c + Joined([d]);
    assert Joined([b, c, d]) == b + Joined([c, d]);
  }
}

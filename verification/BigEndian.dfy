/** Bytes, and 32-bit numbers as four of them, the most significant first. */
module BigEndian {

  type Byte = x: int | 0 <= x < 256
  type Bytes = seq<Byte>

  // Only the low 32 bits of a number are stored.
  function Uint32(n: nat): (bytes: Bytes)
    ensures |bytes| == 4
  {
    [n / 0x100_0000 % 0x100, n / 0x1_0000 % 0x100, n / 0x100 % 0x100, n % 0x100]
  }

  function ReadUint32(bytes: Bytes): nat
    requires |bytes| >= 4
  {
    var a: int, b: int, c: int, d: int := bytes[0], bytes[1], bytes[2], bytes[3];
    a * 0x100_0000 + b * 0x1_0000 + c * 0x100 + d
  }

  lemma TwoBytes(n: nat)
    ensures n / 0x1_0000 == n / 0x100 / 0x100
  {}

  lemma ThreeBytes(n: nat)
    ensures n / 0x100_0000 == n / 0x1_0000 / 0x100
  {}

  lemma FourBytes(n: nat)
    ensures n / 0x1_0000_0000 == n / 0x100_0000 / 0x100
  {}

  lemma ReadsBack(n: nat)
    ensures ReadUint32(Uint32(n)) == n % 0x1_0000_0000
  {
    TwoBytes(n);
    ThreeBytes(n);
    FourBytes(n);
    var a, b, c := n / 0x100, n / 0x1_0000, n / 0x100_0000;
    assert n == a * 0x100 + n % 0x100;
    assert a == b * 0x100 + a % 0x100;
    assert b == c * 0x100 + b % 0x100;
    assert c == n / 0x1_0000_0000 * 0x100 + c % 0x100;
  }

  lemma SmallReadsBack(n: nat)
    requires n < 0x1_0000_0000
    ensures ReadUint32(Uint32(n)) == n
  {
    ReadsBack(n);
  }

  lemma WritesBack(bytes: Bytes)
    requires |bytes| == 4
    ensures ReadUint32(bytes) < 0x1_0000_0000 && Uint32(ReadUint32(bytes)) == bytes
  {
    var n := ReadUint32(bytes);
    var a: int, b: int, c: int := bytes[0], bytes[1], bytes[2];
    assert n / 0x100 == a * 0x1_0000 + b * 0x100 + c;
    assert n / 0x1_0000 == a * 0x100 + b;
    assert n / 0x100_0000 == a;
  }
}

/** The CRC of PNG chunks (section 3.4 of RFC 2083): the table the encoder builds and uses, and the
    register that takes the message in bit by bit, which is what the table must amount to. */
module Crc32 {
  import opened BigEndian

  const POLYNOMIAL: bv32 := 0xedb88320
  const ALL_ONES: bv32 := 0xffffffff

  function Xor(a: bv32, b: bv32): bv32 {
    a ^ b
  }

  function Low(bits: bv32): bv32 {
    bits & 1
  }

  function Half(bits: bv32): bv32 {
    bits >> 1
  }

  // ---------- The reference: one message bit at a time, the lowest of each byte first ----------

  function ShiftIn(register: bv32, bit: bv32): bv32 {
    if (register & 1) ^ bit == 1 then POLYNOMIAL ^ (register >> 1) else register >> 1
  }

  // Takes in the lowest `count` bits of `bits`, with `take` for one bit.
  function TakeIn<T>(take: (T, T) -> T, low: T -> T, half: T -> T, count: nat, register: T, bits: T): T {
    if count == 0 then register
    else TakeIn(take, low, half, count - 1, take(register, low(bits)), half(bits))
  }

  function Bits(byte: Byte): bv32 {
    (byte as bv8) as bv32
  }

  function Register(start: bv32, bytes: Bytes): bv32 {
    if bytes == [] then start
    else TakeIn(ShiftIn, Low, Half, 8, Register(start, bytes[..|bytes| - 1]), Bits(bytes[|bytes| - 1]))
  }

  function Crc(bytes: Bytes): bv32 {
    Register(ALL_ONES, bytes) ^ ALL_ONES
  }

  // ---------- Iterating a linear step ----------

  function Iterate<T>(f: T -> T, count: nat, v: T): T {
    if count == 0 then v else Iterate(f, count - 1, f(v))
  }

  // `f` takes `a` to `b`.
  ghost predicate Maps<T(!new)>(f: T -> T, a: T, b: T) {
    f(a) == b
  }

  ghost predicate LinearAt<T(!new)>(f: T -> T, xor: (T, T) -> T, a: T, b: T) {
    f(xor(a, b)) == xor(f(a), f(b))
  }

  ghost predicate Commutes<T(!new)>(xor: (T, T) -> T, a: T, b: T) {
    xor(a, b) == xor(b, a)
  }

  lemma LinearSwaps<T(!new)>(f: T -> T, xor: (T, T) -> T, a: T, b: T)
    requires LinearAt(f, xor, b, a) && Commutes(xor, a, b) && Commutes(xor, f(a), f(b))
    ensures LinearAt(f, xor, a, b)
  {}

  ghost predicate Linear<T(!new)>(f: T -> T, xor: (T, T) -> T) {
    forall a, b :: LinearAt(f, xor, a, b)
  }

  lemma {:induction false} IteratesAreLinear<T(!new)>(f: T -> T, xor: (T, T) -> T, count: nat, a: T, b: T)
    requires Linear(f, xor)
    ensures Iterate(f, count, xor(a, b)) == xor(Iterate(f, count, a), Iterate(f, count, b))
  {
    if count == 0 {
    } else {
      assert LinearAt(f, xor, a, b);
      IteratesAreLinear(f, xor, count - 1, f(a), f(b));
    }
  }

  // Stepping after bits are mixed in takes the lowest one in and leaves the others mixed in.
  ghost predicate TakesBitAt<T(!new)>(f: T -> T, xor: (T, T) -> T, take: (T, T) -> T, low: T -> T, half: T -> T,
                                      register: T, bits: T)
  {
    f(xor(register, bits)) == xor(take(register, low(bits)), half(bits))
  }

  ghost predicate TakesBits<T(!new)>(f: T -> T, xor: (T, T) -> T, take: (T, T) -> T, low: T -> T, half: T -> T) {
    forall register, bits :: TakesBitAt(f, xor, take, low, half, register, bits)
  }

  lemma {:induction false} BitsAtOnce<T(!new)>(f: T -> T, xor: (T, T) -> T, take: (T, T) -> T, low: T -> T,
                                               half: T -> T,
                                               count: nat, register: T, bits: T)
    requires TakesBits(f, xor, take, low, half)
    ensures Iterate(f, count, xor(register, bits))
         == xor(TakeIn(take, low, half, count, register, bits), Iterate(half, count, bits))
  {
    if count == 0 {
    } else {
      assert TakesBitAt(f, xor, take, low, half, register, bits);
      BitsAtOnce(f, xor, take, low, half, count - 1, take(register, low(bits)), half(bits));
    }
  }

  ghost predicate Iterated<T(!new)>(f: T -> T, count: nat, a: T, b: T) {
    Iterate(f, count, a) == b
  }

  ghost predicate SameMix<T(!new)>(xor: (T, T) -> T, a: T, b: T, c: T, d: T) {
    xor(a, b) == xor(c, d)
  }

  ghost predicate UnitAt<T(!new)>(xor: (T, T) -> T, zero: T, v: T) {
    xor(v, zero) == v
  }

  ghost predicate Unit<T(!new)>(xor: (T, T) -> T, zero: T) {
    forall v :: UnitAt(xor, zero, v)
  }

  // Looking `index` up and mixing in `shifted` takes the bits in.
  ghost predicate LooksUp<T(!new)>(f: T -> T, xor: (T, T) -> T, take: (T, T) -> T, low: T -> T, half: T -> T,
                                   count: nat,
                                   register: T, bits: T, index: T, shifted: T)
  {
    xor(Iterate(f, count, index), shifted) == TakeIn(take, low, half, count, register, bits)
  }

  // A value split in two, the one part only shifted by the steps: looking the other part up is enough.
  lemma LookUp<T(!new)>(f: T -> T, xor: (T, T) -> T, take: (T, T) -> T, low: T -> T, half: T -> T, count: nat,
                        register: T, bits: T, index: T, rest: T, shifted: T, zero: T)
    requires Linear(f, xor) && TakesBits(f, xor, take, low, half) && Unit(xor, zero)
    requires SameMix(xor, register, bits, index, rest)
    requires Iterated(f, count, rest, shifted) && Iterated(half, count, bits, zero)
    ensures LooksUp(f, xor, take, low, half, count, register, bits, index, shifted)
  {
    IteratesAreLinear(f, xor, count, index, rest);
    BitsAtOnce(f, xor, take, low, half, count, register, bits);
    assert UnitAt(xor, zero, TakeIn(take, low, half, count, register, bits));
  }

  lemma EightTimes<T(!new)>(f: T -> T, a: T, b: T, c: T, d: T, e: T, g: T, h: T, i: T, j: T)
    requires Maps(f, a, b) && Maps(f, b, c) && Maps(f, c, d) && Maps(f, d, e)
    requires Maps(f, e, g) && Maps(f, g, h) && Maps(f, h, i) && Maps(f, i, j)
    ensures Iterated(f, 8, a, j)
  {
    assert Iterate(f, 8, a) == Iterate(f, 7, b) == Iterate(f, 6, c) == Iterate(f, 5, d) == Iterate(f, 4, e)
        == Iterate(f, 3, g) == Iterate(f, 2, h) == Iterate(f, 1, i) == Iterate(f, 0, j);
  }

  // ---------- The step of this CRC ----------

  function Step(v: bv32): bv32 {
    if v & 1 == 1 then POLYNOMIAL ^ (v >> 1) else v >> 1
  }

  lemma LowBit(a: bv32)
    ensures a & 1 == 0 || a & 1 == 1
  {}

  lemma XorLow(a: bv32, b: bv32)
    ensures (a ^ b) & 1 == (a & 1) ^ (b & 1)
  {}

  lemma XorShift(a: bv32, b: bv32)
    ensures (a ^ b) >> 1 == (a >> 1) ^ (b >> 1)
  {}

  lemma XorCancels(p: bv32, x: bv32, y: bv32)
    ensures (p ^ x) ^ (p ^ y) == x ^ y
    ensures (p ^ x) ^ y == p ^ (x ^ y) && x ^ (p ^ y) == p ^ (x ^ y)
  {}

  lemma BothOdd(a: bv32, b: bv32)
    requires a & 1 == 1 && b & 1 == 1
    ensures LinearAt(Step, Xor, a, b)
  {}

  lemma EvenOdd(a: bv32, b: bv32)
    requires a & 1 == 0 && b & 1 == 1
    ensures LinearAt(Step, Xor, a, b)
  {}

  lemma BothEven(a: bv32, b: bv32)
    requires a & 1 == 0 && b & 1 == 0
    ensures LinearAt(Step, Xor, a, b)
  {}

  lemma XorCommutes(a: bv32, b: bv32)
    ensures Commutes(Xor, a, b)
  {}

  lemma StepLinearAt(a: bv32, b: bv32)
    ensures LinearAt(Step, Xor, a, b)
  {
    LowBit(a);
    LowBit(b);
    if a & 1 == 1 && b & 1 == 1 {
      BothOdd(a, b);
    } else if a & 1 == 1 {
      EvenOdd(b, a);
      XorCommutes(a, b);
      XorCommutes(Step(a), Step(b));
      LinearSwaps(Step, Xor, a, b);
    } else if b & 1 == 1 {
      EvenOdd(a, b);
    } else {
      BothEven(a, b);
    }
  }

  lemma StepIsLinear()
    ensures Linear(Step, Xor)
  {
    forall a, b
      ensures LinearAt(Step, Xor, a, b)
    {
      StepLinearAt(a, b);
    }
  }

  lemma StepOfBits(register: bv32, bits: bv32)
    ensures Step(register ^ bits) == ShiftIn(register, bits & 1) ^ (bits >> 1)
  {
    XorLow(register, bits);
    LowBit(register);
    LowBit(bits);
    XorShift(register, bits);
    XorCancels(POLYNOMIAL, register >> 1, bits >> 1);
  }

  lemma StepTakesBitAt(register: bv32, bits: bv32)
    ensures TakesBitAt(Step, Xor, ShiftIn, Low, Half, register, bits)
  {
    StepOfBits(register, bits);
  }

  lemma StepTakesBits()
    ensures TakesBits(Step, Xor, ShiftIn, Low, Half)
  {
    forall register, bits
      ensures TakesBitAt(Step, Xor, ShiftIn, Low, Half, register, bits)
    {
      StepTakesBitAt(register, bits);
    }
  }

  lemma XorUnitAt(v: bv32)
    ensures UnitAt(Xor, 0, v)
  {}

  lemma XorUnit()
    ensures Unit(Xor, 0)
  {
    forall v
      ensures UnitAt(Xor, 0, v)
    {
      XorUnitAt(v);
    }
  }

  lemma Shift8(y: bv32)
    requires y <= 0xffffff
    ensures Maps(Step, y << 8, y << 7)
  {}

  lemma Shift7(y: bv32)
    requires y <= 0xffffff
    ensures Maps(Step, y << 7, y << 6)
  {}

  lemma Shift6(y: bv32)
    requires y <= 0xffffff
    ensures Maps(Step, y << 6, y << 5)
  {}

  lemma Shift5(y: bv32)
    requires y <= 0xffffff
    ensures Maps(Step, y << 5, y << 4)
  {}

  lemma Shift4(y: bv32)
    requires y <= 0xffffff
    ensures Maps(Step, y << 4, y << 3)
  {}

  lemma Shift3(y: bv32)
    requires y <= 0xffffff
    ensures Maps(Step, y << 3, y << 2)
  {}

  lemma Shift2(y: bv32)
    requires y <= 0xffffff
    ensures Maps(Step, y << 2, y << 1)
  {}

  lemma Shift1(y: bv32)
    requires y <= 0xffffff
    ensures Maps(Step, y << 1, y)
  {}

  // Eight steps only shift a value whose low byte is clear.
  lemma HighBytesShift(y: bv32)
    requires y <= 0xffffff
    ensures Iterated(Step, 8, y << 8, y)
  {
    Shift8(y);
    Shift7(y);
    Shift6(y);
    Shift5(y);
    Shift4(y);
    Shift3(y);
    Shift2(y);
    Shift1(y);
    EightTimes(Step, y << 8, y << 7, y << 6, y << 5, y << 4, y << 3, y << 2, y << 1, y);
  }

  lemma HalfOnce(b: bv32)
    ensures Maps(Half, b, b >> 1) && Maps(Half, b >> 1, b >> 2) && Maps(Half, b >> 2, b >> 3)
                && Maps(Half, b >> 3, b >> 4)
  {}

  lemma HalfMore(b: bv32)
    requires b <= 0xff
    ensures Maps(Half, b >> 4, b >> 5) && Maps(Half, b >> 5, b >> 6) && Maps(Half, b >> 6, b >> 7)
                && Maps(Half, b >> 7, 0)
  {}

  lemma ByteHalves(b: bv32)
    requires b <= 0xff
    ensures Iterated(Half, 8, b, 0)
  {
    HalfOnce(b);
    HalfMore(b);
    EightTimes(Half, b, b >> 1, b >> 2, b >> 3, b >> 4, b >> 5, b >> 6, b >> 7, 0);
  }

  lemma Split(register: bv32, byte: bv32)
    requires byte <= 0xff
    ensures SameMix(Xor, register, byte, (register ^ byte) & 0xff, (register >> 8) << 8)
  {}

  lemma HighBytes(register: bv32)
    ensures register >> 8 <= 0xffffff
  {}

  lemma ByteIsSmall(byte: Byte)
    ensures Bits(byte) <= 0xff
  {}

  /** One look-up in the table does what taking in the eight bits of a byte does. */
  lemma TableStep(register: bv32, byte: bv32)
    requires byte <= 0xff
    ensures LooksUp(Step, Xor, ShiftIn, Low, Half, 8, register, byte, (register ^ byte) & 0xff, register >> 8)
  {
    StepIsLinear();
    StepTakesBits();
    XorUnit();
    Split(register, byte);
    HighBytes(register);
    HighBytesShift(register >> 8);
    ByteHalves(byte);
    LookUp(Step, Xor, ShiftIn, Low, Half, 8, register, byte, (register ^ byte) & 0xff, (register >> 8) << 8,
        register >> 8, 0);
  }

  // ---------- The encoder's code ----------

  predicate IsTable(table: array<bv32>)
    reads table
  {
    table.Length == 256 && table[..] == Entries(256)
  }

  // The first entries of the table.
  function Entries(count: nat): (entries: seq<bv32>)
    requires count <= 256
    ensures |entries| == count
  {
    if count == 0 then [] else Entries(count - 1) + [Iterate(Step, 8, (count - 1) as bv32)]
  }

  lemma {:induction false} EntryAt(count: nat, k: nat)
    requires k < count <= 256
    ensures Entries(count)[k] == Iterate(Step, 8, k as bv32)
  {
    if k < count - 1 {
      EntryAt(count - 1, k);
    }
  }

  lemma {:induction false} OneMoreTime<T>(f: T -> T, count: nat, v: T)
    ensures Iterate(f, count + 1, v) == f(Iterate(f, count, v))
  {
    if count == 0 {
    } else {
      OneMoreTime(f, count - 1, f(v));
    }
  }

  // The inner loop of the table.
  method TableEntry(index: bv32) returns (value: bv32)
    ensures value == Iterate(Step, 8, index)
  {
    value := index;
    for bit := 0 to 8
      invariant value == Iterate(Step, bit, index)
    {
      OneMoreTime(Step, bit, index);
      value := Step(value);
    }
  }

  method BuildCrcTable() returns (table: array<bv32>)
    ensures fresh(table) && IsTable(table)
  {
    table := new bv32[256];
    for index := 0 to table.Length
      invariant table[..index] == Entries(index)
    {
      var value := TableEntry(index as bv32);
      table[index] := value;
      assert table[..index + 1] == table[..index] + [value];
    }
    assert table[..] == table[..table.Length];
  }

  lemma LowByteIndex(low: bv32)
    requires low <= 0xff
    ensures 0 <= low as int < 256 && (low as int) as bv32 == low
  {}

  lemma LowByte(x: bv32)
    ensures x & 0xff <= 0xff
  {}

  method TableAt(table: array<bv32>, low: bv32) returns (entry: bv32)
    requires IsTable(table) && low <= 0xff
    ensures entry == Iterate(Step, 8, low)
  {
    LowByteIndex(low);
    var index := low as int;
    EntryAt(256, index);
    assert table[..][index] == table[index];
    entry := table[index];
  }

  method TableUpdate(table: array<bv32>, crc: bv32, byte: bv32) returns (next: bv32)
    requires IsTable(table) && byte <= 0xff
    ensures next == TakeIn(ShiftIn, Low, Half, 8, crc, byte)
  {
    TableStep(crc, byte);
    LowByte(crc ^ byte);
    var entry := TableAt(table, (crc ^ byte) & 0xff);
    next := Xor(entry, crc >> 8);
  }

  lemma RegisterStep(start: bv32, bytes: Bytes, k: nat)
    requires k < |bytes|
    ensures Register(start, bytes[..k + 1])
                == TakeIn(ShiftIn, Low, Half, 8, Register(start, bytes[..k]), Bits(bytes[k]))
  {
    assert bytes[..k + 1][..k] == bytes[..k];
  }

  /** The table-driven loop computes the bit-by-bit CRC of every byte string. */
  method TableCrc(table: array<bv32>, bytes: Bytes) returns (crc: bv32)
    requires IsTable(table)
    ensures crc == Crc(bytes)
  {
    crc := ALL_ONES;
    for k := 0 to |bytes|
      invariant crc == Register(ALL_ONES, bytes[..k])
    {
      RegisterStep(ALL_ONES, bytes, k);
      ByteIsSmall(bytes[k]);
      crc := TableUpdate(table, crc, Bits(bytes[k]));
    }
    assert bytes[..|bytes|] == bytes;
    crc := crc ^ ALL_ONES;
  }
}

/**
 * CRC-16/CCITT-FALSE as used by the framing protocol of both devices:
 * polynomial 0x1021 (ITU-T V.41), initial value 0xFFFF, most significant bit
 * first, no reflection and no final XOR.
 */
module Crc16 {
  import opened Bytes

  const POLY: bv16 := 0x1021
  const INIT: bv16 := 0xFFFF
  /** The inner loop runs once per bit of the data byte. */
  const BITS: nat := 8

  /** One step of the inner bit loop: shift left, XOR the polynomial when bit 15 falls out. */
  function Shift(c: bv16): bv16
  {
    if c & 0x8000 != 0 then (c << 1) ^ POLY else c << 1
  }

  /** n steps of the inner bit loop. */
  function ShiftN(c: bv16, n: nat): bv16
  {
    if n == 0 then c else Shift(ShiftN(c, n - 1))
  }

  /** The data byte placed in the high half of the register, as `data[i] << 8` does. */
  function HighByte(b: byte): bv16
  {
    ((b as bv8) as bv16) << 8
  }

  /** The register after one data byte: XOR it into the high byte, then eight shift steps. */
  function UpdateByte(c: bv16, b: byte): bv16
  {
    ShiftN(c ^ HighByte(b), BITS)
  }

  /** `UpdateByte` with the eight steps spelt out, so that concrete registers can be evaluated. */
  lemma UpdateByteSteps(c: bv16, b: byte)
    ensures UpdateByte(c, b) == ShiftN(c ^ HighByte(b), 8)
  {
  }

  /** CRC of a byte string: UpdateByte folded from INIT over the bytes in order. */
  function Crc(data: seq<byte>): bv16
  {
    if |data| == 0 then INIT else UpdateByte(Crc(data[..|data| - 1]), data[|data| - 1])
  }

  /**
   * `crc16_ccitt(data, len)` over the `len` bytes of `data` starting at
   * `from` (the callers pass `&buffer[1]`).
   */
  method Crc16Ccitt(data: array<byte>, from: nat, len: nat) returns (crc: bv16)
    requires from + len <= data.Length
    ensures crc == Crc(data[from..from + len])
  {
    crc := INIT;
    var i := 0;
    while i < len
      invariant 0 <= i <= len
      invariant crc == Crc(data[from..from + i])
    {
      crc := ShiftBits(crc ^ HighByte(data[from + i]));
      assert data[from..from + i + 1][..i] == data[from..from + i];
      i := i + 1;
    }
  }

  /** The inner loop of `crc16_ccitt`: eight shift steps. */
  method ShiftBits(c: bv16) returns (crc: bv16)
    ensures crc == ShiftN(c, BITS)
  {
    crc := c;
    var b := 0;
    while b < BITS
      invariant 0 <= b <= BITS
      invariant crc == ShiftN(c, b)
    {
      crc := Shift(crc);
      b := b + 1;
    }
  }

  /** Appending a byte to the data applies one UpdateByte to its CRC. */
  lemma CrcAppend(s: seq<byte>, b: byte)
    ensures Crc(s + [b]) == UpdateByte(Crc(s), b)
  {
    assert (s + [b])[..|s|] == s;
  }

  /**
   * The bit step undone: bit 0 of a stepped register is set exactly when the
   * polynomial was applied, since the polynomial is odd and a plain shift
   * leaves bit 0 clear.
   */
  function Unshift(c: bv16): bv16
  {
    if c & 1 != 0 then ((c ^ POLY) >> 1) | 0x8000 else c >> 1
  }

  lemma UnshiftShift(a: bv16)
    ensures Unshift(Shift(a)) == a
  {
    if a & 0x8000 != 0 {
      assert ((a << 1) ^ POLY) & 1 != 0;
    } else {
      assert (a << 1) & 1 == 0;
    }
  }

  /** The bit step is injective. */
  lemma ShiftInjective(a: bv16, b: bv16)
    requires Shift(a) == Shift(b)
    ensures a == b
  {
    UnshiftShift(a);
    UnshiftShift(b);
  }

  lemma {:induction false} ShiftNInjective(a: bv16, b: bv16, n: nat)
    requires ShiftN(a, n) == ShiftN(b, n)
    ensures a == b
  {
    if n > 0 {
      ShiftInjective(ShiftN(a, n - 1), ShiftN(b, n - 1));
      ShiftNInjective(a, b, n - 1);
    }
  }

  lemma WideShiftInjective(x: bv8, y: bv8)
    requires (x as bv16) << 8 == (y as bv16) << 8
    ensures x == y
  {
  }

  lemma ByteToBv8(x: int)
    requires 0 <= x < 256
    ensures (x as bv8) as int == x
  {
    if x < 16 {
    } else if x < 32 {
    } else if x < 64 {
    } else if x < 128 {
    } else {
    }
  }

  lemma Bv16RoundTrip(a: bv16)
    ensures (a as int) as bv16 == a
  {
  }

  /** Reading a register as an unsigned number loses nothing. */
  lemma Bv16ToIntInjective(a: bv16, b: bv16)
    requires a as int == b as int
    ensures a == b
  {
    Bv16RoundTrip(a);
    Bv16RoundTrip(b);
  }

  lemma HighByteInjective(x: byte, y: byte)
    requires HighByte(x) == HighByte(y)
    ensures x == y
  {
    WideShiftInjective(x as bv8, y as bv8);
    ByteToBv8(x);
    ByteToBv8(y);
  }

  /** For a fixed data byte, two different registers stay different. */
  lemma UpdateByteInjectiveInRegister(c1: bv16, c2: bv16, b: byte)
    requires c1 != c2
    ensures UpdateByte(c1, b) != UpdateByte(c2, b)
  {
    if UpdateByte(c1, b) == UpdateByte(c2, b) {
      ShiftNInjective(c1 ^ HighByte(b), c2 ^ HighByte(b), BITS);
    }
  }

  /** For a fixed register, two different data bytes give different registers. */
  lemma UpdateByteInjectiveInByte(c: bv16, x: byte, y: byte)
    requires x != y
    ensures UpdateByte(c, x) != UpdateByte(c, y)
  {
    if UpdateByte(c, x) == UpdateByte(c, y) {
      ShiftNInjective(c ^ HighByte(x), c ^ HighByte(y), BITS);
      HighByteInjective(x, y);
    }
  }

  /**
   * A corruption confined to one byte always changes the CRC: two strings of
   * the same length that differ in exactly one position have different CRCs.
   */
  lemma {:induction false} SingleByteChangeDetected(s: seq<byte>, t: seq<byte>, j: nat)
    requires |s| == |t| && j < |s|
    requires s[j] != t[j]
    requires forall k :: 0 <= k < |s| && k != j ==> s[k] == t[k]
    ensures Crc(s) != Crc(t)
  {
    var n := |s| - 1;
    if j == n {
      assert s[..n] == t[..n];
      UpdateByteInjectiveInByte(Crc(s[..n]), s[n], t[n]);
    } else {
      SingleByteChangeDetected(s[..n], t[..n], j);
      UpdateByteInjectiveInRegister(Crc(s[..n]), Crc(t[..n]), s[n]);
    }
  }

  /** One data byte of known value appended to data of known CRC. */
  lemma CrcAppendValue(s: seq<byte>, b: byte, before: bv16, after: bv16)
    requires Crc(s) == before
    requires ShiftN(before ^ HighByte(b), 8) == after
    ensures Crc(s + [b]) == after
  {
    CrcAppend(s, b);
    UpdateByteSteps(before, b);
  }

  /**
   * The catalogued check value of CRC-16/CCITT-FALSE: the CRC of ASCII
   * "123456789" is 0x29B1 (the XMODEM and KERMIT variants give other values).
   */
  lemma CheckValue()
    ensures Crc([0x31, 0x32, 0x33, 0x34, 0x35, 0x36, 0x37, 0x38, 0x39]) == 0x29B1
  {
    assert Crc([]) == 0xFFFF;
    assert ShiftN(0xFFFF ^ HighByte(0x31), 8) == 0xC782;
    CrcAppendValue([], 0x31, 0xFFFF, 0xC782);
    assert [] + [0x31] == [0x31];
    assert ShiftN(0xC782 ^ HighByte(0x32), 8) == 0x3DBA;
    CrcAppendValue([0x31], 0x32, 0xC782, 0x3DBA);
    assert [0x31] + [0x32] == [0x31, 0x32];
    assert ShiftN(0x3DBA ^ HighByte(0x33), 8) == 0x5BCE;
    CrcAppendValue([0x31, 0x32], 0x33, 0x3DBA, 0x5BCE);
    assert [0x31, 0x32] + [0x33] == [0x31, 0x32, 0x33];
    assert ShiftN(0x5BCE ^ HighByte(0x34), 8) == 0x5349;
    CrcAppendValue([0x31, 0x32, 0x33], 0x34, 0x5BCE, 0x5349);
    assert [0x31, 0x32, 0x33] + [0x34] == [0x31, 0x32, 0x33, 0x34];
    assert ShiftN(0x5349 ^ HighByte(0x35), 8) == 0x4560;
    CrcAppendValue([0x31, 0x32, 0x33, 0x34], 0x35, 0x5349, 0x4560);
    assert [0x31, 0x32, 0x33, 0x34] + [0x35] == [0x31, 0x32, 0x33, 0x34, 0x35];
    assert ShiftN(0x4560 ^ HighByte(0x36), 8) == 0x2EF4;
    CrcAppendValue([0x31, 0x32, 0x33, 0x34, 0x35], 0x36, 0x4560, 0x2EF4);
    assert [0x31, 0x32, 0x33, 0x34, 0x35] + [0x36] == [0x31, 0x32, 0x33, 0x34, 0x35, 0x36];
    assert ShiftN(0x2EF4 ^ HighByte(0x37), 8) == 0x7718;
    CrcAppendValue([0x31, 0x32, 0x33, 0x34, 0x35, 0x36], 0x37, 0x2EF4, 0x7718);
    assert [0x31, 0x32, 0x33, 0x34, 0x35, 0x36] + [0x37] == [0x31, 0x32, 0x33, 0x34, 0x35, 0x36, 0x37];
    assert ShiftN(0x7718 ^ HighByte(0x38), 8) == 0xA12B;
    CrcAppendValue([0x31, 0x32, 0x33, 0x34, 0x35, 0x36, 0x37], 0x38, 0x7718, 0xA12B);
    assert [0x31, 0x32, 0x33, 0x34, 0x35, 0x36, 0x37] + [0x38] == [0x31, 0x32, 0x33, 0x34, 0x35, 0x36, 0x37, 0x38];
    assert ShiftN(0xA12B ^ HighByte(0x39), 8) == 0x29B1;
    CrcAppendValue([0x31, 0x32, 0x33, 0x34, 0x35, 0x36, 0x37, 0x38], 0x39, 0xA12B, 0x29B1);
    assert [0x31, 0x32, 0x33, 0x34, 0x35, 0x36, 0x37, 0x38] + [0x39] == [0x31, 0x32, 0x33, 0x34, 0x35, 0x36, 0x37, 0x38, 0x39];
  }
}

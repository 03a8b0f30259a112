/** Bytes and the little-endian integers that every wire format of the program is made of. */
module Bytes {

  type byte = x: int | 0 <= x < 256

  type int32 = x: int | -0x8000_0000 <= x < 0x8000_0000

  type uint32 = x: int | 0 <= x < 0x1_0000_0000

  function Pow256(n: nat): (p: nat)
    ensures p >= 1
  {
    if n == 0 then 1 else 256 * Pow256(n - 1)
  }

  /** The `n` low-order bytes of `v`, least significant first. A right shift of a signed C
      integer by 8 is division by 256 rounded down, which is `/` here. */
  function LittleEndian(v: int, n: nat): (b: seq<byte>)
    ensures |b| == n
    decreases n, v
  {
    if n == 0 then [] else [v % 256] + LittleEndian(v / 256, n - 1)
  }

  /** The unsigned value of a little-endian byte string. */
  function Value(b: seq<byte>): (v: nat)
    ensures v < Pow256(|b|)
  {
    if b == [] then 0 else b[0] + 256 * Value(b[1..])
  }

  lemma {:induction false} ValueOfLittleEndian(v: int, n: nat)
    requires 0 <= v + Pow256(n) && v < Pow256(n)
    ensures Value(LittleEndian(v, n)) == if v < 0 then v + Pow256(n) else v
    decreases n
  {
    if n > 0 {
      ValueOfLittleEndian(v / 256, n - 1);
      assert LittleEndian(v, n)[1..] == LittleEndian(v / 256, n - 1);
    }
  }

  /** Bytes beyond the width are lost, and nothing else. */
  lemma {:induction false} LittleEndianTruncates(v: int, n: nat) returns (lost: int)
    ensures v == Value(LittleEndian(v, n)) + lost * Pow256(n)
    decreases n
  {
    if n == 0 {
      lost := v;
    } else {
      lost := LittleEndianTruncates(v / 256, n - 1);
      assert LittleEndian(v, n)[1..] == LittleEndian(v / 256, n - 1);
      Regroup(lost, Pow256(n - 1));
    }
  }

  lemma Regroup(x: int, y: int)
    ensures 256 * (x * y) == x * (256 * y)
  {
  }

  lemma ValueOfFour(v: int)
    ensures Value(LittleEndian(v, 4)) == v % 0x1_0000_0000
  {
    var lost := LittleEndianTruncates(v, 4);
    assert Pow256(2) == 0x1_0000;
    assert Pow256(4) == 256 * 256 * Pow256(2);
  }

  lemma {:induction false} LittleEndianOfValue(b: seq<byte>)
    ensures LittleEndian(Value(b), |b|) == b
  {
    if b != [] {
      LittleEndianOfValue(b[1..]);
      assert Value(b) / 256 == Value(b[1..]);
      assert b == [b[0]] + b[1..];
    }
  }

  lemma FourBytes(v: int)
    ensures LittleEndian(v, 4) == [v % 256, (v / 0x100) % 256, (v / 0x1_0000) % 256, (v / 0x100_0000) % 256]
  {
    assert v / 256 / 256 == v / 0x1_0000;
    assert v / 256 / 256 / 256 == v / 0x100_0000;
    assert LittleEndian(v / 0x100_0000, 1) == [(v / 0x100_0000) % 256];
    assert LittleEndian(v / 0x1_0000, 2) == [(v / 0x1_0000) % 256] + LittleEndian(v / 0x100_0000, 1);
  }

  /** Four stores with growing shifts, as `int2Bytes` and `FrameOutput::setValueLE` write them. */
  method Int2Bytes(frame: array<byte>, at: nat, length: int)
    requires at + 4 <= frame.Length
    modifies frame
    ensures frame[..] == old(frame[..at]) + LittleEndian(length, 4) + old(frame[at + 4..])
  {
    frame[at] := length % 256;
    frame[at + 1] := (length / 0x100) % 256;
    frame[at + 2] := (length / 0x1_0000) % 256;
    frame[at + 3] := (length / 0x100_0000) % 256;
    FourBytes(length);
  }

  /** The four bytes or-ed together at shifts 0, 8, 16 and 24, then read as a signed 32-bit int. */
  function Uint8tToInt(src: seq<byte>): int32
    requires |src| == 4
  {
    var b0: int, b1: int, b2: int, b3: int := src[0], src[1], src[2], src[3];
    var u := b0 + 0x100 * b1 + 0x1_0000 * b2 + 0x100_0000 * b3;
    if u < 0x8000_0000 then u else u - 0x1_0000_0000
  }

  lemma Uint8tToIntInverts(v: int32)
    ensures Uint8tToInt(LittleEndian(v, 4)) == v
  {
    FourBytes(v);
    var q1, q2, q3 := v / 0x100, v / 0x1_0000, v / 0x100_0000;
    assert q1 / 256 == q2 && q2 / 256 == q3;
    assert v == v % 256 + 256 * (q1 % 256 + 256 * (q2 % 256 + 256 * q3));
    assert q3 % 256 == if q3 < 0 then q3 + 256 else q3;
  }
}

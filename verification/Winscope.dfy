/** The metadata track that lets Winscope align a recording with its traces. */
module Winscope {
  import opened Bytes
  import opened Wrappers

  /** "#VV1NSC0PET1ME!#" */
  const MAGIC: seq<byte> := [35, 86, 86, 49, 78, 83, 67, 48, 80, 69, 84, 49, 77, 69, 33, 35]

  /** Each time stamp plus the clock offset, as `size` little-endian bytes. */
  function Stamps(timestamps: seq<int>, offset: int, size: nat): (b: seq<byte>) {
    if timestamps == [] then []
    else
      var n := |timestamps| - 1;
      Stamps(timestamps[..n], offset, size) + LittleEndian(timestamps[n] + offset, size)
  }

  lemma OneMore(size: nat, n: nat)
    ensures size * n + size == size * (n + 1)
  {
  }

  lemma {:induction false} StampsLength(timestamps: seq<int>, offset: int, size: nat)
    ensures |Stamps(timestamps, offset, size)| == size * |timestamps|
  {
    if timestamps != [] {
      var n := |timestamps| - 1;
      StampsLength(timestamps[..n], offset, size);
      OneMore(size, n);
    }
  }

  function Metadata(timestamps: seq<int>, offset: int): seq<byte> {
    MAGIC + LittleEndian(|timestamps|, 4) + Stamps(timestamps, offset, 8)
  }

  /** A reader of the format: magic string, 32-bit count, signed 64-bit stamps. */
  function Signed64(v: nat): int { if v < 0x8000_0000_0000_0000 then v else v - 0x1_0000_0000_0000_0000 }

  function ReadStamps(b: seq<byte>): seq<int> {
    if |b| < 8 then []
    else ReadStamps(b[..|b| - 8]) + [Signed64(Value(b[|b| - 8..]))]
  }

  function ReadMetadata(b: seq<byte>): Option<seq<int>> {
    if |b| >= 20 && b[..16] == MAGIC && |b| == 20 + 8 * Value(b[16..20]) then Some(ReadStamps(b[20..]))
    else None
  }

  predicate IsInt64(v: int) { -0x8000_0000_0000_0000 <= v < 0x8000_0000_0000_0000 }

  function Shifted(timestamps: seq<int>, offset: int): (s: seq<int>)
    ensures |s| == |timestamps| && forall i :: 0 <= i < |s| ==> s[i] == timestamps[i] + offset
  {
    seq(|timestamps|, i requires 0 <= i < |timestamps| => timestamps[i] + offset)
  }

  lemma Pow256Values()
    ensures Pow256(4) == 0x1_0000_0000 && Pow256(8) == 0x1_0000_0000_0000_0000
  {
    assert Pow256(2) == 0x1_0000;
    assert Pow256(4) == 256 * 256 * Pow256(2);
    assert Pow256(6) == 256 * 256 * Pow256(4);
    assert Pow256(8) == 256 * 256 * Pow256(6);
  }

  lemma StampRoundTrip(v: int)
    requires IsInt64(v)
    ensures Signed64(Value(LittleEndian(v, 8))) == v
  {
    Pow256Values();
    ValueOfLittleEndian(v, 8);
  }

  lemma CountRoundTrip(n: nat)
    requires n < 0x1_0000_0000
    ensures Value(LittleEndian(n, 4)) == n
  {
    Pow256Values();
    ValueOfLittleEndian(n, 4);
  }

  lemma ReadLastStamp(b: seq<byte>, last: seq<byte>)
    requires |last| == 8
    ensures ReadStamps(b + last) == ReadStamps(b) + [Signed64(Value(last))]
  {
    var all := b + last;
    assert all[..|all| - 8] == b && all[|all| - 8..] == last;
  }

  lemma ShiftedAppend(timestamps: seq<int>, offset: int)
    requires timestamps != []
    ensures var n := |timestamps| - 1;
            Shifted(timestamps, offset) == Shifted(timestamps[..n], offset) + [timestamps[n] + offset]
  {
  }

  lemma {:induction false} ReadStampsInverts(timestamps: seq<int>, offset: int)
    requires forall i :: 0 <= i < |timestamps| ==> IsInt64(timestamps[i] + offset)
    ensures ReadStamps(Stamps(timestamps, offset, 8)) == Shifted(timestamps, offset)
  {
    if timestamps != [] {
      var n := |timestamps| - 1;
      ReadStampsInverts(timestamps[..n], offset);
      ReadLastStamp(Stamps(timestamps[..n], offset, 8), LittleEndian(timestamps[n] + offset, 8));
      StampRoundTrip(timestamps[n] + offset);
      ShiftedAppend(timestamps, offset);
    }
  }

  lemma ReadParts(count: seq<byte>, stamps: seq<byte>)
    requires |count| == 4 && |stamps| == 8 * Value(count)
    ensures ReadMetadata(MAGIC + count + stamps) == Some(ReadStamps(stamps))
  {
    var b := MAGIC + count + stamps;
    assert |MAGIC| == 16;
    assert b[..16] == MAGIC;
    assert b[16..20] == count;
    assert b[20..] == stamps;
  }

  /** Fewer than 2^32 stamps that stay in 64 bits are read back, each with the clock offset added. */
  lemma MetadataRoundTrip(timestamps: seq<int>, offset: int)
    requires |timestamps| < 0x1_0000_0000
    requires forall i :: 0 <= i < |timestamps| ==> IsInt64(timestamps[i] + offset)
    ensures ReadMetadata(Metadata(timestamps, offset)) == Some(Shifted(timestamps, offset))
  {
    CountRoundTrip(|timestamps|);
    ReadStampsInverts(timestamps, offset);
    StampsLength(timestamps, offset, 8);
    ReadParts(LittleEndian(|timestamps|, 4), Stamps(timestamps, offset, 8));
  }

  /** Byte by byte, shifting the value down. */
  method WriteValueLE(value: int, size: nat, buffer: array<byte>, at: nat)
    requires at + size <= buffer.Length
    modifies buffer
    ensures buffer[..at + size] == old(buffer[..at]) + LittleEndian(value, size)
    ensures buffer[at + size..] == old(buffer[at + size..])
  {
    var v := value;
    for i := 0 to size
      invariant buffer[..at] == old(buffer[..at]) && buffer[at + size..] == old(buffer[at + size..])
      invariant buffer[at..at + i] + LittleEndian(v, size - i) == LittleEndian(value, size)
    {
      ghost var before := buffer[at..at + i];
      buffer[at + i] := v % 256;
      assert buffer[at..at + i + 1] == before + [v % 256];
      v := v / 256;
    }
    assert buffer[..at + size] == buffer[..at] + buffer[at..at + size];
  }

  lemma StampsAppend(timestamps: seq<int>, offset: int, size: nat, i: nat)
    requires i < |timestamps|
    ensures Stamps(timestamps[..i + 1], offset, size)
         == Stamps(timestamps[..i], offset, size) + LittleEndian(timestamps[i] + offset, size)
  {
    var p := timestamps[..i + 1];
    assert p[..|p| - 1] == timestamps[..i] && p[|p| - 1] == timestamps[i];
  }

  /** strcpy of the magic string, with its NUL. */
  method CopyMagic(buffer: array<byte>)
    requires buffer.Length > |MAGIC|
    modifies buffer
    ensures buffer[..|MAGIC|] == MAGIC && buffer[|MAGIC|] == 0
  {
    for i := 0 to |MAGIC|
      invariant buffer[..i] == MAGIC[..i]
    {
      buffer[i] := MAGIC[i];
    }
    buffer[|MAGIC|] := 0;
  }

  /** The loop over the time stamps, from position `at` on. */
  method WriteStamps(timestamps: seq<int>, offset: int, size: nat, buffer: array<byte>, at: nat)
    requires at + size * |timestamps| == buffer.Length
    modifies buffer
    ensures buffer[..] == old(buffer[..at]) + Stamps(timestamps, offset, size)
  {
    var pos := at;
    for idx := 0 to |timestamps|
      invariant pos == at + |Stamps(timestamps[..idx], offset, size)| == at + size * idx
      invariant at <= pos <= buffer.Length && buffer[..at] == old(buffer[..at])
      invariant buffer[at..pos] == Stamps(timestamps[..idx], offset, size)
    {
      StampsAppend(timestamps, offset, size, idx);
      StampsLength(timestamps[..idx + 1], offset, size);
      StillFits(size, idx + 1, |timestamps|);
      ghost var before := buffer[at..pos];
      WriteValueLE(timestamps[idx] + offset, size, buffer, pos);
      pos := pos + size;
      assert buffer[at..pos] == before + LittleEndian(timestamps[idx] + offset, size);
    }
    assert timestamps[..|timestamps|] == timestamps;
    assert buffer[..] == buffer[..at] + buffer[at..pos];
  }

  lemma StillFits(size: nat, i: nat, n: nat)
    requires i <= n
    ensures size * i <= size * n
  {
  }

  /** The bytes handed to the muxer; the count overwrites the NUL of the magic string. */
  method WinscopeMetadata(timestamps: seq<int>, offset: int) returns (buffer: array<byte>)
    ensures fresh(buffer) && buffer[..] == Metadata(timestamps, offset)
  {
    var n, m := |timestamps|, |MAGIC|;
    buffer := new byte[n * 8 + 4 + m](_ => 0);
    CopyMagic(buffer);
    WriteValueLE(n, 4, buffer, m);
    WriteStamps(timestamps, offset, 8, buffer, m + 4);
  }
}

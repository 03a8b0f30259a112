/** Raw frame output: RGBA pixels squeezed to RGB in place, and the packet in front of them. */
module FrameOutput {
  import opened Bytes
  import opened Wrappers

  /** HAL_PIXEL_FORMAT_RGB_888 */
  const RGB_888 := 3

  /** Three of every four bytes. */
  function Rgb(rgba: seq<byte>, pixelCount: nat): (rgb: seq<byte>)
    requires 4 * pixelCount <= |rgba|
    ensures |rgb| == 3 * pixelCount
  {
    if pixelCount == 0 then []
    else
      var r := 4 * (pixelCount - 1);
      Rgb(rgba, pixelCount - 1) + [rgba[r], rgba[r + 1], rgba[r + 2]]
  }

  /** Byte c of pixel k. */
  lemma {:induction false} RgbAt(rgba: seq<byte>, pixelCount: nat, k: nat, c: nat)
    requires 4 * pixelCount <= |rgba| && k < pixelCount && c < 3
    ensures Rgb(rgba, pixelCount)[3 * k + c] == rgba[4 * k + c]
  {
    if k < pixelCount - 1 {
      RgbAt(rgba, pixelCount - 1, k, c);
    }
  }

  /** One buffer, two cursors: the write cursor never overtakes the read cursor. */
  method ReduceRgbaToRgb(buf: array<byte>, pixelCount: nat)
    requires 4 * pixelCount <= buf.Length
    modifies buf
    ensures buf[..3 * pixelCount] == Rgb(old(buf[..]), pixelCount)
    ensures buf[3 * pixelCount..] == old(buf[3 * pixelCount..])
  {
    ghost var rgba := buf[..];
    var w, r := 0, 0;
    for i := 0 to pixelCount
      invariant w == 3 * i && r == 4 * i
      invariant buf[..w] == Rgb(rgba, i)
      invariant forall j :: w <= j < buf.Length ==> buf[j] == rgba[j]
    {
      ghost var done := buf[..w];
      buf[w] := buf[r];
      buf[w + 1] := buf[r + 1];
      buf[w + 2] := buf[r + 2];
      assert buf[..w] == done;
      assert buf[..w + 3] == done + [buf[w], buf[w + 1], buf[w + 2]];
      w := w + 3;
      r := r + 4;
    }
  }

  datatype Frame = Frame(width: nat, height: nat, rgb: seq<byte>)

  /** The lengths and sizes fit their 32-bit fields. */
  predicate Fits(f: Frame) {
    16 + |f.rgb| < 0x1_0000_0000 && f.width * 3 < 0x1_0000_0000 && f.height < 0x1_0000_0000
  }

  function Header(width: nat, height: nat, size: nat): seq<byte> {
    LittleEndian(16 + size, 4) + LittleEndian(width, 4) + LittleEndian(height, 4)
    + LittleEndian(width * 3, 4) + LittleEndian(RGB_888, 4)
  }

  function Packet(f: Frame): seq<byte> { Header(f.width, f.height, |f.rgb|) + f.rgb }

  function PacketAll(fs: seq<Frame>): seq<byte> {
    if fs == [] then [] else Packet(fs[0]) + PacketAll(fs[1..])
  }

  /** A reader of the stream: cut off one packet at a time; `None` if it does not end with one, or if a
      packet's row stride is not three bytes a pixel, or its format not RGB. */
  function ReadAll(b: seq<byte>): Option<seq<Frame>>
    decreases |b|
  {
    if b == [] then Some([])
    else if |b| < 20 then None
    else
      var n := Value(b[..4]);
      if n < 16 || |b| < 4 + n then None
      else if Value(b[12..16]) != 3 * Value(b[4..8]) || Value(b[16..20]) != 3 then None
      else
        var rest := ReadAll(b[4 + n..]);
        if rest == None then None
        else Some([Frame(Value(b[4..8]), Value(b[8..12]), b[20..4 + n])] + rest.value)
  }

  lemma FieldsOfPacket(a: seq<byte>, b: seq<byte>, c: seq<byte>, d: seq<byte>, e: seq<byte>, rgb: seq<byte>,
                       rest: seq<byte>)
    requires |a| == |b| == |c| == |d| == |e| == 4
    ensures var p := (a + b + c + d + e + rgb) + rest;
            && p[..4] == a && p[4..8] == b && p[8..12] == c && p[12..16] == d && p[16..20] == e
            && p[20..20 + |rgb|] == rgb && p[20 + |rgb|..] == rest
  {
  }

  /** The five fields in front of the pixels, each modulo 2^32: the length of what follows the first
      field, the size in pixels, the bytes of a row and the format. */
  ghost predicate HasHeader(b: seq<byte>, width: nat, height: nat, rgb: seq<byte>) {
    && |b| == 20 + |rgb| && b[20..] == rgb
    && Value(b[..4]) == (16 + |rgb|) % 0x1_0000_0000
    && Value(b[4..8]) == width % 0x1_0000_0000 && Value(b[8..12]) == height % 0x1_0000_0000
    && Value(b[12..16]) == (3 * width) % 0x1_0000_0000 && Value(b[16..20]) == 3
  }

  lemma PacketHasHeader(f: Frame)
    ensures HasHeader(Packet(f), f.width, f.height, f.rgb)
  {
    var a, b, c := LittleEndian(16 + |f.rgb|, 4), LittleEndian(f.width, 4), LittleEndian(f.height, 4);
    var d, e := LittleEndian(f.width * 3, 4), LittleEndian(RGB_888, 4);
    FieldsOfPacket(a, b, c, d, e, f.rgb, []);
    var p := a + b + c + d + e + f.rgb;
    assert p + [] == p && Packet(f) == p && |p| == 20 + |f.rgb|;
    ValueOfFour(16 + |f.rgb|);
    ValueOfFour(f.width);
    ValueOfFour(f.height);
    ValueOfFour(f.width * 3);
    ValueOfFour(RGB_888);
  }

  lemma HeadOf(p: seq<byte>, rest: seq<byte>)
    requires |p| >= 20
    ensures var b := p + rest;
            && b[..4] == p[..4] && b[4..8] == p[4..8] && b[8..12] == p[8..12] && b[12..16] == p[12..16]
            && b[16..20] == p[16..20] && b[20..|p|] == p[20..] && b[|p|..] == rest
  {
  }

  lemma CutOff(p: seq<byte>, rest: seq<byte>, f: Frame)
    requires Fits(f) && HasHeader(p, f.width, f.height, f.rgb)
    ensures var b := p + rest;
            && |b| >= 20 && Value(b[..4]) == 16 + |f.rgb| && |p| == 20 + |f.rgb|
            && Value(b[4..8]) == f.width && Value(b[8..12]) == f.height
            && Value(b[12..16]) == 3 * f.width && Value(b[16..20]) == 3
            && b[20..|p|] == f.rgb && b[|p|..] == rest
  {
    HeadOf(p, rest);
  }

  lemma ReadPacket(f: Frame, rest: seq<byte>)
    requires Fits(f)
    ensures ReadAll(Packet(f) + rest) ==
              if ReadAll(rest) == None then None else Some([f] + ReadAll(rest).value)
  {
    PacketHasHeader(f);
    CutOff(Packet(f), rest, f);
  }

  /** Any number of packets in a row parse back into exactly the frames written. */
  lemma {:induction false} PacketsRoundTrip(fs: seq<Frame>)
    requires forall i :: 0 <= i < |fs| ==> Fits(fs[i])
    ensures ReadAll(PacketAll(fs)) == Some(fs)
  {
    if fs != [] {
      var rest := fs[1..];
      PacketsRoundTrip(rest);
      ReadPacket(fs[0], PacketAll(rest));
      assert PacketAll(fs) == Packet(fs[0]) + PacketAll(rest);
      assert [fs[0]] + rest == fs;
    }
  }

  method FrameHeader(width: nat, height: nat, rgbDataLen: nat) returns (header: array<byte>)
    ensures fresh(header) && header[..] == Header(width, height, rgbDataLen)
  {
    header := new byte[20](_ => 0);
    PutField(header, 0, 20 - 4 + rgbDataLen);
    PutField(header, 4, width);
    PutField(header, 8, height);
    PutField(header, 12, width * 3);
    PutField(header, 16, RGB_888);
    assert header[..] == header[..20];
  }

  /** setValueLE behind the fields already written. */
  method PutField(header: array<byte>, at: nat, value: nat)
    requires at + 4 <= header.Length
    modifies header
    ensures header[..at + 4] == old(header[..at]) + LittleEndian(value, 4)
  {
    Int2Bytes(header, at, value);
  }

  /** copyFrame once the pixels have been read back: squeeze them, and write the packet or, for raw
      frames, only the pixels. */
  method CopyFrame(pixelBuf: array<byte>, width: nat, height: nat, rawFrames: bool) returns (written: seq<byte>)
    requires pixelBuf.Length == 4 * (width * height)
    modifies pixelBuf
    ensures var rgb := Rgb(old(pixelBuf[..]), width * height);
            && written == (if rawFrames then rgb else Packet(Frame(width, height, rgb)))
            && |rgb| == 3 * (width * height)
            && (!rawFrames ==> HasHeader(written, width, height, rgb))
  {
    var pixelCount := width * height;
    ReduceRgbaToRgb(pixelBuf, pixelCount);
    var rgbDataLen := 3 * pixelCount;
    if !rawFrames {
      var header := FrameHeader(width, height, rgbDataLen);
      written := header[..] + pixelBuf[..rgbDataLen];
      PacketHasHeader(Frame(width, height, pixelBuf[..rgbDataLen]));
    } else {
      written := pixelBuf[..rgbDataLen];
    }
  }
}

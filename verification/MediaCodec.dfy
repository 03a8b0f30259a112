/** The sending side: framing of encoder output, the key-frame gate of each orientation, rotations. */
module MediaCodec {
  import opened Bytes
  import opened Wrappers
  import opened Protocol

  // ----- The sender as a function of its flags

  datatype Sender = Sender(recording: bool, keyWritten1: bool, keyWritten2: bool) {
    function Open(o: Orientation): bool { if o.Portrait? then keyWritten1 else keyWritten2 }

    function SetOpen(o: Orientation, open: bool): (s: Sender)
      ensures s.recording == recording && s.Open(o) == open
      ensures forall p :: p != o ==> s.Open(p) == Open(p)
    {
      if o.Portrait? then this.(keyWritten1 := open) else this.(keyWritten2 := open)
    }
  }

  /** sendData: nothing once recording has ended, and a failed write ends it. */
  function Send(s: Sender, m: Message, writeOk: bool): (r: (Sender, Option<Message>)) {
    if !s.recording then (s, None)
    else if writeOk then (s, Some(m))
    else (s.(recording := false), None)
  }

  /** One output buffer of the encoder: dropped while its orientation waits for a key frame. */
  function Encode(s: Sender, onlyKeys: bool, payload: seq<byte>, flags: uint32, o: Orientation, writeOk: bool)
    : (r: (Sender, Option<Message>))
  {
    var key := flags % 2 == 1;
    if (onlyKeys || !s.Open(o)) && !key then (s, None)
    else Send(s.SetOpen(o, true), Video(payload, o, flags % 256), writeOk)
  }

  /** A rotation closes the gate of the new orientation before it is announced. */
  function Rotate(s: Sender, o: Orientation, writeOk: bool): (r: (Sender, Option<Message>)) {
    Send(s.SetOpen(o, false), Turn(o), writeOk)
  }

  /** A frame that is sent through a closed gate is a key frame and opens it; no frame is sent once
      recording has ended; the other orientation's gate is untouched. */
  lemma GateOpensOnKey(s: Sender, onlyKeys: bool, payload: seq<byte>, flags: uint32, o: Orientation, writeOk: bool)
    ensures var (t, m) := Encode(s, onlyKeys, payload, flags, o, writeOk);
            && (m.Some? ==> s.recording && m.value == Video(payload, o, flags % 256) && t.Open(o))
            && (m.Some? && !s.Open(o) ==> IsKey(Body(m.value)))
            && (m == None && t.recording ==> t.Open(o) == s.Open(o) || !s.recording)
            && (s.recording && s.Open(o) && (!onlyKeys || flags % 2 == 1) && writeOk ==> m.Some?)
            && (forall p :: p != o ==> t.Open(p) == s.Open(p))
            && var passes := flags % 2 == 1 || (s.Open(o) && !onlyKeys);
               && (m.Some? <==> s.recording && passes && writeOk)
               && (t.recording <==> s.recording && (passes ==> writeOk))
               && (t.Open(o) <==> s.Open(o) || passes)
  {
  }

  /** A rotation closes the new orientation's gate and no other, whether or not it can be announced; it is
      announced while recording, and a failed write ends the recording. */
  lemma RotateClosesOne(s: Sender, o: Orientation, writeOk: bool)
    ensures var (t, m) := Rotate(s, o, writeOk);
            && !t.Open(o) && (forall p :: p != o ==> t.Open(p) == s.Open(p))
            && m == (if s.recording && writeOk then Some(Turn(o)) else None)
            && (t.recording <==> s.recording && writeOk)
  {
  }

  lemma WireOfFrame(payload: seq<byte>, o: Orientation, flags: byte)
    ensures Wire(Video(payload, o, flags)) == LittleEndian(|payload| + 2, 4) + (payload + [o.Tag(), flags])
  {
  }

  lemma FrameLayout(frame: seq<byte>, length: seq<byte>, payload: seq<byte>, tag: byte, flags: byte)
    requires |length| == 4 && |frame| == |payload| + 6
    requires frame[..4] == length && frame[4..4 + |payload|] == payload
    requires frame[|payload| + 4] == tag && frame[|payload| + 5] == flags
    ensures frame == length + (payload + [tag, flags])
  {
  }

  // ----- The code

  /** The sender's globals; `stream` is everything written to the server's socket. */
  class Encoder {
    var onlyOutputKeyFrame: bool
    var isRecording: bool
    var isPlaying1: bool
    var isPlaying2: bool
    var isKeyFrameWrite1: bool
    var isKeyFrameWrite2: bool
    var stream: seq<byte>

    constructor (onlyKeys: bool)
      ensures onlyOutputKeyFrame == onlyKeys && Abstract() == Sender(false, false, false)
      ensures !isPlaying1 && !isPlaying2 && stream == []
    {
      onlyOutputKeyFrame := onlyKeys;
      isRecording, isPlaying1, isPlaying2 := false, false, false;
      isKeyFrameWrite1, isKeyFrameWrite2, stream := false, false, [];
    }

    function Abstract(): Sender
      reads this
    {
      Sender(isRecording, isKeyFrameWrite1, isKeyFrameWrite2)
    }

    /** `writeOk` is the socket's answer: everything is written, or the connection is gone. */
    method SendData(data: seq<byte>, writeOk: bool)
      modifies this`stream, this`isRecording, this`isPlaying1, this`isPlaying2
      ensures isRecording == (old(isRecording) && writeOk)
      ensures stream == if isRecording then old(stream) + data else old(stream)
      ensures old(isRecording) && !writeOk ==> !isPlaying1 && !isPlaying2
      ensures old(isRecording) ==> writeOk ==> isPlaying1 == old(isPlaying1) && isPlaying2 == old(isPlaying2)
      ensures !old(isRecording) ==> isPlaying1 == old(isPlaying1) && isPlaying2 == old(isPlaying2)
    {
      if isRecording {
        if writeOk {
          stream := stream + data;
        } else {
          isRecording := false;
          isPlaying1 := false;
          isPlaying2 := false;
        }
      }
    }

    /** Length, payload, tag, flags, laid out in one buffer. */
    method FrameBytes(room: array<byte>, flags: uint32, isPortrait: bool) returns (frame: array<byte>)
      requires room.Length + 6 < 0x8000_0000
      ensures fresh(frame)
      ensures frame[..] == Wire(Video(room[..], if isPortrait then Portrait else Landscape, flags % 256))
    {
      var size := room.Length;
      frame := new byte[size + 6](_ => 0);
      Int2Bytes(frame, 0, size + 2);
      ghost var length := frame[..4];
      assert length == LittleEndian(size + 2, 4);
      forall i | 0 <= i < size {
        frame[4 + i] := room[i];
      }
      frame[size + 5] := flags % 256;
      frame[size + 4] := if isPortrait then 1 else 2;
      assert frame[..4] == length && frame[4..4 + size] == room[..];
      FrameLayout(frame[..], length, room[..], frame[size + 4], frame[size + 5]);
      WireOfFrame(room[..], if isPortrait then Portrait else Landscape, flags % 256);
    }

    method HandleOutputBufferImpl(room: array<byte>, flags: uint32, isPortrait: bool, writeOk: bool)
      requires room.Length + 6 < 0x8000_0000
      modifies this
      ensures var o := if isPortrait then Portrait else Landscape;
              var (s, m) := Encode(old(Abstract()), false, room[..], flags, o, writeOk);
              && Abstract() == s
              && stream == old(stream) + (if m.Some? then Wire(m.value) else [])
              && onlyOutputKeyFrame == old(onlyOutputKeyFrame)
      ensures old(isRecording) && !isRecording ==> !writeOk && !isPlaying1 && !isPlaying2
      ensures !old(isRecording) || isRecording ==> isPlaying1 == old(isPlaying1) && isPlaying2 == old(isPlaying2)
    {
      var frame := FrameBytes(room, flags, isPortrait);
      if isPortrait {
        if !isKeyFrameWrite1 {
          if flags % 2 != 0 {
            isKeyFrameWrite1 := true;
            SendData(frame[..], writeOk);
            return;
          }
          return;
        }
        SendData(frame[..], writeOk);
        return;
      }
      if !isKeyFrameWrite2 {
        if flags % 2 != 0 {
          isKeyFrameWrite2 := true;
          SendData(frame[..], writeOk);
          return;
        }
        return;
      }
      SendData(frame[..], writeOk);
    }

    method HandleOutputBuffer(room: array?<byte>, flags: uint32, isPortrait: bool, writeOk: bool)
      requires room != null ==> room.Length + 6 < 0x8000_0000
      modifies this
      ensures onlyOutputKeyFrame == old(onlyOutputKeyFrame)
      ensures room == null ==> Abstract() == old(Abstract()) && stream == old(stream)
      ensures old(isRecording) && !isRecording ==> !writeOk && !isPlaying1 && !isPlaying2
      ensures !old(isRecording) || isRecording ==> isPlaying1 == old(isPlaying1) && isPlaying2 == old(isPlaying2)
      ensures room != null ==>
              var o := if isPortrait then Portrait else Landscape;
              var (s, m) := Encode(old(Abstract()), onlyOutputKeyFrame, room[..], flags, o, writeOk);
              && Abstract() == s
              && stream == old(stream) + (if m.Some? then Wire(m.value) else [])
    {
      if room == null {
        return;
      }
      if onlyOutputKeyFrame {
        if flags % 2 == 1 {
          HandleOutputBufferImpl(room, flags, isPortrait, writeOk);
        }
        return;
      }
      HandleOutputBufferImpl(room, flags, isPortrait, writeOk);
    }

    method FromPortraitToLandscape(writeOk: bool)
      modifies this
      ensures var (s, m) := Rotate(old(Abstract()), Landscape, writeOk);
              && Abstract() == s
              && stream == old(stream) + (if m.Some? then Wire(m.value) else [])
              && onlyOutputKeyFrame == old(onlyOutputKeyFrame)
      ensures !isPlaying1 && (isPlaying2 <==> writeOk || !old(isRecording))
    {
      var orientationLandscape := new byte[5](_ => 0);
      Int2Bytes(orientationLandscape, 0, 1);
      orientationLandscape[4] := -2 % 256;
      isPlaying1 := false;
      isPlaying2 := true;
      isKeyFrameWrite2 := false;
      assert orientationLandscape[..] == orientationLandscape[..4] + [254];
      SendData(orientationLandscape[..], writeOk);
    }

    method FromLandscapeToPortrait(writeOk: bool)
      modifies this
      ensures var (s, m) := Rotate(old(Abstract()), Portrait, writeOk);
              && Abstract() == s
              && stream == old(stream) + (if m.Some? then Wire(m.value) else [])
              && onlyOutputKeyFrame == old(onlyOutputKeyFrame)
      ensures !isPlaying2 && (isPlaying1 <==> writeOk || !old(isRecording))
    {
      var orientationPortrait := new byte[5](_ => 0);
      Int2Bytes(orientationPortrait, 0, 1);
      orientationPortrait[4] := -1 % 256;
      isPlaying1 := true;
      isPlaying2 := false;
      isKeyFrameWrite1 := false;
      assert orientationPortrait[..] == orientationPortrait[..4] + [255];
      SendData(orientationPortrait[..], writeOk);
    }

    /** The two configurations open the stream, the one of the current orientation first; each write may
        fail, and after a failure nothing more is written. */
    method StartRecordScreen(orientation1: int, orientation2: int, portrait: seq<byte>, landscape: seq<byte>,
                             firstOk: bool, secondOk: bool)
      modifies this
      ensures old(isRecording) ==> Abstract() == old(Abstract()) && stream == old(stream)
      ensures old(isRecording) ==> isPlaying1 == old(isPlaying1) && isPlaying2 == old(isPlaying2)
      ensures !old(isRecording) && orientation1 != 1 && orientation2 != 2 ==>
                && isPlaying1 == old(isPlaying1) && isPlaying2 == old(isPlaying2)
                && isKeyFrameWrite1 == old(isKeyFrameWrite1) && isKeyFrameWrite2 == old(isKeyFrameWrite2)
      ensures !old(isRecording) && (orientation1 == 1 || orientation2 == 2) ==>
                && isRecording == (firstOk && secondOk)
                && var (first, second) := if orientation1 == 1 then (portrait, landscape) else (landscape, portrait);
                   stream == old(stream) + (if firstOk then Block(first) else [])
                                         + (if firstOk && secondOk then Block(second) else [])
      ensures !old(isRecording) && orientation1 == 1 ==>
                && isPlaying1 == isRecording && !isPlaying2
                && !isKeyFrameWrite1 && isKeyFrameWrite2 == old(isKeyFrameWrite2)
      ensures !old(isRecording) && orientation1 != 1 && orientation2 == 2 ==>
                && !isPlaying1 && isPlaying2 == isRecording
                && !isKeyFrameWrite2 && isKeyFrameWrite1 == old(isKeyFrameWrite1)
      ensures !old(isRecording) && orientation1 != 1 && orientation2 != 2 ==> isRecording && stream == old(stream)
      ensures onlyOutputKeyFrame == old(onlyOutputKeyFrame)
    {
      if isRecording {
        return;
      }
      isRecording := true;
      if orientation1 == 1 {
        isPlaying1, isPlaying2, isKeyFrameWrite1 := true, false, false;
        SendData(Block(portrait), firstOk);
        SendData(Block(landscape), secondOk);
      } else if orientation2 == 2 {
        isPlaying1, isPlaying2, isKeyFrameWrite2 := false, true, false;
        SendData(Block(landscape), firstOk);
        SendData(Block(portrait), secondOk);
      }
    }
  }
}

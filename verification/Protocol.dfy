/** The messages a casting device sends after the handshake, and their bytes on the socket. */
module Protocol {
  import opened Bytes

  const DATA_BUFFER := 2073600

  datatype Orientation = Portrait | Landscape {
    /** The tag appended to every video frame. */
    function Tag(): byte { if Portrait? then 1 else 2 }

    /** The one-byte message that announces a rotation: (uint8_t) -1 or (uint8_t) -2. */
    function Notice(): byte { if Portrait? then 255 else 254 }
  }

  datatype Message =
    | Video(payload: seq<byte>, orientation: Orientation, flags: byte)
    | Turn(orientation: Orientation)

  function Body(m: Message): (b: seq<byte>)
    ensures |b| >= 1
  {
    match m
    case Video(payload, orientation, flags) => payload + [orientation.Tag(), flags]
    case Turn(orientation) => [orientation.Notice()]
  }

  /** A body behind its 4-byte length. */
  function Block(body: seq<byte>): seq<byte> { LittleEndian(|body|, 4) + body }

  function Wire(m: Message): seq<byte> { Block(Body(m)) }

  function WireAll(ms: seq<Message>): seq<byte> {
    if ms == [] then [] else Wire(ms[0]) + WireAll(ms[1..])
  }

  /** The receiver stores a body in a buffer of DATA_BUFFER bytes. */
  predicate Fits(m: Message) { |Body(m)| <= DATA_BUFFER }

  predicate AllFit(ms: seq<Message>) { forall i :: 0 <= i < |ms| ==> Fits(ms[i]) }

  lemma {:induction false} WireAllAppend(ms: seq<Message>, m: Message)
    ensures WireAll(ms + [m]) == WireAll(ms) + Wire(m)
  {
    if ms == [] {
      assert [m][1..] == [];
    } else {
      assert (ms + [m])[1..] == ms[1..] + [m];
      WireAllAppend(ms[1..], m);
    }
  }

  /** The low bit of the flags byte, which comes last, marks a key frame. */
  predicate IsKey(packet: seq<byte>)
    requires packet != []
  {
    packet[|packet| - 1] % 2 == 1
  }
}

/** The receiving side of a TCP session: short reads, the handshake and the message loop. */
module MediaServer {
  import opened Bytes
  import opened Wrappers
  import opened Protocol
  import ClientInfo

  /** What the message loop does with one body: rotate the window, or queue the frame. */
  datatype Event = Put(packet: seq<byte>) | Orient(orientation: Orientation)

  function Dispatch(body: seq<byte>): (e: Event)
    requires body != []
    ensures e.Put? ==> e.packet == body
  {
    if body[0] == 255 then Orient(Portrait)
    else if body[0] == 254 then Orient(Landscape)
    else Put(body)
  }

  /** What the next length at the front of a byte stream announces. */
  datatype Unit =
    | Incomplete
    | Skipped(rest: seq<byte>)
    | Complete(body: seq<byte>, rest: seq<byte>)

  function NextUnit(bytes: seq<byte>): (u: Unit)
    ensures u.Skipped? ==> |u.rest| < |bytes|
    ensures u.Complete? ==> u.body != [] && |u.rest| < |bytes|
  {
    if |bytes| < 4 then Incomplete
    else
      var n: int := Uint8tToInt(bytes[..4]);
      if n <= 0 then Skipped(bytes[4..])
      else if |bytes| < 4 + n then Incomplete
      else Complete(bytes[4..4 + n], bytes[4 + n..])
  }

  /** The events of the message loop on a byte stream that then ends, however it was split. */
  function Parse(bytes: seq<byte>): (es: seq<Event>)
    ensures forall i :: 0 <= i < |es| && es[i].Put? ==> es[i].packet != []
    decreases |bytes|
  {
    match NextUnit(bytes)
    case Incomplete => []
    case Skipped(rest) => Parse(rest)
    case Complete(body, rest) => [Dispatch(body)] + Parse(rest)
  }

  /** No body announces more than its buffer holds; the receiver itself never looks. */
  predicate LengthsFit(bytes: seq<byte>)
    decreases |bytes|
  {
    && (|bytes| >= 4 ==> Uint8tToInt(bytes[..4]) <= DATA_BUFFER)
    && match NextUnit(bytes)
       case Incomplete => true
       case Skipped(rest) => LengthsFit(rest)
       case Complete(_, rest) => LengthsFit(rest)
  }

  // ----- Properties of the message stream

  lemma NextUnitMonotone(a: seq<byte>, b: seq<byte>)
    ensures match NextUnit(a)
            case Incomplete => true
            case Skipped(rest) => NextUnit(a + b) == Skipped(rest + b)
            case Complete(body, rest) => NextUnit(a + b) == Complete(body, rest + b)
  {
    if |a| >= 4 {
      assert (a + b)[..4] == a[..4];
      var n: int := Uint8tToInt(a[..4]);
      var k := if n <= 0 then 4 else 4 + n;
      if k <= |a| {
        assert (a + b)[k..] == a[k..] + b;
        assert (a + b)[4..k] == a[4..k];
      }
    }
  }

  /** Bytes that arrive later never change the events already seen. */
  lemma {:induction false} ParseMonotone(a: seq<byte>, b: seq<byte>)
    ensures Parse(a) <= Parse(a + b)
    decreases |a|
  {
    NextUnitMonotone(a, b);
    match NextUnit(a)
    case Incomplete =>
    case Skipped(rest) => ParseMonotone(rest, b);
    case Complete(_, rest) => ParseMonotone(rest, b);
  }

  lemma NextUnitOfBlock(body: seq<byte>, rest: seq<byte>)
    requires 0 < |body| <= DATA_BUFFER
    ensures NextUnit(Block(body) + rest) == Complete(body, rest)
    ensures Uint8tToInt((Block(body) + rest)[..4]) == |body|
  {
    var bytes := Block(body) + rest;
    Uint8tToIntInverts(|body|);
    assert bytes[..4] == LittleEndian(|body|, 4);
    assert bytes[4..4 + |body|] == body;
    assert bytes[4 + |body|..] == rest;
  }

  /** What the sender means by a message. */
  function Intended(m: Message): Event {
    if m.Turn? then Orient(m.orientation) else Put(Body(m))
  }

  /** A payload whose first byte is 254 or 255 would be taken for a rotation. */
  predicate Distinguishable(m: Message) {
    m.Video? && m.payload != [] ==> m.payload[0] < 254
  }

  lemma DispatchBody(m: Message)
    ensures Dispatch(Body(m)) == Intended(m) <==> Distinguishable(m)
  {
    if m.Video? && m.payload != [] {
      assert Body(m)[0] == m.payload[0];
    }
  }

  function Meant(ms: seq<Message>): (es: seq<Event>)
    ensures |es| == |ms|
    ensures forall i :: 0 <= i < |ms| ==> es[i] == Intended(ms[i])
  {
    seq(|ms|, i requires 0 <= i < |ms| => Intended(ms[i]))
  }

  /** One event per message, in order, whatever the payloads. */
  lemma {:induction false} ParseWireAll(ms: seq<Message>)
    requires AllFit(ms)
    ensures |Parse(WireAll(ms))| == |ms|
    ensures forall i :: 0 <= i < |ms| ==> Parse(WireAll(ms))[i] == Dispatch(Body(ms[i]))
    ensures LengthsFit(WireAll(ms))
  {
    if ms != [] {
      ParseWireAll(ms[1..]);
      NextUnitOfBlock(Body(ms[0]), WireAll(ms[1..]));
      assert Parse(WireAll(ms)) == [Dispatch(Body(ms[0]))] + Parse(WireAll(ms[1..]));
    }
  }

  /** The stream reads back as it was meant if and only if no payload starts with 254 or 255. */
  lemma {:induction false} StreamRoundTrip(ms: seq<Message>)
    requires AllFit(ms)
    ensures Parse(WireAll(ms)) == Meant(ms) <==> forall i :: 0 <= i < |ms| ==> Distinguishable(ms[i])
  {
    ParseWireAll(ms);
    var es, want := Parse(WireAll(ms)), Meant(ms);
    forall i | 0 <= i < |ms|
      ensures es[i] == want[i] <==> Distinguishable(ms[i])
    {
      DispatchBody(ms[i]);
    }
  }

  /** A connection lost after any number of bytes yields a prefix of what was meant. */
  lemma {:induction false} TruncatedStream(ms: seq<Message>, k: nat)
    requires AllFit(ms) && k <= |WireAll(ms)|
    requires forall i :: 0 <= i < |ms| ==> Distinguishable(ms[i])
    ensures Parse(WireAll(ms)[..k]) <= Meant(ms)
  {
    var bytes := WireAll(ms);
    StreamRoundTrip(ms);
    ParseMonotone(bytes[..k], bytes[k..]);
    assert bytes[..k] + bytes[k..] == bytes;
  }

  // ----- The session as one function of the bytes that arrive

  /** The receiver's slots for one client after its connection has ended. */
  datatype Session = Session(
    clientInfo: seq<byte>,
    orientation: int,
    portrait: Option<seq<byte>>,
    landscape: Option<seq<byte>>,
    events: seq<Event>)

  /** A 4-byte length and that many bytes; a failed read has used up the stream. */
  function ReadBlock(bytes: seq<byte>): (r: (Option<seq<byte>>, seq<byte>)) {
    if |bytes| < 4 then (None, [])
    else
      var n := Uint8tToInt(bytes[..4]);
      if n <= 0 then (Some([]), bytes[4..])
      else if |bytes| < 4 + n then (None, [])
      else (Some(bytes[4..4 + n]), bytes[4 + n..])
  }

  function Received(bytes: seq<byte>): Session {
    var (info, bytes1) := ReadBlock(bytes);
    var clientInfo := if info.Some? then info.value else [];
    var orientation := ClientInfo.Parsed(clientInfo).orientation;
    var (first, bytes2) := ReadBlock(bytes1);
    var (second, bytes3) := ReadBlock(bytes2);
    Session(clientInfo, orientation,
            if orientation == 1 then first else second,
            if orientation == 1 then second else first,
            Parse(bytes3))
  }

  /** Every length fits the buffer it is read into: 1024 bytes with a final NUL for the greeting. */
  predicate SessionFits(bytes: seq<byte>) {
    var (_, bytes1) := ReadBlock(bytes);
    var (_, bytes2) := ReadBlock(bytes1);
    var (_, bytes3) := ReadBlock(bytes2);
    && (|bytes| >= 4 ==> Uint8tToInt(bytes[..4]) < 1024)
    && (|bytes1| >= 4 ==> 0 <= Uint8tToInt(bytes1[..4]) <= DATA_BUFFER)
    && (|bytes2| >= 4 ==> 0 <= Uint8tToInt(bytes2[..4]) <= DATA_BUFFER)
    && LengthsFit(bytes3)
  }

  lemma ReadBlockInverts(body: seq<byte>, rest: seq<byte>)
    requires |body| <= DATA_BUFFER
    ensures ReadBlock(Block(body) + rest) == (Some(body), rest)
    ensures Uint8tToInt((Block(body) + rest)[..4]) == |body|
  {
    var bytes := Block(body) + rest;
    Uint8tToIntInverts(|body|);
    assert bytes[..4] == LittleEndian(|body|, 4);
    assert bytes[4..4 + |body|] == body;
    assert bytes[4 + |body|..] == rest;
    if body == [] {
      assert bytes[4..] == rest;
    }
  }

  /** All bytes of a session as client_connect and startRecordScreen write them: the greeting, then
      the codec configuration of the current orientation before the other one, then messages. */
  function SessionBytes(greeting: seq<byte>, orientation: int,
                        portrait: seq<byte>, landscape: seq<byte>, ms: seq<Message>): seq<byte> {
    Block(greeting) +
    (Block(if orientation == 1 then portrait else landscape) +
     (Block(if orientation == 1 then landscape else portrait) + WireAll(ms)))
  }

  /** For every greeting, whatever the receiver takes for the orientation: frames and rotations come out as
      sent, and the configurations end in their own slots if and only if they are equal or the receiver
      takes the orientation for portrait exactly when the sender was in portrait. */
  lemma SessionSlots(greeting: seq<byte>, orientation: int, portrait: seq<byte>, landscape: seq<byte>, ms: seq<Message>)
    requires |greeting| < 1024 && |portrait| <= DATA_BUFFER && |landscape| <= DATA_BUFFER
    requires AllFit(ms) && forall i :: 0 <= i < |ms| ==> Distinguishable(ms[i])
    ensures var bytes := SessionBytes(greeting, orientation, portrait, landscape, ms);
            && SessionFits(bytes)
            && var s := Received(bytes);
               && s.clientInfo == greeting && s.events == Meant(ms)
               && s.orientation == ClientInfo.Parsed(greeting).orientation
               && (s.portrait == Some(portrait) && s.landscape == Some(landscape) <==>
                   portrait == landscape || (s.orientation == 1 <==> orientation == 1))
  {
    var first := if orientation == 1 then portrait else landscape;
    var second := if orientation == 1 then landscape else portrait;
    var bytes3 := WireAll(ms);
    var bytes2 := Block(second) + bytes3;
    ReadBlockInverts(greeting, Block(first) + bytes2);
    ReadBlockInverts(first, bytes2);
    ReadBlockInverts(second, bytes3);
    ParseWireAll(ms);
    StreamRoundTrip(ms);
  }

  /** Whichever configuration was sent first, each ends in its own slot, and every frame and every
      rotation comes out as it was sent, in order. The device name must be one '@'-free piece. */
  lemma SessionRoundTrip(name: seq<byte>, mime: seq<byte>, width: nat, height: nat, orientation: nat,
                         portrait: seq<byte>, landscape: seq<byte>, ms: seq<Message>)
    requires mime != [] && ClientInfo.AT !in mime && ClientInfo.NoNul(mime)
    requires |ClientInfo.Tokens(name)| == 1 && ClientInfo.NoNul(name)
    requires |ClientInfo.Greeting(name, mime, width, height, orientation)| < 1024
    requires |portrait| <= DATA_BUFFER && |landscape| <= DATA_BUFFER
    requires AllFit(ms) && forall i :: 0 <= i < |ms| ==> Distinguishable(ms[i])
    ensures var greeting := ClientInfo.Greeting(name, mime, width, height, orientation);
            var bytes := SessionBytes(greeting, orientation, portrait, landscape, ms);
            && SessionFits(bytes)
            && Received(bytes) == Session(greeting, orientation, Some(portrait), Some(landscape), Meant(ms))
            && ClientInfo.Parsed(greeting) == ClientInfo.Info(mime, width, height, orientation)
  {
    ClientInfo.GreetingRoundTrip(name, mime, width, height, orientation);
    SessionSlots(ClientInfo.Greeting(name, mime, width, height, orientation), orientation, portrait, landscape, ms);
  }

  // ----- What is lost, and what is skipped

  /** A body that is dispatched otherwise than meant turns the window, to portrait if it starts with 255 and
      to landscape if it starts with 254; every other frame is queued unchanged. */
  lemma DispatchOfFrame(m: Message)
    requires m.Video?
    ensures m.payload != [] && m.payload[0] == 255 ==> Dispatch(Body(m)) == Orient(Portrait)
    ensures m.payload != [] && m.payload[0] == 254 ==> Dispatch(Body(m)) == Orient(Landscape)
    ensures m.payload == [] || m.payload[0] < 254 ==> Dispatch(Body(m)) == Put(Body(m))
  {
    if m.payload != [] {
      assert Body(m)[0] == m.payload[0];
    }
  }

  /** A length that is not positive is skipped, and so the message after it is still seen. */
  lemma SkipsEmptyLength(n: int32, rest: seq<byte>)
    requires n <= 0
    ensures Parse(LittleEndian(n, 4) + rest) == Parse(rest)
  {
    var bytes := LittleEndian(n, 4) + rest;
    Uint8tToIntInverts(n);
    assert bytes[..4] == LittleEndian(n, 4) && bytes[4..] == rest;
  }

  /** A proper part of a message is no unit yet. */
  lemma PartIsIncomplete(body: seq<byte>, k: nat)
    requires 0 < |body| <= DATA_BUFFER && k < |Block(body)|
    ensures NextUnit(Block(body)[..k]) == Incomplete
  {
    var part := Block(body)[..k];
    if k >= 4 {
      Uint8tToIntInverts(|body|);
      assert part[..4] == LittleEndian(|body|, 4);
    }
  }

  lemma ParseFirst(m: Message, rest: seq<byte>)
    requires Fits(m) && Distinguishable(m)
    ensures Parse(Wire(m) + rest) == [Intended(m)] + Parse(rest)
  {
    NextUnitOfBlock(Body(m), rest);
    DispatchBody(m);
  }

  lemma Regroup(a: seq<byte>, b: seq<byte>, c: seq<byte>)
    ensures (a + b) + c == a + (b + c)
  {
  }

  lemma OneMoreMeant(ms: seq<Message>, part: seq<byte>)
    requires ms != [] && Fits(ms[0]) && Distinguishable(ms[0])
    requires Parse(WireAll(ms[1..]) + part) == Meant(ms[1..])
    ensures Parse(WireAll(ms) + part) == Meant(ms)
  {
    ParseFirst(ms[0], WireAll(ms[1..]) + part);
    Regroup(Wire(ms[0]), WireAll(ms[1..]), part);
    assert Meant(ms) == [Intended(ms[0])] + Meant(ms[1..]);
  }

  /** A connection lost inside a message: exactly the messages before it come out as meant. */
  lemma {:induction false} LostInsideMessage(ms: seq<Message>, m: Message, k: nat)
    requires AllFit(ms) && Fits(m) && k < |Wire(m)|
    requires forall i :: 0 <= i < |ms| ==> Distinguishable(ms[i])
    ensures Parse(WireAll(ms) + Wire(m)[..k]) == Meant(ms)
  {
    var part := Wire(m)[..k];
    if ms == [] {
      PartIsIncomplete(Body(m), k);
      assert [] + part == part;
    } else {
      LostInsideMessage(ms[1..], m, k);
      OneMoreMeant(ms, part);
    }
  }

  /** A block of which a part is missing gives nothing and uses up the stream. */
  lemma PartOfBlock(body: seq<byte>, k: nat)
    requires |body| <= DATA_BUFFER && k < |Block(body)|
    ensures ReadBlock(Block(body)[..k]) == (None, [])
  {
    var part := Block(body)[..k];
    if k >= 4 {
      Uint8tToIntInverts(|body|);
      assert part[..4] == LittleEndian(|body|, 4);
    }
  }

  /** A connection lost during the handshake: inside the greeting, there is none and the orientation is
      taken for portrait; inside a configuration, that one and what would follow are missing, and what
      was complete before is kept. */
  lemma LostInHandshake(greeting: seq<byte>, first: seq<byte>, second: seq<byte>, k: nat)
    requires |greeting| < 1024 && |first| <= DATA_BUFFER && |second| <= DATA_BUFFER
    ensures var portrait := ClientInfo.Parsed(greeting).orientation == 1;
            && (k < |Block(greeting)| ==> Received(Block(greeting)[..k]) == Session([], 1, None, None, []))
            && (k < |Block(first)| ==>
                  Received(Block(greeting) + Block(first)[..k]) ==
                    Session(greeting, ClientInfo.Parsed(greeting).orientation, None, None, []))
            && (k < |Block(second)| ==>
                  Received(Block(greeting) + (Block(first) + Block(second)[..k])) ==
                    Session(greeting, ClientInfo.Parsed(greeting).orientation,
                            if portrait then Some(first) else None, if portrait then None else Some(first), []))
  {
    assert ReadBlock([]) == (None, []) && Parse([]) == [];
    if k < |Block(greeting)| {
      PartOfBlock(greeting, k);
    }
    if k < |Block(first)| {
      PartOfBlock(first, k);
      ReadBlockInverts(greeting, Block(first)[..k]);
    }
    if k < |Block(second)| {
      PartOfBlock(second, k);
      ReadBlockInverts(first, Block(second)[..k]);
      ReadBlockInverts(greeting, Block(first) + Block(second)[..k]);
    }
  }

  // ----- The code that reads

  lemma Slices(b: seq<byte>, i: nat, n: nat)
    requires i + n <= |b|
    ensures b[i..][..n] == b[i..i + n] && b[i..][n..] == b[i + n..]
  {
  }

  lemma AppendStep(done: seq<Event>, e: Event, rest: seq<Event>)
    ensures done + ([e] + rest) == (done + [e]) + rest
  {
  }

  /** A connected socket: `incoming` is everything that will still arrive before it fails. */
  class Socket {
    var incoming: seq<byte>

    constructor (bytes: seq<byte>)
      ensures incoming == bytes
    {
      incoming := bytes;
    }

    /** read(2): at least one byte and at most `want` while any is left, else 0. */
    method Read(want: nat, buffer: array<byte>) returns (n: nat)
      requires 0 < want <= buffer.Length
      modifies this, buffer
      ensures n <= want && n <= |old(incoming)| && (n == 0 <==> old(incoming) == [])
      ensures buffer[..n] == old(incoming)[..n] && incoming == old(incoming)[n..]
    {
      if incoming == [] {
        n := 0;
      } else {
        n :| 1 <= n <= want && n <= |incoming|;
        forall i | 0 <= i < n {
          buffer[i] := incoming[i];
        }
        incoming := incoming[n..];
      }
    }
  }

  lemma NextBytes(all: seq<byte>, total: nat, n: nat)
    requires total + n <= |all|
    ensures all[..total] + all[total..][..n] == all[..total + n]
    ensures all[total..][n..] == all[total + n..]
  {
  }

  /** Collects `want` bytes from reads of any size; a non-positive `want` succeeds at once. */
  method ReadData(sock: Socket, want: int, readBuffer: array<byte>, dataBuffer: array<byte>)
    returns (ok: bool)
    requires readBuffer != dataBuffer
    requires want <= readBuffer.Length && want <= dataBuffer.Length
    modifies sock, readBuffer, dataBuffer
    ensures ok == (want <= |old(sock.incoming)|)
    ensures ok ==> var n := if want < 0 then 0 else want;
                   sock.incoming == old(sock.incoming)[n..] && dataBuffer[..n] == old(sock.incoming)[..n]
    ensures !ok ==> sock.incoming == []
  {
    var total := 0;
    while total < want
      invariant 0 <= total <= |old(sock.incoming)| && (total <= want || total == 0)
      invariant sock.incoming == old(sock.incoming)[total..]
      invariant total <= dataBuffer.Length && dataBuffer[..total] == old(sock.incoming)[..total]
    {
      ghost var left, before := sock.incoming, dataBuffer[..total];
      var n := sock.Read(want - total, readBuffer);
      if n > 0 {
        assert readBuffer[..n] == left[..n] && dataBuffer[..total] == before;
        forall i | 0 <= i < n {
          dataBuffer[total + i] := readBuffer[i];
        }
        assert dataBuffer[..total] == before && dataBuffer[total..total + n] == left[..n];
        assert dataBuffer[..total + n] == before + left[..n];
        NextBytes(old(sock.incoming), total, n);
        total := total + n;
      } else {
        return false;
      }
    }
    ok := true;
  }

  /** A length, then that many bytes; `ok` tells whether both reads succeeded. */
  method ReadConfig(sock: Socket, readBuffer: array<byte>, dataBuffer: array<byte>)
    returns (config: Option<seq<byte>>)
    requires readBuffer != dataBuffer
    requires readBuffer.Length == dataBuffer.Length == DATA_BUFFER
    requires |sock.incoming| >= 4 ==> 0 <= Uint8tToInt(sock.incoming[..4]) <= DATA_BUFFER
    modifies sock, readBuffer, dataBuffer
    ensures (config, sock.incoming) == ReadBlock(old(sock.incoming))
  {
    config := None;
    ghost var bytes := sock.incoming;
    var ok := ReadData(sock, 4, readBuffer, dataBuffer);
    if ok {
      var want: int := Uint8tToInt(dataBuffer[..4]);
      ok := ReadData(sock, want, readBuffer, dataBuffer);
      if ok {
        Slices(bytes, 4, want);
        config := Some(dataBuffer[..want]);
      }
    }
  }

  /** The message loop: length, body, dispatch; a non-positive length is skipped. */
  method ReceiveMessages(sock: Socket, readBuffer: array<byte>, dataBuffer: array<byte>)
    returns (events: seq<Event>)
    requires readBuffer != dataBuffer
    requires readBuffer.Length == dataBuffer.Length == DATA_BUFFER
    requires LengthsFit(sock.incoming)
    modifies sock, readBuffer, dataBuffer
    ensures events == Parse(old(sock.incoming))
  {
    events := [];
    ghost var all := Parse(sock.incoming);
    while true
      invariant LengthsFit(sock.incoming)
      invariant events + Parse(sock.incoming) == all
      decreases |sock.incoming|
    {
      ghost var bytes := sock.incoming;
      var ok := ReadData(sock, 4, readBuffer, dataBuffer);
      if ok {
        var want: int := Uint8tToInt(dataBuffer[..4]);
        if want <= 0 {
          continue;
        }
        ok := ReadData(sock, want, readBuffer, dataBuffer);
        if ok {
          Slices(bytes, 4, want);
          var body := dataBuffer[..want];
          assert NextUnit(bytes) == Complete(body, sock.incoming);
          AppendStep(events, Dispatch(body), Parse(sock.incoming));
          if body[0] == 255 {
            events := events + [Orient(Portrait)];
            continue;
          } else if body[0] == 254 {
            events := events + [Orient(Landscape)];
            continue;
          }
          events := events + [Put(body)];
          continue;
        } else {
          break;
        }
      } else {
        break;
      }
    }
  }

  /** The greeting, empty when it does not arrive, and the initial orientation it gives. */
  method ReadGreeting(sock: Socket, readBuffer: array<byte>, dataBuffer: array<byte>)
    returns (clientInfo: seq<byte>, orientation: int)
    requires readBuffer != dataBuffer
    requires readBuffer.Length == dataBuffer.Length == DATA_BUFFER
    requires |sock.incoming| >= 4 ==> Uint8tToInt(sock.incoming[..4]) < 1024
    modifies sock, readBuffer, dataBuffer
    ensures var r := ReadBlock(old(sock.incoming));
            clientInfo == (if r.0.Some? then r.0.value else []) && sock.incoming == r.1
    ensures orientation == ClientInfo.Parsed(clientInfo).orientation
  {
    clientInfo, orientation := [], 1;
    ghost var bytes := sock.incoming;
    var ok := ReadData(sock, 4, readBuffer, dataBuffer);
    if ok {
      var want: int := Uint8tToInt(dataBuffer[..4]);
      if want > 0 {
        ok := ReadData(sock, want, readBuffer, dataBuffer);
        if ok {
          Slices(bytes, 4, want);
          clientInfo := dataBuffer[..want];
          var parsed := ClientInfo.ParseClientInfo(clientInfo);
          orientation := parsed.orientation;
        }
      }
    }
  }

  /** The receive thread of one client, from the greeting to the end of the connection. */
  method ReceiveData(sock: Socket) returns (s: Session)
    requires SessionFits(sock.incoming)
    modifies sock
    ensures s == Received(old(sock.incoming))
  {
    var readBuffer := new byte[DATA_BUFFER];
    var dataBuffer := new byte[DATA_BUFFER];
    var clientInfo, orientation := ReadGreeting(sock, readBuffer, dataBuffer);

    var portrait, landscape := None, None;
    var first := ReadConfig(sock, readBuffer, dataBuffer);
    if orientation == 1 { portrait := first; } else { landscape := first; }
    var second := ReadConfig(sock, readBuffer, dataBuffer);
    if orientation == 1 { landscape := second; } else { portrait := second; }

    var events := ReceiveMessages(sock, readBuffer, dataBuffer);
    s := Session(clientInfo, orientation, portrait, landscape, events);
  }
}

/** The whole pipeline as steps of its threads: the encoder, rotations, the network, the receive
    thread, the queue and the decoder loop. The handshake is over; `start` is the orientation the
    codec was configured for and `configs` what the handshake stored. */
module MirrorSession {
  import opened Bytes
  import opened Wrappers
  import opened Protocol
  import opened MediaData
  import MC = MediaCodec
  import MS = MediaServer
  import QH = QueueHistory

  /** One output buffer of an encoder. */
  datatype Output = Output(payload: seq<byte>, flags: uint32)

  /** A message that was written, with the number of the encoder output it carries. */
  datatype Sent = Sent(msg: Message, index: nat)

  /** The decoder thread before it exists, before its first statement, and in its loop; `at` is the
      position of the held frame among those put. */
  datatype Consumer = NotStarted | Created | Idle | Waiting | Holding(packet: Packet, at: nat) | Finished

  /** The casting device: its flags, everything each encoder has put out, and what was written. Of the
      key-frames-only switch, it keeps how many outputs there were when it was turned on last, and
      whether it was only ever turned off when that was safe. */
  datatype Source = Source(
    onlyKeys: bool, sender: MC.Sender, outputs1: seq<Output>, outputs2: seq<Output>, sent: seq<Sent>,
    mark1: nat, mark2: nat, tame: bool)
  {
    function Outputs(o: Orientation): seq<Output> { if o.Portrait? then outputs1 else outputs2 }

    function Mark(o: Orientation): nat { if o.Portrait? then mark1 else mark2 }

    /** The encoder's last output is a key frame, or there was none since the switch was turned on. */
    predicate KeyLast(o: Orientation) {
      var n := |Outputs(o)|;
      n > 0 && (Outputs(o)[n - 1].flags % 2 == 1 || n == Mark(o))
    }

    /** Turning the switch is safe when it turns it on, or no open gate would let an output through
        whose predecessor was dropped. */
    predicate MaySwitch() {
      onlyKeys && sender.recording ==>
        (sender.Open(Portrait) ==> KeyLast(Portrait)) && (sender.Open(Landscape) ==> KeyLast(Landscape))
    }

    function Switched(): Source {
      var s := this.(onlyKeys := !onlyKeys, tame := tame && MaySwitch());
      if onlyKeys then s else s.(mark1 := |outputs1|, mark2 := |outputs2|)
    }

    function AddOutput(o: Orientation, x: Output): (s: Source)
      ensures s.Outputs(o) == Outputs(o) + [x]
      ensures forall p :: p != o ==> s.Outputs(p) == Outputs(p)
      ensures s.onlyKeys == onlyKeys && s.sender == sender && s.sent == sent
      ensures s.mark1 == mark1 && s.mark2 == mark2 && s.tame == tame
    {
      if o.Portrait? then this.(outputs1 := outputs1 + [x]) else this.(outputs2 := outputs2 + [x])
    }
  }

  /** Bytes written but not yet read, and bytes read. */
  datatype Network = Network(wire: seq<byte>, consumed: seq<byte>)

  /** The receive thread: how many messages it has acted on, and isCurPortrait, which it sets. */
  datatype Receiver = Receiver(dispatched: nat, active: bool, cur: Orientation)

  /** The decoder thread; `start` is the orientation its codec was configured for, `begun` the one the
      window had when the thread started, `shown` the history of the positions, among the frames put, of
      the pictures fed. */
  datatype Decoder = Decoder(
    start: Orientation, configs: Configs, begun: Orientation, pre: Orientation, phase: Consumer,
    fed: seq<Input>, shown: seq<nat>)

  datatype State = State(
    src: Source, net: Network, rcv: Receiver, playing: bool, queue: QH.Queue, dec: Decoder)

  function Initial(onlyKeys: bool, start: Orientation, configs: Configs): State {
    State(Source(onlyKeys, MC.Sender(true, false, false), [], [], [], 0, 0, true), Network([], []),
          Receiver(0, true, start), false, QH.EMPTY, Decoder(start, configs, start, start, NotStarted, [], []))
  }

  /** Reads may have any size; the encoder of either orientation may put out a buffer at any time,
      so a straggler after a rotation is included. `Surface` is the surface that the codec waits for,
      upon which the decoder thread is created; `Begin` is its first statement. */
  datatype Action =
    | Encode(payload: seq<byte>, flags: uint32, o: Orientation, writeOk: bool)
    | Rotate(to: Orientation, ok: bool)
    | Switch
    | StopRecording
    | Read(n: nat)
    | Dispatch
    | Disconnect
    | Surface
    | Begin
    | GetData
    | Wake
    | Leave
    | Decode(ret: bool)

  predicate Enabled(s: State, a: Action) {
    match a
    case Encode(payload, flags, o, _) =>
      var m := Video(payload, o, flags % 256);
      Fits(m) && MS.Distinguishable(m)
    case Rotate(_, _) => true
    case Switch => true
    case StopRecording => true
    case Read(n) => s.rcv.active && 1 <= n <= |s.net.wire|
    case Dispatch => s.rcv.active && s.rcv.dispatched < |MS.Parse(s.net.consumed)|
    case Disconnect => s.rcv.active
    case Surface => s.dec.phase == NotStarted
    case Begin => s.dec.phase == Created
    case GetData => s.dec.phase == Idle && s.playing
    case Wake => s.dec.phase == Waiting && s.playing && s.queue.list != []
    case Leave => (s.dec.phase == Idle || s.dec.phase == Waiting) && !s.playing
    case Decode(_) => s.dec.phase.Holding? && |s.dec.phase.packet| >= 2
  }

  function Transmit(src: Source, net: Network, r: (MC.Sender, Option<Message>), index: nat): (Source, Network) {
    if r.1.Some? then
      (src.(sender := r.0, sent := src.sent + [Sent(r.1.value, index)]), net.(wire := net.wire + Wire(r.1.value)))
    else (src.(sender := r.0), net)
  }

  function OnEncode(src: Source, net: Network, payload: seq<byte>, flags: uint32, o: Orientation, writeOk: bool)
    : (Source, Network)
  {
    Transmit(src.AddOutput(o, Output(payload, flags)), net,
             MC.Encode(src.sender, src.onlyKeys, payload, flags, o, writeOk), |src.Outputs(o)|)
  }

  function OnRotate(src: Source, net: Network, to: Orientation, ok: bool): (Source, Network) {
    Transmit(src, net, MC.Rotate(src.sender, to, ok), 0)
  }

  function OnDispatch(rcv: Receiver, queue: QH.Queue, e: MS.Event): (Receiver, QH.Queue)
    requires e.Put? ==> e.packet != []
  {
    match e
    case Put(packet) => (rcv.(dispatched := rcv.dispatched + 1), QH.Put(queue, packet))
    case Orient(o) => (rcv.(dispatched := rcv.dispatched + 1, cur := o), queue)
  }

  /** getData up to its wait. */
  function OnGetData(queue: QH.Queue): (QH.Queue, Consumer) {
    if queue.list == [] || QH.Gone(queue) < 0 then (queue, Waiting)
    else (QH.Take(queue), Holding(Drained(queue.list)[0], QH.Gone(queue) + Lag(queue.list)))
  }

  /** getData after a put has woken it. */
  function OnWake(queue: QH.Queue): (QH.Queue, Consumer)
    requires queue.list != []
  {
    if QH.Gone(queue) < 0 then (queue, Waiting)
    else (QH.TakeWoken(queue), Holding(queue.list[0], QH.Gone(queue)))
  }

  function OnDecode(dec: Decoder, cur: Orientation, ret: bool): Decoder
    requires dec.phase.Holding? && |dec.phase.packet| >= 2
  {
    var more := Feeds(dec.pre, cur, dec.configs, dec.phase.packet);
    if more == [] then dec.(phase := Idle)
    else
      dec.(fed := dec.fed + more, shown := dec.shown + [dec.phase.at], pre := cur,
           phase := if ret then Idle else Finished)
  }

  function Next(s: State, a: Action): State
    requires Enabled(s, a)
  {
    match a
    case Encode(payload, flags, o, writeOk) =>
      var (src, net) := OnEncode(s.src, s.net, payload, flags, o, writeOk);
      s.(src := src, net := net)
    case Rotate(to, ok) =>
      var (src, net) := OnRotate(s.src, s.net, to, ok);
      s.(src := src, net := net)
    case Switch => s.(src := s.src.Switched())
    case StopRecording => s.(src := s.src.(sender := s.src.sender.(recording := false)))
    case Read(n) => s.(net := Network(s.net.wire[n..], s.net.consumed + s.net.wire[..n]))
    case Dispatch =>
      var (rcv, queue) := OnDispatch(s.rcv, s.queue, MS.Parse(s.net.consumed)[s.rcv.dispatched]);
      s.(rcv := rcv, queue := queue)
    case Disconnect => s.(rcv := s.rcv.(active := false), playing := false)
    case Surface => s.(playing := true, dec := s.dec.(phase := Created))
    case Begin => s.(dec := s.dec.(begun := s.rcv.cur, pre := s.rcv.cur, phase := Idle))
    case GetData =>
      var (queue, phase) := OnGetData(s.queue);
      s.(queue := queue, dec := s.dec.(phase := phase))
    case Wake =>
      var (queue, phase) := OnWake(s.queue);
      s.(queue := queue, dec := s.dec.(phase := phase))
    case Leave => s.(dec := s.dec.(phase := Finished))
    case Decode(ret) => s.(dec := OnDecode(s.dec, s.rcv.cur, ret))
  }

  ghost predicate Reaches(s: State, actions: seq<Action>, t: State)
    decreases |actions|
  {
    if actions == [] then s == t
    else Enabled(s, actions[0]) && Reaches(Next(s, actions[0]), actions[1..], t)
  }

  // ----- What was sent

  function Messages(sent: seq<Sent>): (ms: seq<Message>)
    ensures |ms| == |sent| && forall i :: 0 <= i < |sent| ==> ms[i] == sent[i].msg
  {
    seq(|sent|, i requires 0 <= i < |sent| => sent[i].msg)
  }

  function Videos(sent: seq<Sent>): (vs: seq<Sent>)
    ensures |vs| <= |sent| && forall i :: 0 <= i < |vs| ==> vs[i].msg.Video?
  {
    if sent == [] then []
    else
      var x := sent[|sent| - 1];
      Videos(sent[..|sent| - 1]) + (if x.msg.Video? then [x] else [])
  }

  function Packets(vs: seq<Sent>): (ps: seq<Packet>)
    ensures |ps| == |vs| && forall i :: 0 <= i < |vs| ==> ps[i] == Body(vs[i].msg)
  {
    seq(|vs|, i requires 0 <= i < |vs| => Body(vs[i].msg))
  }

  /** The orientation after the rotations among `sent`. */
  function Facing(start: Orientation, sent: seq<Sent>): Orientation {
    if sent == [] then start
    else
      var x := sent[|sent| - 1];
      if x.msg.Turn? then x.msg.orientation else Facing(start, sent[..|sent| - 1])
  }

  /** The encoder number of the last frame of orientation `o`. */
  function LastIndex(vs: seq<Sent>, o: Orientation): Option<nat> {
    if vs == [] then None
    else
      var x := vs[|vs| - 1];
      if x.msg.orientation == o then Some(x.index) else LastIndex(vs[..|vs| - 1], o)
  }

  lemma VideosAppend(sent: seq<Sent>, x: Sent)
    ensures Videos(sent + [x]) == Videos(sent) + (if x.msg.Video? then [x] else [])
    ensures Messages(sent + [x]) == Messages(sent) + [x.msg]
  {
    assert (sent + [x])[..|sent|] == sent;
  }

  lemma {:induction false} VideosOfPrefix(sent: seq<Sent>, k: nat)
    requires k <= |sent|
    ensures Videos(sent[..k]) <= Videos(sent)
  {
    if k < |sent| {
      var rest := sent[..|sent| - 1];
      VideosOfPrefix(rest, k);
      assert rest[..k] == sent[..k];
    } else {
      assert sent[..k] == sent;
    }
  }

  // ----- The invariant, thread by thread

  /** Frame i carries its encoder's output of that number and, unless it is a key frame, follows another
      one of its orientation, which carried the output just before if the switch was used safely. */
  ghost predicate Chained(src: Source, vs: seq<Sent>, i: nat)
    requires i < |vs| && vs[i].msg.Video?
  {
    var Sent(m, index) := vs[i];
    && index < |src.Outputs(m.orientation)|
    && m.payload == src.Outputs(m.orientation)[index].payload
    && m.flags == src.Outputs(m.orientation)[index].flags % 256
    && (IsKey(Body(m)) || FollowsLast(src, LastIndex(vs[..i], m.orientation), index))
  }

  predicate FollowsLast(src: Source, last: Option<nat>, index: nat) {
    last.Some? && (src.tame ==> last.value + 1 == index)
  }

  ghost predicate AllChained(src: Source, vs: seq<Sent>) {
    forall i :: 0 <= i < |vs| ==> vs[i].msg.Video? && Chained(src, vs, i)
  }

  /** The last frame sent of the orientation carries its encoder's latest output. */
  ghost predicate UpToDate(src: Source, o: Orientation) {
    src.Outputs(o) != [] && LastIndex(Videos(src.sent), o) == Some(|src.Outputs(o)| - 1)
  }

  /** While a gate is open, a frame of the orientation was sent; its last frame carries the latest output,
      or with the switch on does exactly if that output is a key frame or older than the switch. */
  ghost predicate GateOk(src: Source, o: Orientation) {
    && src.Mark(o) <= |src.Outputs(o)|
    && (src.sender.recording && src.sender.Open(o) ==>
          && LastIndex(Videos(src.sent), o).Some?
          && (src.tame ==> if src.onlyKeys then UpToDate(src, o) <==> src.KeyLast(o) else UpToDate(src, o)))
  }

  /** The frames of an orientation carry its encoder's outputs in order. */
  ghost predicate Growing(vs: seq<Sent>) {
    forall i, j :: 0 <= i < j < |vs| && vs[i].msg.orientation == vs[j].msg.orientation ==> vs[i].index < vs[j].index
  }

  ghost predicate SourceOk(src: Source) {
    AllChained(src, Videos(src.sent)) && Growing(Videos(src.sent)) && forall o :: GateOk(src, o)
  }

  /** Nothing is lost or reordered between the two ends. */
  ghost predicate WireOk(sent: seq<Sent>, net: Network) {
    && net.consumed + net.wire == WireAll(Messages(sent))
    && AllFit(Messages(sent))
    && (forall i :: 0 <= i < |sent| ==> MS.Distinguishable(sent[i].msg))
  }

  /** The queue was given exactly the frames of the messages acted on, and the last rotation among
      them set the window's orientation. */
  ghost predicate ReceiverOk(start: Orientation, sent: seq<Sent>, rcv: Receiver, puts: seq<Packet>) {
    && rcv.dispatched <= |sent|
    && puts == Packets(Videos(sent[..rcv.dispatched]))
    && rcv.cur == Facing(start, sent[..rcv.dispatched])
  }

  /** The discipline is kept from the orientation at the thread's start on. */
  ghost predicate DecoderOk(dec: Decoder) {
    && Disciplined(dec.begun, dec.configs, dec.fed) && Configured(dec.begun, dec.fed) == dec.pre
    && (dec.phase.NotStarted? || dec.phase.Created? ==> dec.fed == [])
  }

  /** The decoder holds the frame handed out last, and it has a tag and flags. */
  ghost predicate HoldingOk(phase: Consumer, queue: QH.Queue) {
    phase.Holding? ==>
      && |phase.packet| >= 2 && queue.handed != []
      && phase.at == queue.handed[|queue.handed| - 1]
      && phase.at < |queue.puts| && phase.packet == queue.puts[phase.at]
  }

  ghost predicate Inv(s: State) {
    && SourceOk(s.src)
    && WireOk(s.src.sent, s.net)
    && ReceiverOk(s.dec.start, s.src.sent, s.rcv, s.queue.puts)
    && QH.Safe(s.queue)
    && HoldingOk(s.dec.phase, s.queue)
    && DecoderOk(s.dec)
  }

  // ----- Each step keeps it

  lemma AppendToStream(done: seq<byte>, wire: seq<byte>, w: seq<byte>, all: seq<byte>)
    requires done + wire == all
    ensures done + (wire + w) == all + w
  {
  }

  lemma AppendKeepsWire(sent: seq<Sent>, net: Network, x: Sent)
    requires WireOk(sent, net) && Fits(x.msg) && MS.Distinguishable(x.msg)
    ensures WireOk(sent + [x], net.(wire := net.wire + Wire(x.msg)))
  {
    VideosAppend(sent, x);
    WireAllAppend(Messages(sent), x.msg);
    AppendToStream(net.consumed, net.wire, Wire(x.msg), WireAll(Messages(sent)));
  }

  lemma TransmitKeepsWire(src: Source, net: Network, r: (MC.Sender, Option<Message>), index: nat)
    requires WireOk(src.sent, net)
    requires r.1.Some? ==> Fits(r.1.value) && MS.Distinguishable(r.1.value)
    ensures var (src', net') := Transmit(src, net, r, index);
            WireOk(src'.sent, net')
  {
    if r.1.Some? {
      AppendKeepsWire(src.sent, net, Sent(r.1.value, index));
    }
  }

  lemma TransmitKeepsReceiver(start: Orientation, src: Source, net: Network, r: (MC.Sender, Option<Message>),
                              index: nat, rcv: Receiver, puts: seq<Packet>)
    requires ReceiverOk(start, src.sent, rcv, puts)
    ensures ReceiverOk(start, Transmit(src, net, r, index).0.sent, rcv, puts)
  {
    var sent' := Transmit(src, net, r, index).0.sent;
    assert sent'[..rcv.dispatched] == src.sent[..rcv.dispatched];
  }

  /** Appending outputs and frames leaves the frames before them chained as they were. */
  lemma ChainedAppend(src: Source, src': Source, vs: seq<Sent>, more: seq<Sent>)
    requires AllChained(src, vs) && (src'.tame ==> src.tame)
    requires forall o :: src.Outputs(o) <= src'.Outputs(o)
    ensures forall i :: 0 <= i < |vs| ==> (vs + more)[i].msg.Video? && Chained(src', vs + more, i)
  {
    forall i | 0 <= i < |vs|
      ensures (vs + more)[i].msg.Video? && Chained(src', vs + more, i)
    {
      assert Chained(src, vs, i);
      assert (vs + more)[..i] == vs[..i];
      assert src.Outputs(vs[i].msg.orientation) <= src'.Outputs(vs[i].msg.orientation);
    }
  }

  lemma LastIndexAppend(vs: seq<Sent>, x: Sent, o: Orientation)
    requires x.msg.Video? && forall i :: 0 <= i < |vs| ==> vs[i].msg.Video?
    ensures LastIndex(vs + [x], o) == if x.msg.orientation == o then Some(x.index) else LastIndex(vs, o)
  {
    assert (vs + [x])[..|vs|] == vs;
  }

  lemma EncodeKeepsSource(src: Source, net: Network, payload: seq<byte>, flags: uint32, o: Orientation, writeOk: bool)
    requires SourceOk(src)
    ensures SourceOk(OnEncode(src, net, payload, flags, o, writeOk).0)
  {
    var src' := OnEncode(src, net, payload, flags, o, writeOk).0;
    var r := MC.Encode(src.sender, src.onlyKeys, payload, flags, o, writeOk);
    MC.GateOpensOnKey(src.sender, src.onlyKeys, payload, flags, o, writeOk);
    if r.1.Some? {
      var x := Sent(r.1.value, |src.Outputs(o)|);
      EncodedIsChained(src, src', payload, flags, o, writeOk);
      AppendKeepsSource(src, src', x);
    } else {
      UnsentKeepsSource(src, src');
    }
  }

  lemma GrowingAppend(src: Source, vs: seq<Sent>, x: Sent)
    requires AllChained(src, vs) && Growing(vs) && x.index == |src.Outputs(x.msg.orientation)|
    ensures Growing(vs + [x])
  {
    forall i | 0 <= i < |vs| && vs[i].msg.orientation == x.msg.orientation
      ensures vs[i].index < x.index
    {
      assert Chained(src, vs, i);
    }
  }

  predicate SameSwitch(src: Source, src': Source) {
    src'.onlyKeys == src.onlyKeys && src'.mark1 == src.mark1 && src'.mark2 == src.mark2 && src'.tame == src.tame
  }

  lemma AppendOpensGate(src: Source, src': Source, x: Sent)
    requires AllChained(src, Videos(src.sent)) && SameSwitch(src, src') && src'.sent == src.sent + [x] && x.msg.Video?
    requires var o := x.msg.orientation;
             && |src'.Outputs(o)| == x.index + 1 && src'.Mark(o) <= x.index
             && (src.onlyKeys ==> src'.Outputs(o)[x.index].flags % 2 == 1)
    ensures GateOk(src', x.msg.orientation)
  {
    VideosAppend(src.sent, x);
    LastIndexAppend(Videos(src.sent), x, x.msg.orientation);
  }

  lemma AppendKeepsGate(src: Source, src': Source, x: Sent, p: Orientation)
    requires AllChained(src, Videos(src.sent)) && GateOk(src, p) && SameSwitch(src, src')
    requires src'.sent == src.sent + [x] && x.msg.Video? && src.sender.recording
    requires p != x.msg.orientation
    requires src'.Outputs(p) == src.Outputs(p) && src'.sender.Open(p) == src.sender.Open(p)
    ensures GateOk(src', p)
  {
    VideosAppend(src.sent, x);
    LastIndexAppend(Videos(src.sent), x, p);
    assert src'.Mark(p) == src.Mark(p);
  }

  lemma AppendKeepsSource(src: Source, src': Source, x: Sent)
    requires SourceOk(src) && SameSwitch(src, src')
    requires src'.sent == src.sent + [x] && x.msg.Video? && src.sender.recording
    requires var o := x.msg.orientation;
             && |src.Outputs(o)| == x.index && |src'.Outputs(o)| == x.index + 1 && src.Outputs(o) <= src'.Outputs(o)
             && (src.onlyKeys ==> src'.Outputs(o)[x.index].flags % 2 == 1)
             && forall p :: p != o ==> src'.Outputs(p) == src.Outputs(p) && src'.sender.Open(p) == src.sender.Open(p)
    requires Chained(src', Videos(src.sent) + [x], |Videos(src.sent)|)
    ensures SourceOk(src')
  {
    var vs := Videos(src.sent);
    VideosAppend(src.sent, x);
    ChainedAppend(src, src', vs, [x]);
    GrowingAppend(src, vs, x);
    forall p
      ensures GateOk(src', p)
    {
      assert GateOk(src, p);
      if p == x.msg.orientation {
        AppendOpensGate(src, src', x);
      } else {
        AppendKeepsGate(src, src', x, p);
      }
    }
  }

  lemma VideoIsKey(payload: seq<byte>, o: Orientation, flags: uint32)
    ensures IsKey(Body(Video(payload, o, flags % 256))) <==> flags % 2 == 1
  {
    var body := Body(Video(payload, o, flags % 256));
    assert body[|body| - 1] == flags % 256;
  }

  /** The new frame continues its orientation's chain or starts one. */
  lemma EncodedIsChained(src: Source, src': Source, payload: seq<byte>, flags: uint32, o: Orientation, writeOk: bool)
    requires SourceOk(src) && SameSwitch(src, src')
    requires src'.Outputs(o) == src.Outputs(o) + [Output(payload, flags)]
    requires MC.Encode(src.sender, src.onlyKeys, payload, flags, o, writeOk).1.Some?
    ensures var x := Sent(Video(payload, o, flags % 256), |src.Outputs(o)|);
            MC.Encode(src.sender, src.onlyKeys, payload, flags, o, writeOk).1.value == x.msg
            && Chained(src', Videos(src.sent) + [x], |Videos(src.sent)|)
  {
    var vs := Videos(src.sent);
    var x := Sent(Video(payload, o, flags % 256), |src.Outputs(o)|);
    assert (vs + [x])[..|vs|] == vs;
    VideoIsKey(payload, o, flags);
    assert GateOk(src, o);
  }

  lemma {:induction false} LastIndexChained(src: Source, vs: seq<Sent>, o: Orientation)
    requires AllChained(src, vs) && LastIndex(vs, o).Some?
    ensures LastIndex(vs, o).value < |src.Outputs(o)|
    decreases |vs|
  {
    var n := |vs| - 1;
    assert Chained(src, vs, n);
    if vs[n].msg.orientation != o {
      PrefixChained(src, vs, n);
      LastIndexChained(src, vs[..n], o);
    }
  }

  lemma PrefixChained(src: Source, vs: seq<Sent>, n: nat)
    requires AllChained(src, vs) && n <= |vs|
    ensures AllChained(src, vs[..n])
  {
    forall i | 0 <= i < n
      ensures vs[..n][i].msg.Video? && Chained(src, vs[..n], i)
    {
      assert Chained(src, vs, i);
      assert vs[..n][..i] == vs[..i];
    }
  }

  /** Nothing is sent: no gate opens, and an open one that misses an output does so by the switch. */
  lemma UnsentKeepsGate(src: Source, src': Source, o: Orientation)
    requires AllChained(src, Videos(src.sent)) && GateOk(src, o) && SameSwitch(src, src')
    requires Videos(src'.sent) == Videos(src.sent) && src.Outputs(o) <= src'.Outputs(o)
    requires src'.sender.recording && src'.sender.Open(o) ==>
               && src.sender.recording && src.sender.Open(o)
               && (|| src'.Outputs(o) == src.Outputs(o)
                   || (&& src.onlyKeys && |src'.Outputs(o)| == |src.Outputs(o)| + 1
                       && src'.Outputs(o)[|src.Outputs(o)|].flags % 2 == 0))
    ensures GateOk(src', o)
  {
    assert src'.Mark(o) == src.Mark(o);
    if src'.sender.recording && src'.sender.Open(o) {
      LastIndexChained(src, Videos(src.sent), o);
    }
  }

  lemma UnsentKeepsSource(src: Source, src': Source)
    requires SourceOk(src) && SameSwitch(src, src') && Videos(src'.sent) == Videos(src.sent)
    requires forall o :: src.Outputs(o) <= src'.Outputs(o)
    requires forall o :: src'.sender.recording && src'.sender.Open(o) ==>
               && src.sender.recording && src.sender.Open(o)
               && (|| src'.Outputs(o) == src.Outputs(o)
                   || (&& src.onlyKeys && |src'.Outputs(o)| == |src.Outputs(o)| + 1
                       && src'.Outputs(o)[|src.Outputs(o)|].flags % 2 == 0))
    ensures SourceOk(src')
  {
    ChainedAppend(src, src', Videos(src.sent), []);
    assert Videos(src.sent) + [] == Videos(src.sent);
    forall o
      ensures GateOk(src', o)
    {
      assert GateOk(src, o);
      UnsentKeepsGate(src, src', o);
    }
  }

  lemma SwitchedFields(src: Source, o: Orientation)
    ensures var src' := src.Switched();
            && src'.sent == src.sent && src'.sender == src.sender && src'.Outputs(o) == src.Outputs(o)
            && src'.onlyKeys == !src.onlyKeys && (src'.tame ==> src.tame)
            && src'.Mark(o) == (if src.onlyKeys then src.Mark(o) else |src.Outputs(o)|)
            && (src'.tame && src.onlyKeys && src.sender.recording && src.sender.Open(o) ==> src.KeyLast(o))
  {
  }

  lemma SwitchKeepsGate(src: Source, o: Orientation)
    requires GateOk(src, o)
    ensures GateOk(src.Switched(), o)
  {
    SwitchedFields(src, o);
  }

  lemma SwitchKeepsSource(src: Source)
    requires SourceOk(src)
    ensures SourceOk(src.Switched())
  {
    var src' := src.Switched();
    forall o
      ensures src'.sent == src.sent && (src'.tame ==> src.tame) && src.Outputs(o) <= src'.Outputs(o)
    {
      SwitchedFields(src, o);
    }
    ChainedAppend(src, src', Videos(src.sent), []);
    assert Videos(src.sent) + [] == Videos(src.sent);
    forall o
      ensures GateOk(src', o)
    {
      assert GateOk(src, o);
      SwitchKeepsGate(src, o);
    }
  }

  lemma RotateKeepsSource(src: Source, net: Network, to: Orientation, ok: bool)
    requires SourceOk(src)
    ensures SourceOk(OnRotate(src, net, to, ok).0)
  {
    var src' := OnRotate(src, net, to, ok).0;
    var r := MC.Rotate(src.sender, to, ok);
    if r.1.Some? {
      VideosAppend(src.sent, Sent(r.1.value, 0));
    }
    assert src'.outputs1 == src.outputs1 && src'.outputs2 == src.outputs2;
    UnsentKeepsSource(src, src');
  }

  /** What the receive thread has made of the bytes so far is what was meant, in order. */
  lemma ParsedIsMeant(sent: seq<Sent>, net: Network)
    requires WireOk(sent, net)
    ensures MS.Parse(net.consumed) <= MS.Meant(Messages(sent))
  {
    MS.TruncatedStream(Messages(sent), |net.consumed|);
    assert WireAll(Messages(sent))[..|net.consumed|] == net.consumed;
  }

  lemma ReceiverAdvances(start: Orientation, sent: seq<Sent>, rcv: Receiver, puts: seq<Packet>)
    requires ReceiverOk(start, sent, rcv, puts) && rcv.dispatched < |sent|
    ensures var m := sent[rcv.dispatched].msg;
            ReceiverOk(start, sent,
                       Receiver(rcv.dispatched + 1, rcv.active, if m.Turn? then m.orientation else rcv.cur),
                       if m.Video? then puts + [Body(m)] else puts)
  {
    var d := rcv.dispatched;
    var done, x := sent[..d], sent[d];
    assert sent[..d + 1] == done + [x];
    VideosAppend(done, x);
    assert (done + [x])[..d] == done;
    if x.msg.Video? {
      assert Packets(Videos(done) + [x]) == Packets(Videos(done)) + [Body(x.msg)];
    }
  }

  /** The next event is what the next message meant. */
  lemma NextIsMeant(sent: seq<Sent>, net: Network, d: nat)
    requires WireOk(sent, net) && d < |MS.Parse(net.consumed)|
    ensures d < |sent| && MS.Parse(net.consumed)[d] == MS.Intended(sent[d].msg)
  {
    ParsedIsMeant(sent, net);
    var meant := MS.Meant(Messages(sent));
    assert MS.Parse(net.consumed)[d] == meant[d] == MS.Intended(Messages(sent)[d]);
  }

  lemma DispatchKeepsReceiver(start: Orientation, sent: seq<Sent>, rcv: Receiver, queue: QH.Queue)
    requires ReceiverOk(start, sent, rcv, queue.puts) && rcv.dispatched < |sent|
    ensures var r := OnDispatch(rcv, queue, MS.Intended(sent[rcv.dispatched].msg));
            ReceiverOk(start, sent, r.0, r.1.puts)
  {
    ReceiverAdvances(start, sent, rcv, queue.puts);
  }

  lemma DispatchKeepsQueue(rcv: Receiver, queue: QH.Queue, e: MS.Event, phase: Consumer)
    requires QH.Safe(queue) && HoldingOk(phase, queue) && (e.Put? ==> e.packet != [])
    ensures var r := OnDispatch(rcv, queue, e);
            QH.Safe(r.1) && HoldingOk(phase, r.1)
  {
    if e.Put? {
      QH.PutIsSafe(queue, e.packet);
    }
  }

  lemma TakeKeepsHolding(puts: seq<Packet>, queue: QH.Queue, k: nat)
    requires QH.Safe(queue) && k < |queue.list|
    requires forall i :: 0 <= i < |queue.puts| ==> |queue.puts[i]| >= 2
    ensures HoldingOk(Holding(queue.list[k], QH.Gone(queue) + k), QH.TakeAt(queue, k))
  {
    assert queue.list[k] == queue.puts[QH.Gone(queue) + k];
  }

  lemma GetDataKeeps(queue: QH.Queue)
    requires QH.Safe(queue) && forall i :: 0 <= i < |queue.puts| ==> |queue.puts[i]| >= 2
    ensures var (queue', phase) := OnGetData(queue);
            QH.Safe(queue') && HoldingOk(phase, queue') && queue'.puts == queue.puts
    ensures queue.list != [] ==> 
            var (queue', phase) := OnWake(queue);
            QH.Safe(queue') && HoldingOk(phase, queue') && queue'.puts == queue.puts
  {
    if queue.list != [] {
      var k := Lag(queue.list);
      QH.TakeIsSafe(queue);
      QH.TakeWokenIsSafe(queue);
      TakeKeepsHolding(queue.puts, queue, k);
      TakeKeepsHolding(queue.puts, queue, 0);
      assert Drained(queue.list)[0] == queue.list[k];
    }
  }

  lemma SourceStepKeepsInv(s: State, a: Action)
    requires Inv(s) && Enabled(s, a) && (a.Encode? || a.Rotate? || a.Switch? || a.StopRecording?)
    ensures Inv(Next(s, a))
  {
    match a
    case Encode(payload, flags, o, writeOk) =>
      EncodeKeepsSource(s.src, s.net, payload, flags, o, writeOk);
      var src := s.src.AddOutput(o, Output(payload, flags));
      var r := MC.Encode(s.src.sender, s.src.onlyKeys, payload, flags, o, writeOk);
      TransmitKeepsWire(src, s.net, r, |s.src.Outputs(o)|);
      TransmitKeepsReceiver(s.dec.start, src, s.net, r, |s.src.Outputs(o)|, s.rcv, s.queue.puts);
    case Rotate(to, ok) =>
      RotateKeepsSource(s.src, s.net, to, ok);
      var r := MC.Rotate(s.src.sender, to, ok);
      TransmitKeepsWire(s.src, s.net, r, 0);
      TransmitKeepsReceiver(s.dec.start, s.src, s.net, r, 0, s.rcv, s.queue.puts);
    case Switch => SwitchKeepsSource(s.src);
    case StopRecording => UnsentKeepsSource(s.src, Next(s, a).src);
  }

  lemma ReceiverStepKeepsInv(s: State, a: Action)
    requires Inv(s) && Enabled(s, a) && (a.Read? || a.Dispatch? || a.Disconnect?)
    ensures Inv(Next(s, a))
  {
    match a
    case Read(n) => assert s.net.consumed + s.net.wire[..n] + s.net.wire[n..] == s.net.consumed + s.net.wire;
    case Dispatch =>
      NextIsMeant(s.src.sent, s.net, s.rcv.dispatched);
      DispatchKeepsReceiver(s.dec.start, s.src.sent, s.rcv, s.queue);
      DispatchKeepsQueue(s.rcv, s.queue, MS.Parse(s.net.consumed)[s.rcv.dispatched], s.dec.phase);
    case Disconnect =>
  }

  lemma DecodeKeepsDecoder(dec: Decoder, cur: Orientation, ret: bool)
    requires DecoderOk(dec) && dec.phase.Holding? && |dec.phase.packet| >= 2
    ensures DecoderOk(OnDecode(dec, cur, ret)) && !OnDecode(dec, cur, ret).phase.Holding?
  {
    FeedsKeepDiscipline(dec.begun, dec.configs, dec.fed, dec.pre, cur, dec.phase.packet);
    assert dec.fed + [] == dec.fed;
  }

  lemma PutsHaveTails(s: State)
    requires Inv(s)
    ensures forall i :: 0 <= i < |s.queue.puts| ==> |s.queue.puts[i]| >= 2
  {
  }

  lemma TakeKeepsInv(s: State, a: Action)
    requires Inv(s) && Enabled(s, a) && (a.GetData? || a.Wake?)
    ensures Inv(Next(s, a))
  {
    PutsHaveTails(s);
    GetDataKeeps(s.queue);
  }

  lemma DecoderStepKeepsInv(s: State, a: Action)
    requires Inv(s) && Enabled(s, a)
    requires a.Surface? || a.Begin? || a.GetData? || a.Wake? || a.Leave? || a.Decode?
    ensures Inv(Next(s, a))
  {
    if a.GetData? || a.Wake? {
      TakeKeepsInv(s, a);
    } else if a.Decode? {
      DecodeKeepsDecoder(s.dec, s.rcv.cur, a.ret);
    }
  }

  lemma StepKeepsInv(s: State, a: Action)
    requires Inv(s) && Enabled(s, a)
    ensures Inv(Next(s, a))
  {
    if a.Encode? || a.Rotate? || a.Switch? || a.StopRecording? {
      SourceStepKeepsInv(s, a);
    } else if a.Read? || a.Dispatch? || a.Disconnect? {
      ReceiverStepKeepsInv(s, a);
    } else {
      DecoderStepKeepsInv(s, a);
    }
  }

  lemma {:induction false} RunKeepsInv(s: State, actions: seq<Action>, t: State)
    requires Inv(s) && Reaches(s, actions, t)
    ensures Inv(t)
    decreases |actions|
  {
    if actions != [] {
      StepKeepsInv(s, actions[0]);
      RunKeepsInv(Next(s, actions[0]), actions[1..], t);
    }
  }

  // ----- Whole runs

  lemma InitialInv(onlyKeys: bool, start: Orientation, configs: Configs)
    ensures Inv(Initial(onlyKeys, start, configs))
  {
  }

  lemma ReachableInv(onlyKeys: bool, start: Orientation, configs: Configs, actions: seq<Action>, t: State)
    requires Reaches(Initial(onlyKeys, start, configs), actions, t)
    ensures Inv(t)
  {
    InitialInv(onlyKeys, start, configs);
    RunKeepsInv(Initial(onlyKeys, start, configs), actions, t);
  }
}

/** What the pipeline delivers over every run of its threads. */
module MirrorTheorems {
  import opened Bytes
  import opened Wrappers
  import opened Protocol
  import opened MediaData
  import opened MirrorSession
  import MS = MediaServer
  import QH = QueueHistory

  // ----- Frames handed out are frames written

  ghost predicate Delivering(src: Source, queue: QH.Queue) {
    SourceOk(src) && QH.Ordered(queue) && QH.Gone(queue) <= |queue.puts| && queue.puts <= Packets(Videos(src.sent))
  }

  lemma InvDelivers(t: State)
    requires Inv(t)
    ensures Delivering(t.src, t.queue)
  {
    PutsAreWritten(t.dec.start, t.src.sent, t.rcv, t.queue.puts);
  }

  lemma PutsAreWritten(start: Orientation, sent: seq<Sent>, rcv: Receiver, puts: seq<Packet>)
    requires ReceiverOk(start, sent, rcv, puts)
    ensures puts <= Packets(Videos(sent))
  {
    VideosOfPrefix(sent, rcv.dispatched);
    var vs := Videos(sent);
    assert forall i :: 0 <= i < |puts| ==> puts[i] == Packets(vs)[i];
  }

  /** The frame at position `at` of the queue's history, as the sender wrote it. */
  function Origin(src: Source, at: nat): Sent
    requires at < |Videos(src.sent)|
  {
    Videos(src.sent)[at]
  }

  /** `packet` is output `number` of its orientation's encoder behind its tag and flags. */
  ghost predicate Carries(src: Source, packet: seq<byte>, o: Orientation, number: nat) {
    && number < |src.Outputs(o)|
    && packet == src.Outputs(o)[number].payload + [o.Tag(), src.Outputs(o)[number].flags % 256]
  }

  predicate KeyOutput(src: Source, o: Orientation, number: nat)
    requires number < |src.Outputs(o)|
  {
    src.Outputs(o)[number].flags % 2 == 1
  }

  lemma ChainedCarries(src: Source, vs: seq<Sent>, at: nat)
    requires at < |vs| && vs[at].msg.Video? && Chained(src, vs, at)
    ensures var Sent(m, number) := vs[at];
            && Carries(src, Body(m), m.orientation, number)
            && (IsKey(Body(m)) <==> KeyOutput(src, m.orientation, number))
            && (IsKey(Body(m)) || FollowsLast(src, LastIndex(vs[..at], m.orientation), number))
  {
    var Sent(m, number) := vs[at];
    assert Body(m)[|Body(m)| - 1] == m.flags;
  }

  lemma PutCarries(src: Source, queue: QH.Queue, at: nat)
    requires SourceOk(src) && queue.puts <= Packets(Videos(src.sent)) && at < |queue.puts|
    ensures at < |Videos(src.sent)|
    ensures var Sent(m, number) := Origin(src, at);
            && m.Video? && Carries(src, queue.puts[at], m.orientation, number)
            && (IsKey(queue.puts[at]) <==> KeyOutput(src, m.orientation, number))
            && (IsKey(queue.puts[at])
                || FollowsLast(src, LastIndex(Videos(src.sent)[..at], m.orientation), number))
  {
    var vs := Videos(src.sent);
    assert Packets(vs)[at] == Body(vs[at].msg) == queue.puts[at];
    ChainedCarries(src, vs, at);
  }

  lemma FirstPutIsKey(src: Source, queue: QH.Queue)
    requires Delivering(src, queue) && queue.puts != []
    ensures IsKey(queue.puts[0])
  {
    PutCarries(src, queue, 0);
    assert Videos(src.sent)[..0] == [];
  }

  /** A frame that is no key frame was handed out right after the frame written just before it. */
  lemma HandedInOrder(src: Source, queue: QH.Queue, j: nat)
    requires Delivering(src, queue) && j < |queue.handed|
    ensures var at := queue.handed[j];
            at < |queue.puts| && (IsKey(queue.puts[at]) || (j > 0 && at == queue.handed[j - 1] + 1))
  {
    if queue.handed[j] == 0 {
      FirstPutIsKey(src, queue);
    }
  }

  /** Byte-exact delivery in order, with any rotations, switching, read sizes and interleaving: frame j
      handed out was written after those handed out before it, and is what the encoder of its orientation
      put out under some number, behind its tag and flags. It is a key frame, or it was handed out right
      after the frame written just before it, and a frame of its own orientation was written before it;
      the last of them carried the encoder output just before its own, if the switch was used safely. */
  lemma EveryRunDelivers(onlyKeys: bool, start: Orientation, configs: Configs, actions: seq<Action>, t: State, j: nat)
    requires Reaches(Initial(onlyKeys, start, configs), actions, t)
    requires j < |t.queue.handed|
    ensures t.queue.puts <= Packets(Videos(t.src.sent))
    ensures forall i :: 0 <= i < j ==> t.queue.handed[i] < t.queue.handed[j]
    ensures var at := t.queue.handed[j];
            && at < |t.queue.puts|
            && var Sent(m, number) := Origin(t.src, at);
               && m.Video? && Carries(t.src, t.queue.puts[at], m.orientation, number)
               && (|| KeyOutput(t.src, m.orientation, number)
                   || (&& j > 0 && at == t.queue.handed[j - 1] + 1
                       && FollowsLast(t.src, LastIndex(Videos(t.src.sent)[..at], m.orientation), number)))
  {
    ReachableInv(onlyKeys, start, configs, actions, t);
    InvDelivers(t);
    QH.Increasing(t.queue);
    HandedInOrder(t.src, t.queue, j);
    PutCarries(t.src, t.queue, t.queue.handed[j]);
  }

  // ----- The decoder's codec

  lemma {:induction false} RunKeepsSession(s: State, actions: seq<Action>, t: State)
    requires Reaches(s, actions, t)
    ensures t.dec.start == s.dec.start && t.dec.configs == s.dec.configs
    decreases |actions|
  {
    if actions != [] {
      RunKeepsSession(Next(s, actions[0]), actions[1..], t);
    }
  }

  /** Over every run: each tagged picture suits the configuration in force, counted from the orientation
      that the window had when the decoder thread started; a configuration is given exactly before a
      picture of the other orientation, and it is the one that the handshake stored for that orientation.
      A frame that was handed out always has the tag the decoder looks at. */
  lemma EveryRunIsDisciplined(onlyKeys: bool, start: Orientation, configs: Configs, actions: seq<Action>, t: State)
    requires Reaches(Initial(onlyKeys, start, configs), actions, t)
    ensures Disciplined(t.dec.begun, configs, t.dec.fed)
    ensures t.dec.phase.Holding? ==> |t.dec.phase.packet| >= 2
  {
    ReachableInv(onlyKeys, start, configs, actions, t);
    RunKeepsSession(Initial(onlyKeys, start, configs), actions, t);
  }

  // ----- Where threads end

  /** A turn ends the decoder thread exactly when a frame is fed that the codec refuses; else it goes on. */
  lemma DecodeEnds(s: State, ret: bool)
    requires Enabled(s, Decode(ret))
    ensures var t, tag := Next(s, Decode(ret)), s.dec.phase.packet[|s.dec.phase.packet| - 2];
            t.dec.phase == if !(tag == 1 && s.rcv.cur == Landscape) && !(tag == 2 && s.rcv.cur == Portrait) && !ret
                           then Finished else Idle
  {
  }

  /** Once it has ended, the codec gets nothing more and no frame is taken from the queue. */
  lemma {:induction false} FinishedIsFinal(s: State, actions: seq<Action>, t: State)
    requires Reaches(s, actions, t) && s.dec.phase == Finished
    ensures t.dec == s.dec && t.queue.handed == s.queue.handed && t.queue.dropped == s.queue.dropped
    decreases |actions|
  {
    if actions != [] {
      FinishedIsFinal(Next(s, actions[0]), actions[1..], t);
    }
  }

  /** Once the connection is lost, nothing more is acted on, and a decoder thread that had been created takes
      no further frame from the queue. */
  lemma {:induction false} LostConnection(s: State, actions: seq<Action>, t: State)
    requires Reaches(s, actions, t) && !s.rcv.active && !s.playing && s.dec.phase != NotStarted
    ensures t.rcv == s.rcv && t.queue == s.queue
    decreases |actions|
  {
    if actions != [] {
      LostConnection(Next(s, actions[0]), actions[1..], t);
    }
  }

  lemma {:induction false} DisconnectEnds(s: State, actions: seq<Action>, t: State)
    requires Enabled(s, Disconnect) && Reaches(Next(s, Disconnect), actions, t) && s.dec.phase != NotStarted
    ensures t.rcv == s.rcv.(active := false) && t.queue == s.queue
  {
    LostConnection(Next(s, Disconnect), actions, t);
  }

  /** Once recording has ended, be it asked for or because a write failed, nothing more is written. */
  lemma {:induction false} RecordingIsOver(s: State, actions: seq<Action>, t: State)
    requires Reaches(s, actions, t) && !s.src.sender.recording
    ensures t.src.sent == s.src.sent && !t.src.sender.recording
    ensures t.net.consumed + t.net.wire == s.net.consumed + s.net.wire
    decreases |actions|
  {
    if actions != [] {
      var a := actions[0];
      if a.Read? {
        assert s.net.consumed + s.net.wire[..a.n] + s.net.wire[a.n..] == s.net.consumed + s.net.wire;
      }
      RecordingIsOver(Next(s, a), actions[1..], t);
    }
  }

  // ----- Runs of one orientation

  predicate OneOrientation(actions: seq<Action>, o: Orientation) {
    forall i :: 0 <= i < |actions| ==> !actions[i].Rotate? && (actions[i].Encode? ==> actions[i].o == o)
  }

  predicate SentOne(sent: seq<Sent>, o: Orientation) {
    forall i :: 0 <= i < |sent| ==> sent[i].msg.Video? && sent[i].msg.orientation == o
  }

  /** Everything handed out was fed, up to the frame now held. */
  ghost predicate AllFed(queue: QH.Queue, dec: Decoder) {
    && |dec.fed| == |queue.handed| - (if dec.phase.Holding? then 1 else 0)
    && (forall j :: 0 <= j < |dec.fed| ==> FedAs(queue, dec, j))
  }

  ghost predicate FedAs(queue: QH.Queue, dec: Decoder, j: nat)
    requires j < |dec.fed| <= |queue.handed|
  {
    var at := queue.handed[j];
    at < |queue.puts| && |queue.puts[at]| >= 2 && dec.fed[j] == Shown(queue.puts[at])
  }

  ghost predicate Fixed(s: State, o: Orientation) {
    && SentOne(s.src.sent, o)
    && s.dec.pre == s.rcv.cur == o
    && AllFed(s.queue, s.dec)
  }

  lemma {:induction false} VideosOfOne(sent: seq<Sent>, o: Orientation)
    requires SentOne(sent, o)
    ensures Videos(sent) == sent
  {
    if sent != [] {
      VideosOfOne(sent[..|sent| - 1], o);
      assert sent == sent[..|sent| - 1] + [sent[|sent| - 1]];
    }
  }

  lemma CarriesTag(src: Source, packet: seq<byte>, o: Orientation, number: nat)
    requires Carries(src, packet, o, number)
    ensures |packet| >= 2 && packet[|packet| - 2] == o.Tag()
  {
  }

  lemma HeldHasTag(src: Source, queue: QH.Queue, phase: Consumer, o: Orientation)
    requires Delivering(src, queue) && SentOne(src.sent, o) && HoldingOk(phase, queue) && phase.Holding?
    ensures |phase.packet| >= 2 && phase.packet[|phase.packet| - 2] == o.Tag()
  {
    PredecessorWritten(src, queue, o, phase.at);
    CarriesTag(src, phase.packet, o, src.sent[phase.at].index);
  }

  lemma DecodeKeepsFed(queue: QH.Queue, dec: Decoder, o: Orientation, ret: bool)
    requires HoldingOk(dec.phase, queue) && dec.phase.Holding? && dec.pre == o && AllFed(queue, dec)
    requires dec.phase.packet[|dec.phase.packet| - 2] == o.Tag()
    ensures var dec' := OnDecode(dec, o, ret);
            AllFed(queue, dec') && dec'.pre == o
  {
    var packet := dec.phase.packet;
    var more := Feeds(dec.pre, o, dec.configs, packet);
    assert more == [Shown(packet)];
    var dec' := OnDecode(dec, o, ret);
    assert dec'.fed == dec.fed + [Shown(packet)];
    forall j | 0 <= j < |dec'.fed|
      ensures FedAs(queue, dec', j)
    {
      assert j < |dec.fed| ==> FedAs(queue, dec, j);
    }
  }

  /** Handing out one more frame, or queueing one, leaves those already fed as they were. */
  lemma QueueKeepsFed(queue: QH.Queue, queue': QH.Queue, dec: Decoder, dec': Decoder)
    requires AllFed(queue, dec) && dec'.fed == dec.fed
    requires queue.handed <= queue'.handed && queue.puts <= queue'.puts
    requires |dec'.fed| == |queue'.handed| - (if dec'.phase.Holding? then 1 else 0)
    ensures AllFed(queue', dec')
  {
    forall j | 0 <= j < |dec'.fed|
      ensures FedAs(queue', dec', j)
    {
      assert FedAs(queue, dec, j);
    }
  }

  lemma SourceStepKeepsFixed(s: State, a: Action, o: Orientation)
    requires Fixed(s, o) && Enabled(s, a)
    requires a.Switch? || a.StopRecording? || (a.Encode? && a.o == o)
    ensures Fixed(Next(s, a), o)
  {
    assert Next(s, a).dec == s.dec && Next(s, a).queue == s.queue;
  }

  lemma ReceiverStepKeepsFixed(s: State, a: Action, o: Orientation)
    requires Inv(s) && Fixed(s, o) && Enabled(s, a)
    requires a.Read? || a.Dispatch? || a.Disconnect?
    ensures Fixed(Next(s, a), o)
  {
    if a.Dispatch? {
      NextIsMeant(s.src.sent, s.net, s.rcv.dispatched);
      QueueKeepsFed(s.queue, Next(s, a).queue, s.dec, s.dec);
    }
  }

  lemma DecoderStepKeepsFixed(s: State, a: Action, o: Orientation)
    requires Inv(s) && Fixed(s, o) && Enabled(s, a)
    requires a.Surface? || a.Begin? || a.GetData? || a.Wake? || a.Leave? || a.Decode?
    ensures Fixed(Next(s, a), o)
  {
    if a.Decode? {
      InvDelivers(s);
      HeldHasTag(s.src, s.queue, s.dec.phase, o);
      DecodeKeepsFed(s.queue, s.dec, o, a.ret);
    } else {
      QueueKeepsFed(s.queue, Next(s, a).queue, s.dec, Next(s, a).dec);
    }
  }

  lemma StepKeepsFixed(s: State, a: Action, o: Orientation)
    requires Inv(s) && Fixed(s, o) && Enabled(s, a)
    requires !a.Rotate? && (a.Encode? ==> a.o == o)
    ensures Fixed(Next(s, a), o)
  {
    if a.Encode? || a.Switch? || a.StopRecording? {
      SourceStepKeepsFixed(s, a, o);
    } else if a.Read? || a.Dispatch? || a.Disconnect? {
      ReceiverStepKeepsFixed(s, a, o);
    } else {
      DecoderStepKeepsFixed(s, a, o);
    }
  }

  lemma {:induction false} RunKeepsFixed(s: State, actions: seq<Action>, t: State, o: Orientation)
    requires Inv(s) && Fixed(s, o) && Reaches(s, actions, t) && OneOrientation(actions, o)
    ensures Inv(t) && Fixed(t, o)
    decreases |actions|
  {
    if actions != [] {
      StepKeepsInv(s, actions[0]);
      StepKeepsFixed(s, actions[0], o);
      RunKeepsFixed(Next(s, actions[0]), actions[1..], t, o);
    }
  }

  lemma InitialIsFixed(onlyKeys: bool, o: Orientation, configs: Configs)
    ensures Fixed(Initial(onlyKeys, o, configs), o)
  {
  }

  /** Frame j of `handed` carries encoder output numbers[j], and is a key frame or continues frame j - 1. */
  ghost predicate Continues(src: Source, queue: QH.Queue, o: Orientation, numbers: seq<nat>, j: nat)
    requires j < |numbers| == |queue.handed|
  {
    && queue.handed[j] < |queue.puts|
    && Carries(src, queue.puts[queue.handed[j]], o, numbers[j])
    && (KeyOutput(src, o, numbers[j]) || (j > 0 && numbers[j] == numbers[j - 1] + 1))
  }

  lemma LastIndexOfOne(sent: seq<Sent>, o: Orientation, at: nat)
    requires SentOne(sent, o) && at <= |sent|
    ensures LastIndex(sent[..at], o) == if at == 0 then None else Some(sent[at - 1].index)
  {
    if at > 0 {
      assert sent[..at][at - 1] == sent[at - 1];
    }
  }

  /** In a run of one orientation, a frame that is no key frame was written right after the frame with
      the number before. */
  lemma PredecessorWritten(src: Source, queue: QH.Queue, o: Orientation, at: nat)
    requires Delivering(src, queue) && SentOne(src.sent, o) && at < |queue.puts|
    ensures at < |src.sent| && Carries(src, queue.puts[at], o, src.sent[at].index)
    ensures IsKey(queue.puts[at]) <==> KeyOutput(src, o, src.sent[at].index)
    ensures IsKey(queue.puts[at]) || (src.tame ==> at > 0 && src.sent[at - 1].index + 1 == src.sent[at].index)
  {
    VideosOfOne(src.sent, o);
    PutCarries(src, queue, at);
    LastIndexOfOne(src.sent, o, at);
  }

  /** The numbers of the frames handed out. */
  function Numbers(sent: seq<Sent>, handed: seq<nat>): (numbers: seq<nat>)
    requires forall i :: 0 <= i < |handed| ==> handed[i] < |sent|
    ensures |numbers| == |handed|
    ensures forall i :: 0 <= i < |handed| ==> numbers[i] == sent[handed[i]].index
  {
    seq(|handed|, i requires 0 <= i < |handed| => sent[handed[i]].index)
  }

  lemma HandedInBounds(src: Source, queue: QH.Queue, o: Orientation)
    requires Delivering(src, queue) && SentOne(src.sent, o)
    ensures forall j :: 0 <= j < |queue.handed| ==> queue.handed[j] < |src.sent|
  {
    VideosOfOne(src.sent, o);
  }

  /** Frame j handed out and, unless it is a key frame, the frame handed out before it. */
  lemma HandedNumber(src: Source, queue: QH.Queue, o: Orientation, j: nat)
    requires src.tame && Delivering(src, queue) && SentOne(src.sent, o) && j < |queue.handed|
    ensures var at := queue.handed[j];
            && at < |queue.puts| && at < |src.sent| && Carries(src, queue.puts[at], o, src.sent[at].index)
            && (|| KeyOutput(src, o, src.sent[at].index)
                || (&& j > 0 && queue.handed[j - 1] < |src.sent|
                    && src.sent[at].index == src.sent[queue.handed[j - 1]].index + 1))
  {
    HandedInOrder(src, queue, j);
    PredecessorWritten(src, queue, o, queue.handed[j]);
  }

  lemma NumbersContinue(src: Source, queue: QH.Queue, o: Orientation) returns (numbers: seq<nat>)
    requires src.tame && Delivering(src, queue) && SentOne(src.sent, o)
    ensures |numbers| == |queue.handed|
    ensures forall j :: 0 <= j < |numbers| ==> Continues(src, queue, o, numbers, j)
    ensures forall j :: 0 <= j < |numbers| ==> Numbered(src, queue, numbers, j)
  {
    HandedInBounds(src, queue, o);
    VideosOfOne(src.sent, o);
    numbers := Numbers(src.sent, queue.handed);
    forall j | 0 <= j < |numbers|
      ensures Continues(src, queue, o, numbers, j)
    {
      HandedNumber(src, queue, o, j);
    }
  }

  /** numbers[j] is the number under which frame j of `handed` was sent. */
  ghost predicate Numbered(src: Source, queue: QH.Queue, numbers: seq<nat>, j: nat)
    requires j < |numbers| == |queue.handed|
  {
    queue.handed[j] < |Videos(src.sent)| && numbers[j] == Origin(src, queue.handed[j]).index
  }

  lemma NumbersGrow(src: Source, queue: QH.Queue, o: Orientation, numbers: seq<nat>, i: nat, j: nat)
    requires Delivering(src, queue) && SentOne(src.sent, o) && |numbers| == |queue.handed| && i < j < |numbers|
    requires Numbered(src, queue, numbers, i) && Numbered(src, queue, numbers, j)
    ensures numbers[i] < numbers[j]
  {
    VideosOfOne(src.sent, o);
    QH.IncreasingTo(queue, i, j);
  }

  /** With one orientation and the switch used safely, over every interleaving of encoder, network,
      receiver and decoder and whatever the queue drops: the frames handed out carry encoder outputs in
      the order they were put out, each a key frame or the output right after that of the frame handed
      out before it, and the codec is fed exactly the frames handed out, in order. */
  lemma Decodability(onlyKeys: bool, o: Orientation, configs: Configs, actions: seq<Action>, t: State)
    returns (numbers: seq<nat>)
    requires Reaches(Initial(onlyKeys, o, configs), actions, t)
    requires OneOrientation(actions, o) && t.src.tame
    ensures |numbers| == |t.queue.handed|
    ensures forall j :: 0 <= j < |numbers| ==> Numbered(t.src, t.queue, numbers, j)
    ensures forall i, j :: 0 <= i < j < |numbers| ==> numbers[i] < numbers[j]
    ensures forall j :: 0 <= j < |numbers| ==> Continues(t.src, t.queue, o, numbers, j)
    ensures AllFed(t.queue, t.dec)
  {
    InitialInv(onlyKeys, o, configs);
    InitialIsFixed(onlyKeys, o, configs);
    RunKeepsFixed(Initial(onlyKeys, o, configs), actions, t, o);
    InvDelivers(t);
    numbers := NumbersContinue(t.src, t.queue, o);
    forall i, j | 0 <= i < j < |numbers|
      ensures numbers[i] < numbers[j]
    {
      NumbersGrow(t.src, t.queue, o, numbers, i, j);
    }
  }

  /** So every frame handed out chains back, one encoder output at a time, to a key frame handed out
      before it. */
  lemma {:induction false} ChainsToKey(src: Source, queue: QH.Queue, o: Orientation, numbers: seq<nat>, j: nat)
    returns (k: nat)
    requires |numbers| == |queue.handed| && j < |numbers|
    requires forall i :: 0 <= i < |numbers| ==> Continues(src, queue, o, numbers, i)
    ensures k <= j && numbers[k] < |src.Outputs(o)| && KeyOutput(src, o, numbers[k])
    ensures forall i :: k <= i <= j ==> numbers[i] == numbers[k] + (i - k)
  {
    assert Continues(src, queue, o, numbers, j);
    if KeyOutput(src, o, numbers[j]) {
      k := j;
    } else {
      k := ChainsToKey(src, queue, o, numbers, j - 1);
    }
  }

  // ----- Runs exist

  lemma OneMessageParses(m: Message)
    requires Fits(m) && MS.Distinguishable(m)
    ensures MS.Parse(Wire(m)) == [MS.Intended(m)]
  {
    MS.ParseWireAll([m]);
    MS.DispatchBody(m);
    assert [m][1..] == [];
    assert WireAll([m]) == Wire(m) + [] == Wire(m);
  }

  lemma KeyIsSent(s: State, payload: seq<byte>, flags: uint32, o: Orientation)
    requires s.src.sender.recording && s.net == Network([], []) && flags % 2 == 1
    requires Enabled(s, Encode(payload, flags, o, true))
    ensures var t := Next(s, Encode(payload, flags, o, true));
            t == s.(src := t.src, net := Network(Wire(Video(payload, o, flags % 256)), []))
  {
    var m := Video(payload, o, flags % 256);
    assert [] + Wire(m) == Wire(m);
  }

  lemma WireIsMeant(sent: seq<Sent>, net: Network)
    requires WireOk(sent, net) && net.consumed == [] && sent != []
    ensures net.wire != [] && MS.Parse(net.wire) == MS.Meant(Messages(sent))
  {
    MS.StreamRoundTrip(Messages(sent));
    assert net.consumed + net.wire == net.wire;
  }

  lemma AllIsRead(s: State, w: seq<byte>)
    requires s.net == Network(w, []) && s.rcv.active && w != []
    ensures Enabled(s, Read(|w|)) && Next(s, Read(|w|)) == s.(net := Network([], w))
  {
    assert w[..|w|] == w && [] + w == w && w[|w|..] == [];
  }

  lemma IsQueued(s: State, m: Message)
    requires s.net.consumed == Wire(m) && s.rcv.active && s.rcv.dispatched == 0 && s.queue == QH.EMPTY
    requires Fits(m) && MS.Distinguishable(m) && m.Video?
    ensures Enabled(s, Dispatch)
    ensures Next(s, Dispatch) == s.(rcv := s.rcv.(dispatched := 1), queue := QH.Queue([Body(m)], [Body(m)], [], []))
  {
    OneMessageParses(m);
    var none: seq<Packet> := [];
    assert none + [Body(m)] == [Body(m)];
  }

  lemma KeyIsHandedOut(s: State, body: Packet)
    requires s.queue == QH.Queue([body], [body], [], []) && s.dec.phase == Idle && s.playing && IsKey(body)
    ensures Enabled(s, GetData)
    ensures Next(s, GetData) == s.(queue := QH.Queue([], [body], [0], []), dec := s.dec.(phase := Holding(body, 0)))
  {
    var list: seq<Packet> := [body];
    FirstKeyUnique(list, 0);
    assert Lag(list) == 0 && Drained(list) == list && list[1..] == [];
    assert QH.Take(s.queue).handed == [0] && QH.Take(s.queue).dropped == [];
  }

  lemma IsFed(s: State, m: Message)
    requires m.Video? && s.dec.phase == Holding(Body(m), 0) && s.rcv.cur == s.dec.pre == m.orientation
    requires s.dec.fed == [] && s.dec.shown == []
    ensures Enabled(s, Decode(true))
    ensures Next(s, Decode(true)) ==
              s.(dec := s.dec.(fed := [Picture(m.orientation.Tag(), m.payload)], shown := [0], phase := Idle))
  {
    var packet := Body(m);
    assert packet[..|packet| - 2] == m.payload;
    assert Feeds(s.dec.pre, s.rcv.cur, s.dec.configs, packet) == [Picture(m.orientation.Tag(), m.payload)];
  }

  lemma DecoderStarts(s: State)
    requires s.dec.phase == NotStarted
    ensures Enabled(s, Surface) && Enabled(Next(s, Surface), Begin)
    ensures Next(Next(s, Surface), Begin) ==
              s.(playing := true, dec := s.dec.(begun := s.rcv.cur, pre := s.rcv.cur, phase := Idle))
  {
  }

  lemma ReachesCons(s: State, a: Action, rest: seq<Action>, t: State, o: Orientation)
    returns (actions: seq<Action>)
    requires Enabled(s, a) && Reaches(Next(s, a), rest, t) && OneOrientation(rest, o)
    requires !a.Rotate? && (a.Encode? ==> a.o == o)
    ensures Reaches(s, actions, t) && OneOrientation(actions, o)
  {
    actions := [a] + rest;
    assert actions[1..] == rest;
  }

  lemma QueuedKeyIsFed(s: State, m: Message) returns (actions: seq<Action>, t: State)
    requires s.queue == QH.Queue([Body(m)], [Body(m)], [], []) && s.dec.phase == Idle && s.playing
    requires m.Video? && m.flags % 2 == 1 && s.rcv.cur == s.dec.pre == m.orientation && s.dec.fed == []
    requires s.dec.shown == []
    ensures Reaches(s, actions, t) && OneOrientation(actions, m.orientation)
    ensures t.queue == QH.Queue([], [Body(m)], [0], [])
    ensures t.dec.fed == [Picture(m.orientation.Tag(), m.payload)]
  {
    assert Body(m)[|Body(m)| - 1] == m.flags;
    KeyIsHandedOut(s, Body(m));
    var s' := Next(s, GetData);
    IsFed(s', m);
    t := Next(s', Decode(true));
    actions := [];
    assert Reaches(t, actions, t);
    actions := ReachesCons(s', Decode(true), actions, t, m.orientation);
    actions := ReachesCons(s, GetData, actions, t, m.orientation);
  }

  lemma WrittenKeyIsFed(s: State, m: Message) returns (actions: seq<Action>, t: State)
    requires s.net == Network(Wire(m), []) && s.rcv == Receiver(0, true, m.orientation) && s.queue == QH.EMPTY
    requires Fits(m) && MS.Distinguishable(m) && s.dec.phase == Idle && s.playing
    requires m.Video? && m.flags % 2 == 1 && s.dec.pre == m.orientation && s.dec.fed == [] && s.dec.shown == []
    ensures Reaches(s, actions, t) && OneOrientation(actions, m.orientation)
    ensures t.queue == QH.Queue([], [Body(m)], [0], [])
    ensures t.dec.fed == [Picture(m.orientation.Tag(), m.payload)]
  {
    AllIsRead(s, Wire(m));
    var s1 := Next(s, Read(|Wire(m)|));
    IsQueued(s1, m);
    var s2 := Next(s1, Dispatch);
    actions, t := QueuedKeyIsFed(s2, m);
    actions := ReachesCons(s1, Dispatch, actions, t, m.orientation);
    actions := ReachesCons(s, Read(|Wire(m)|), actions, t, m.orientation);
  }

  /** For every key frame there is a run in which it is sent, read, queued, handed out and fed as it was. */
  lemma KeyFrameArrives(o: Orientation, configs: Configs, payload: seq<byte>, flags: uint32)
    returns (actions: seq<Action>, t: State)
    requires var m := Video(payload, o, flags % 256);
             Fits(m) && MS.Distinguishable(m) && flags % 2 == 1
    ensures Reaches(Initial(false, o, configs), actions, t) && OneOrientation(actions, o)
    ensures t.queue == QH.Queue([], [Body(Video(payload, o, flags % 256))], [0], [])
    ensures t.dec.fed == [Picture(o.Tag(), payload)]
  {
    var s0, a := Initial(false, o, configs), Encode(payload, flags, o, true);
    DecoderStarts(s0);
    var s1 := Next(s0, Surface);
    var s2 := Next(s1, Begin);
    KeyIsSent(s2, payload, flags, o);
    actions, t := WrittenKeyIsFed(Next(s2, a), Video(payload, o, flags % 256));
    actions := ReachesCons(s2, a, actions, t, o);
    actions := ReachesCons(s1, Begin, actions, t, o);
    actions := ReachesCons(s0, Surface, actions, t, o);
  }
}

/** A rule for rotations under which the codec's input never loses a frame that it needs. */
module MirrorCareful {
  import opened Bytes
  import opened Wrappers
  import opened Protocol
  import opened MediaData
  import opened MirrorSession
  import opened MirrorTheorems
  import opened MirrorRotations
  import MC = MediaCodec
  import MS = MediaServer
  import QH = QueueHistory

  // ----- The rule

  /** The frame whose turn is next if nothing more arrives, and its position among those put. */
  function NextUp(queue: QH.Queue, phase: Consumer): Option<(Packet, int)> {
    match phase
    case Waiting => if queue.list == [] then None else Some((queue.list[0], QH.Gone(queue)))
    case Holding(packet, at) => Some((packet, at))
    case Finished => None
    case _ =>
      if queue.list == [] then None else Some((Drained(queue.list)[0], QH.Gone(queue) + Lag(queue.list)))
  }

  /** The picture fed last was put just before this position. */
  predicate Follows(shown: seq<nat>, at: int) {
    shown != [] && shown[|shown| - 1] + 1 == at
  }

  /** Turning the window to `o` now would let a frame be fed that is no key frame and does not follow the
      picture fed last. */
  predicate AtRisk(queue: QH.Queue, phase: Consumer, shown: seq<nat>, o: Orientation) {
    var up := NextUp(queue, phase);
    up.Some? && !IsKey(up.value.0) && Tag(up.value.0) == o.Tag() && !Follows(shown, up.value.1)
  }

  ghost predicate LastFrameIs(src: Source, o: Orientation) {
    var vs := Videos(src.sent);
    vs != [] && vs[|vs| - 1].msg.orientation == o
  }

  /** Whether the sender keeps its half of the rule as well. */
  datatype Care = TurnsOnly | BothEnds

  /** The receive thread turns the window only when nothing is at risk, the switch is used safely, and the
      sender does not go on with an orientation once a frame of the other one has been written, except
      with a key frame. */
  ghost predicate Careful(s: State, a: Action, care: Care)
    requires Enabled(s, a)
  {
    match a
    case Dispatch =>
      var e := MS.Parse(s.net.consumed)[s.rcv.dispatched];
      e.Orient? ==> !AtRisk(s.queue, s.dec.phase, s.dec.shown, e.orientation)
    case Encode(payload, flags, o, writeOk) =>
      && care == BothEnds && flags % 2 == 0
      && MC.Encode(s.src.sender, s.src.onlyKeys, payload, flags, o, writeOk).1.Some? ==>
        LastFrameIs(s.src, o)
    case Switch => s.src.MaySwitch()
    case _ => true
  }

  ghost predicate CarefullyReaches(s: State, actions: seq<Action>, t: State, care: Care)
    decreases |actions|
  {
    if actions == [] then s == t
    else
      && Enabled(s, actions[0]) && Careful(s, actions[0], care)
      && CarefullyReaches(Next(s, actions[0]), actions[1..], t, care)
  }

  // ----- What the sender writes

  /** Whether the last rotation to `o` written was followed by a frame of `o`. */
  function Resumed(sent: seq<Sent>, o: Orientation): bool {
    if sent == [] then false
    else
      var x := sent[|sent| - 1];
      if x.msg.orientation == o then x.msg.Video? else Resumed(sent[..|sent| - 1], o)
  }

  /** A frame that is no key frame was written after another one of its orientation, without a rotation
      to that orientation between them. */
  ghost predicate ResumedAt(sent: seq<Sent>, i: nat)
    requires i < |sent|
  {
    sent[i].msg.Video? && !IsKey(Body(sent[i].msg)) ==> Resumed(sent[..i], sent[i].msg.orientation)
  }

  ghost predicate TurnsShut(src: Source) {
    && (forall i :: 0 <= i < |src.sent| ==> ResumedAt(src.sent, i))
    && (forall o :: src.sender.recording && src.sender.Open(o) ==> Resumed(src.sent, o))
  }

  lemma ResumedAppend(sent: seq<Sent>, x: Sent, o: Orientation)
    ensures Resumed(sent + [x], o) == if x.msg.orientation == o then x.msg.Video? else Resumed(sent, o)
  {
    assert (sent + [x])[..|sent|] == sent;
  }

  lemma ResumedAtAppend(sent: seq<Sent>, x: Sent)
    requires forall i :: 0 <= i < |sent| ==> ResumedAt(sent, i)
    requires x.msg.Video? && !IsKey(Body(x.msg)) ==> Resumed(sent, x.msg.orientation)
    ensures forall i :: 0 <= i < |sent + [x]| ==> ResumedAt(sent + [x], i)
  {
    var all := sent + [x];
    forall i | 0 <= i < |all|
      ensures ResumedAt(all, i)
    {
      assert all[..i] == sent[..i];
      if i < |sent| {
        assert ResumedAt(sent, i);
      } else {
        assert sent[..i] == sent;
      }
    }
  }

  lemma AppendKeepsTurnsShut(src: Source, src': Source, x: Sent)
    requires TurnsShut(src) && src'.sent == src.sent + [x] && src.sender.recording
    requires x.msg.Video? && !IsKey(Body(x.msg)) ==> src.sender.Open(x.msg.orientation)
    requires forall o :: src'.sender.Open(o) ==>
               if o == x.msg.orientation then x.msg.Video? else src.sender.Open(o)
    ensures TurnsShut(src')
  {
    ResumedAtAppend(src.sent, x);
    forall o | src'.sender.recording && src'.sender.Open(o)
      ensures Resumed(src'.sent, o)
    {
      ResumedAppend(src.sent, x, o);
    }
  }

  lemma EncodedIsVideo(sender: MC.Sender, onlyKeys: bool, payload: seq<byte>, flags: uint32, o: Orientation,
                       writeOk: bool)
    requires MC.Encode(sender, onlyKeys, payload, flags, o, writeOk).1.Some?
    ensures var m := MC.Encode(sender, onlyKeys, payload, flags, o, writeOk).1.value;
            && m == Video(payload, o, flags % 256) && (IsKey(Body(m)) <==> flags % 2 == 1)
            && (IsKey(Body(m)) || sender.Open(o))
    ensures sender.recording
  {
    VideoIsKey(payload, o, flags);
  }

  lemma EncodeKeepsTurnsShut(src: Source, net: Network, payload: seq<byte>, flags: uint32, o: Orientation,
                             writeOk: bool)
    requires TurnsShut(src)
    ensures TurnsShut(OnEncode(src, net, payload, flags, o, writeOk).0)
  {
    var src' := OnEncode(src, net, payload, flags, o, writeOk).0;
    var r := MC.Encode(src.sender, src.onlyKeys, payload, flags, o, writeOk);
    if r.1.Some? {
      var x := Sent(r.1.value, |src.Outputs(o)|);
      EncodedIsVideo(src.sender, src.onlyKeys, payload, flags, o, writeOk);
      AppendKeepsTurnsShut(src, src', x);
    }
  }

  lemma RotateKeepsTurnsShut(src: Source, net: Network, to: Orientation, ok: bool)
    requires TurnsShut(src)
    ensures TurnsShut(OnRotate(src, net, to, ok).0)
  {
    var r := MC.Rotate(src.sender, to, ok);
    if r.1.Some? {
      AppendKeepsTurnsShut(src, OnRotate(src, net, to, ok).0, Sent(r.1.value, 0));
    }
  }

  lemma SwitchKeepsTurnsShut(src: Source)
    requires TurnsShut(src)
    ensures TurnsShut(src.Switched())
  {
    SwitchedFields(src, Portrait);
  }

  lemma StepKeepsTurnsShut(s: State, a: Action)
    requires TurnsShut(s.src) && Enabled(s, a)
    ensures TurnsShut(Next(s, a).src)
  {
    match a
    case Encode(payload, flags, o, writeOk) => EncodeKeepsTurnsShut(s.src, s.net, payload, flags, o, writeOk);
    case Rotate(to, ok) => RotateKeepsTurnsShut(s.src, s.net, to, ok);
    case Switch => SwitchKeepsTurnsShut(s.src);
    case _ =>
  }

  /** Every frame that is no key frame was written right after one of its own orientation. */
  ghost predicate Segmented(vs: seq<Sent>) {
    forall i :: 0 <= i < |vs| ==> SegmentedAt(vs, i)
  }

  ghost predicate SegmentedAt(vs: seq<Sent>, i: nat)
    requires i < |vs|
  {
    vs[i].msg.Video? && !IsKey(Body(vs[i].msg)) ==> i > 0 && vs[i - 1].msg.orientation == vs[i].msg.orientation
  }

  lemma SegmentedAppend(vs: seq<Sent>, x: Sent)
    requires Segmented(vs) && x.msg.Video?
    requires !IsKey(Body(x.msg)) ==> vs != [] && vs[|vs| - 1].msg.orientation == x.msg.orientation
    ensures Segmented(vs + [x])
  {
    forall i | 0 <= i < |vs + [x]|
      ensures SegmentedAt(vs + [x], i)
    {
      assert i < |vs| ==> SegmentedAt(vs, i);
    }
  }

  lemma EncodeKeepsSegmented(src: Source, net: Network, payload: seq<byte>, flags: uint32, o: Orientation,
                             writeOk: bool)
    requires var vs := Videos(src.sent);
             && Segmented(vs)
             && (MC.Encode(src.sender, src.onlyKeys, payload, flags, o, writeOk).1.Some? && flags % 2 == 0 ==>
                   vs != [] && vs[|vs| - 1].msg.orientation == o)
    ensures Segmented(Videos(OnEncode(src, net, payload, flags, o, writeOk).0.sent))
  {
    var r := MC.Encode(src.sender, src.onlyKeys, payload, flags, o, writeOk);
    if r.1.Some? {
      var x := Sent(r.1.value, |src.Outputs(o)|);
      EncodedIsVideo(src.sender, src.onlyKeys, payload, flags, o, writeOk);
      VideosAppend(src.sent, x);
      SegmentedAppend(Videos(src.sent), x);
    }
  }

  lemma RotateKeepsVideos(src: Source, net: Network, to: Orientation, ok: bool)
    ensures Videos(OnRotate(src, net, to, ok).0.sent) == Videos(src.sent)
  {
    var r := MC.Rotate(src.sender, to, ok);
    if r.1.Some? {
      VideosAppend(src.sent, Sent(r.1.value, 0));
    }
  }

  lemma StepKeepsSegmented(s: State, a: Action)
    requires Segmented(Videos(s.src.sent)) && Enabled(s, a) && Careful(s, a, BothEnds)
    ensures Segmented(Videos(Next(s, a).src.sent))
  {
    match a
    case Encode(payload, flags, o, writeOk) => EncodeKeepsSegmented(s.src, s.net, payload, flags, o, writeOk);
    case Rotate(to, ok) => RotateKeepsVideos(s.src, s.net, to, ok);
    case _ =>
  }

  // ----- What the decoder meets

  /** The next frame, if it will be fed, is a key frame or follows the picture fed last. When none is
      there, the next one to arrive will. */
  ghost predicate Settled(sent: seq<Sent>, rcv: Receiver, queue: QH.Queue, dec: Decoder) {
    dec.phase.Finished? ||
    match NextUp(queue, dec.phase)
    case Some((packet, at)) => IsKey(packet) || Tag(packet) != rcv.cur.Tag() || Follows(dec.shown, at)
    case None =>
      || Follows(dec.shown, |queue.puts|)
      || (queue.puts != [] && Tag(queue.puts[|queue.puts| - 1]) != rcv.cur.Tag())
      || (rcv.dispatched <= |sent| && !Resumed(sent[..rcv.dispatched], rcv.cur))
  }

  /** Every picture fed is a key frame or was put right after the one fed before it. */
  ghost predicate Smooth(puts: seq<Packet>, shown: seq<nat>) {
    forall i :: 0 <= i < |shown| ==> SmoothAt(puts, shown, i)
  }

  ghost predicate SmoothAt(puts: seq<Packet>, shown: seq<nat>, i: nat)
    requires i < |shown|
  {
    shown[i] < |puts| && (IsKey(puts[shown[i]]) || (i > 0 && shown[i - 1] + 1 == shown[i]))
  }

  /** What the tags of the frames put say: the sender's orientations, in segments. */
  ghost predicate TaggedSegments(puts: seq<Packet>) {
    forall i :: 0 <= i < |puts| ==>
      && (Tag(puts[i]) == 1 || Tag(puts[i]) == 2)
      && (IsKey(puts[i]) || (i > 0 && Tag(puts[i - 1]) == Tag(puts[i])))
  }

  lemma PutsAreSegmented(src: Source, queue: QH.Queue)
    requires SourceOk(src) && queue.puts <= Packets(Videos(src.sent)) && Segmented(Videos(src.sent))
    ensures TaggedSegments(queue.puts)
  {
    forall i | 0 <= i < |queue.puts|
      ensures Tag(queue.puts[i]) == 1 || Tag(queue.puts[i]) == 2
      ensures IsKey(queue.puts[i]) || (i > 0 && Tag(queue.puts[i - 1]) == Tag(queue.puts[i]))
    {
      PutHasTag(src, queue, i);
      assert SegmentedAt(Videos(src.sent), i);
      assert Packets(Videos(src.sent))[i] == Body(Videos(src.sent)[i].msg);
      if i > 0 {
        PutHasTag(src, queue, i - 1);
      }
    }
  }

  lemma TurnKeepsSettled(sent: seq<Sent>, rcv: Receiver, queue: QH.Queue, dec: Decoder, o: Orientation)
    requires rcv.dispatched < |sent| && sent[rcv.dispatched].msg == Turn(o)
    requires !AtRisk(queue, dec.phase, dec.shown, o)
    ensures Settled(sent, Receiver(rcv.dispatched + 1, rcv.active, o), queue, dec)
  {
    var d := rcv.dispatched;
    assert sent[..d + 1] == sent[..d] + [sent[d]];
    ResumedAppend(sent[..d], sent[d], o);
  }

  /** A frame put behind others changes the next one up only to a key frame. */
  lemma NextUpAfterPut(queue: QH.Queue, phase: Consumer, p: Packet)
    requires QH.Contiguous(queue)
    ensures var before, after := NextUp(queue, phase), NextUp(QH.Put(queue, p), phase);
            || after == before
            || (before == None && after == Some((p, |queue.puts|)))
            || (after.Some? && IsKey(after.value.0))
  {
    if !phase.Waiting? && !phase.Holding? && !phase.Finished? && queue.list != [] {
      var k := FirstKey(queue.list);
      var list := queue.list + [p];
      if k < |queue.list| {
        FirstKeyUnique(list, k);
      } else if IsKey(p) {
        FirstKeyUnique(list, k);
      } else {
        NoKeyAfter(queue.list, p);
      }
    }
  }

  lemma {:induction false} NoKeyAfter(list: seq<Packet>, p: Packet)
    requires FirstKey(list) == |list| && !IsKey(p)
    ensures FirstKey(list + [p]) == |list| + 1
  {
    var all := list + [p];
    assert forall i :: 0 <= i < |list| ==> !IsKey(list[i]);
    assert forall i :: 0 <= i < |all| ==> !IsKey(all[i]);
  }

  lemma PutKeepsSettled(sent: seq<Sent>, rcv: Receiver, queue: QH.Queue, dec: Decoder)
    requires Settled(sent, rcv, queue, dec) && QH.Contiguous(queue)
    requires rcv.dispatched < |sent| && sent[rcv.dispatched].msg.Video? && ResumedAt(sent, rcv.dispatched)
    requires var p := Body(sent[rcv.dispatched].msg);
             Tag(p) == sent[rcv.dispatched].msg.orientation.Tag() && TaggedSegments(queue.puts + [p])
    ensures var p: Packet := Body(sent[rcv.dispatched].msg);
            Settled(sent, rcv.(dispatched := rcv.dispatched + 1), QH.Put(queue, p), dec)
  {
    var d := rcv.dispatched;
    var p: Packet := Body(sent[d].msg);
    NextUpAfterPut(queue, dec.phase, p);
    assert sent[..d + 1] == sent[..d] + [sent[d]];
    ResumedAppend(sent[..d], sent[d], rcv.cur);
    var puts := queue.puts + [p];
    assert IsKey(p) || (|queue.puts| > 0 && Tag(puts[|queue.puts| - 1]) == Tag(puts[|queue.puts|]));
  }

  lemma TakeKeepsNextUp(queue: QH.Queue, phase: Consumer)
    requires QH.Contiguous(queue)
    requires phase == Idle || (phase == Waiting && queue.list != [])
    ensures var (queue', phase') := if phase == Idle then OnGetData(queue) else OnWake(queue);
            NextUp(queue', phase') == NextUp(queue, phase) && queue'.puts == queue.puts
  {
  }

  /** The frame after the one in hand is a key frame, or comes right behind it with the same tag. */
  lemma NextAfterHeld(queue: QH.Queue, at: nat)
    requires QH.Contiguous(queue) && QH.Gone(queue) == at + 1 && TaggedSegments(queue.puts)
    ensures queue.list == [] ==> NextUp(queue, Idle) == None && |queue.puts| == at + 1
    ensures queue.list != [] ==>
              var (packet, k) := NextUp(queue, Idle).value;
              IsKey(packet) || (k == at + 1 && at < |queue.puts| && Tag(packet) == Tag(queue.puts[at]))
  {
    if queue.list != [] {
      assert queue.list[0] == queue.puts[at + 1];
      assert IsKey(Drained(queue.list)[0]) || Lag(queue.list) == 0;
    }
  }

  lemma DecodeKeepsSettled(sent: seq<Sent>, rcv: Receiver, queue: QH.Queue, dec: Decoder, ret: bool)
    requires dec.phase.Holding? && QH.Safe(queue) && HoldingOk(dec.phase, queue) && ShownOk(queue, dec)
    requires TaggedSegments(queue.puts)
    ensures Settled(sent, rcv, queue, OnDecode(dec, rcv.cur, ret))
  {
    DecodeKeepsShown(queue, dec, rcv.cur, ret);
    NextAfterHeld(queue, dec.phase.at);
  }

  lemma DecodeKeepsSmooth(sent: seq<Sent>, rcv: Receiver, queue: QH.Queue, dec: Decoder, ret: bool)
    requires dec.phase.Holding? && QH.Ordered(queue) && HoldingOk(dec.phase, queue)
    requires ShownOk(queue, dec) && TaggedSegments(queue.puts)
    requires Settled(sent, rcv, queue, dec) && Smooth(queue.puts, dec.shown)
    ensures Smooth(queue.puts, OnDecode(dec, rcv.cur, ret).shown)
  {
    var shown := OnDecode(dec, rcv.cur, ret).shown;
    DecodeKeepsShown(queue, dec, rcv.cur, ret);
    forall i | 0 <= i < |shown|
      ensures SmoothAt(queue.puts, shown, i)
    {
      assert i < |dec.shown| ==> SmoothAt(queue.puts, dec.shown, i);
    }
  }

  lemma SmoothMoves(puts: seq<Packet>, puts': seq<Packet>, shown: seq<nat>)
    requires Smooth(puts, shown) && puts <= puts'
    ensures Smooth(puts', shown)
  {
    forall i | 0 <= i < |shown|
      ensures SmoothAt(puts', shown, i)
    {
      assert SmoothAt(puts, shown, i);
    }
  }

  // ----- Careful runs

  ghost predicate CarefulInv(s: State) {
    && Inv(s) && ShownOk(s.queue, s.dec) && s.src.tame
    && TurnsShut(s.src) && Segmented(Videos(s.src.sent))
    && Settled(s.src.sent, s.rcv, s.queue, s.dec) && Smooth(s.queue.puts, s.dec.shown)
  }

  lemma SourceStepKeepsSettled(s: State, a: Action)
    requires CarefulInv(s) && Enabled(s, a) && (a.Encode? || a.Rotate? || a.Switch? || a.StopRecording?)
    ensures var t := Next(s, a);
            Settled(t.src.sent, t.rcv, t.queue, t.dec)
  {
    var t := Next(s, a);
    assert s.src.sent <= t.src.sent;
    assert s.src.sent[..s.rcv.dispatched] == t.src.sent[..s.rcv.dispatched];
  }

  lemma ActingKeepsSettled(sent: seq<Sent>, rcv: Receiver, queue: QH.Queue, dec: Decoder)
    requires Settled(sent, rcv, queue, dec) && QH.Contiguous(queue)
    requires rcv.dispatched < |sent| && ResumedAt(sent, rcv.dispatched)
    requires var m := sent[rcv.dispatched].msg;
             if m.Turn? then !AtRisk(queue, dec.phase, dec.shown, m.orientation)
             else TaggedSegments(queue.puts + [Body(m)])
    ensures var r := OnDispatch(rcv, queue, MS.Intended(sent[rcv.dispatched].msg));
            Settled(sent, r.0, r.1, dec)
  {
    var m := sent[rcv.dispatched].msg;
    if m.Turn? {
      TurnKeepsSettled(sent, rcv, queue, dec, m.orientation);
    } else {
      PutKeepsSettled(sent, rcv, queue, dec);
    }
  }

  lemma DispatchKeepsSettled(s: State)
    requires CarefulInv(s) && Enabled(s, Dispatch) && Careful(s, Dispatch, BothEnds)
    requires TaggedSegments(Next(s, Dispatch).queue.puts)
    ensures var t := Next(s, Dispatch);
            Settled(t.src.sent, t.rcv, t.queue, t.dec)
  {
    NextIsMeant(s.src.sent, s.net, s.rcv.dispatched);
    assert ResumedAt(s.src.sent, s.rcv.dispatched);
    ActingKeepsSettled(s.src.sent, s.rcv, s.queue, s.dec);
  }

  lemma SettledMoves(sent: seq<Sent>, rcv: Receiver, queue: QH.Queue, dec: Decoder, queue': QH.Queue, dec': Decoder)
    requires Settled(sent, rcv, queue, dec) && !dec.phase.Finished?
    requires NextUp(queue', dec'.phase) == NextUp(queue, dec.phase) && queue'.puts == queue.puts
    requires dec'.shown == dec.shown
    ensures Settled(sent, rcv, queue', dec')
  {
  }

  lemma StartKeepsSettled(s: State, a: Action)
    requires Settled(s.src.sent, s.rcv, s.queue, s.dec) && Enabled(s, a) && (a.Surface? || a.Begin?)
    ensures var t := Next(s, a);
            Settled(t.src.sent, t.rcv, t.queue, t.dec)
  {
    SettledMoves(s.src.sent, s.rcv, s.queue, s.dec, s.queue, Next(s, a).dec);
  }

  lemma TakeKeepsSettled(s: State, a: Action)
    requires Settled(s.src.sent, s.rcv, s.queue, s.dec) && QH.Contiguous(s.queue)
    requires Enabled(s, a) && (a.GetData? || a.Wake?)
    ensures var t := Next(s, a);
            Settled(t.src.sent, t.rcv, t.queue, t.dec)
  {
    TakeKeepsNextUp(s.queue, s.dec.phase);
    SettledMoves(s.src.sent, s.rcv, s.queue, s.dec, Next(s, a).queue, Next(s, a).dec);
  }

  lemma DecoderStepKeepsSettled(s: State, a: Action)
    requires CarefulInv(s) && Enabled(s, a) && TaggedSegments(s.queue.puts)
    requires a.Surface? || a.Begin? || a.GetData? || a.Wake? || a.Leave? || a.Decode?
    ensures var t := Next(s, a);
            Settled(t.src.sent, t.rcv, t.queue, t.dec)
  {
    if a.Decode? {
      DecodeKeepsSettled(s.src.sent, s.rcv, s.queue, s.dec, a.ret);
    } else if a.GetData? || a.Wake? {
      TakeKeepsSettled(s, a);
    } else if !a.Leave? {
      StartKeepsSettled(s, a);
    }
  }

  lemma StepKeepsSettled(s: State, a: Action)
    requires CarefulInv(s) && Enabled(s, a) && Careful(s, a, BothEnds)
    requires TaggedSegments(s.queue.puts) && TaggedSegments(Next(s, a).queue.puts)
    ensures var t := Next(s, a);
            Settled(t.src.sent, t.rcv, t.queue, t.dec)
  {
    if a.Encode? || a.Rotate? || a.Switch? || a.StopRecording? {
      SourceStepKeepsSettled(s, a);
    } else if a.Dispatch? {
      DispatchKeepsSettled(s);
    } else if !a.Read? && !a.Disconnect? {
      DecoderStepKeepsSettled(s, a);
    }
  }

  lemma StepKeepsSmooth(s: State, a: Action)
    requires CarefulInv(s) && Enabled(s, a) && TaggedSegments(s.queue.puts)
    ensures Smooth(Next(s, a).queue.puts, Next(s, a).dec.shown)
  {
    if a.Decode? {
      DecodeKeepsSmooth(s.src.sent, s.rcv, s.queue, s.dec, a.ret);
    } else {
      SmoothMoves(s.queue.puts, Next(s, a).queue.puts, s.dec.shown);
    }
  }

  lemma CarefulTags(s: State)
    requires Inv(s) && Segmented(Videos(s.src.sent))
    ensures TaggedSegments(s.queue.puts)
  {
    InvDelivers(s);
    PutsAreSegmented(s.src, s.queue);
  }

  lemma StepKeepsTame(s: State, a: Action, care: Care)
    requires s.src.tame && Enabled(s, a) && Careful(s, a, care)
    ensures Next(s, a).src.tame
  {
  }

  lemma StepKeepsCareful(s: State, a: Action)
    requires CarefulInv(s) && Enabled(s, a) && Careful(s, a, BothEnds)
    ensures CarefulInv(Next(s, a))
  {
    StepKeepsInv(s, a);
    StepKeepsShown(s, a);
    StepKeepsTame(s, a, BothEnds);
    StepKeepsTurnsShut(s, a);
    StepKeepsSegmented(s, a);
    CarefulTags(s);
    CarefulTags(Next(s, a));
    StepKeepsSettled(s, a);
    StepKeepsSmooth(s, a);
  }

  lemma {:induction false} RunKeepsCareful(s: State, actions: seq<Action>, t: State)
    requires CarefulInv(s) && CarefullyReaches(s, actions, t, BothEnds)
    ensures CarefulInv(t) && Reaches(s, actions, t)
    decreases |actions|
  {
    if actions != [] {
      StepKeepsCareful(s, actions[0]);
      RunKeepsCareful(Next(s, actions[0]), actions[1..], t);
    }
  }

  lemma {:induction false} RunKeepsTame(s: State, actions: seq<Action>, t: State, care: Care)
    requires s.src.tame && CarefullyReaches(s, actions, t, care)
    ensures t.src.tame
    decreases |actions|
  {
    if actions != [] {
      StepKeepsTame(s, actions[0], care);
      RunKeepsTame(Next(s, actions[0]), actions[1..], t, care);
    }
  }

  lemma InitialIsCareful(onlyKeys: bool, start: Orientation, configs: Configs)
    ensures CarefulInv(Initial(onlyKeys, start, configs))
  {
    InitialInv(onlyKeys, start, configs);
    var s := Initial(onlyKeys, start, configs);
    assert s.src.sent == [] && Videos(s.src.sent) == [] && s.dec.shown == [] && s.queue == QH.EMPTY;
  }

  lemma CarefulRunInv(onlyKeys: bool, start: Orientation, configs: Configs, actions: seq<Action>, t: State)
    requires CarefullyReaches(Initial(onlyKeys, start, configs), actions, t, BothEnds)
    ensures CarefulInv(t) && Reaches(Initial(onlyKeys, start, configs), actions, t)
  {
    InitialIsCareful(onlyKeys, start, configs);
    RunKeepsCareful(Initial(onlyKeys, start, configs), actions, t);
  }

  /** While the frames put come in segments, the chain at a picture is whole exactly if it is a key frame
      or was put right after the picture fed before it. */
  lemma UnbrokenIsSmooth(src: Source, queue: QH.Queue, dec: Decoder, i: nat)
    requires Delivering(src, queue) && src.tame && ShownOk(queue, dec) && TaggedSegments(queue.puts) && i < |dec.shown|
    ensures Unbroken(src, dec.shown, i) <==> SmoothAt(queue.puts, dec.shown, i)
  {
    assert ShownAt(queue, dec, i);
    UnbrokenExactly(src, queue, dec.shown, i);
    var at := dec.shown[i];
    assert IsKey(queue.puts[at]) || (at > 0 && Tag(queue.puts[at - 1]) == Tag(queue.puts[at]));
  }

  lemma SmoothIsUnbroken(t: State)
    requires CarefulInv(t)
    ensures AllUnbroken(t.src, t.dec.shown)
  {
    InvDelivers(t);
    CarefulTags(t);
    forall i | 0 <= i < |t.dec.shown|
      ensures Unbroken(t.src, t.dec.shown, i)
    {
      assert SmoothAt(t.queue.puts, t.dec.shown, i);
      UnbrokenIsSmooth(t.src, t.queue, t.dec, i);
    }
  }

  /** Over every run that keeps the rule, with any rotations, stragglers, drops and interleaving: every
      picture in the codec's input is a key frame, or the picture fed just before it carries the output
      that its encoder put out just before. */
  lemma CarefulRotations(onlyKeys: bool, start: Orientation, configs: Configs, actions: seq<Action>, t: State)
    requires CarefullyReaches(Initial(onlyKeys, start, configs), actions, t, BothEnds)
    ensures Reaches(Initial(onlyKeys, start, configs), actions, t)
    ensures |Pictures(t.dec.fed)| == |t.dec.shown| && AllUnbroken(t.src, t.dec.shown)
  {
    CarefulRunInv(onlyKeys, start, configs, actions, t);
    SmoothIsUnbroken(t);
  }

  // ----- Breaking the rule

  /** What the decoder thread does to have its next frame in hand. */
  function ToHold(phase: Consumer): seq<Action> {
    match phase
    case NotStarted => [Surface, Begin, GetData]
    case Created => [Begin, GetData]
    case Idle => [GetData]
    case Waiting => [Wake]
    case _ => []
  }

  /** The decoder thread is not stopped. */
  predicate Goes(s: State) { s.playing || s.dec.phase == NotStarted }

  lemma {:induction false} ReachesAppend(s: State, actions: seq<Action>, t: State, a: Action)
    requires Reaches(s, actions, t) && Enabled(t, a)
    ensures Reaches(s, actions + [a], Next(t, a))
    decreases |actions|
  {
    if actions == [] {
      assert ([a])[1..] == [];
    } else {
      assert (actions + [a])[1..] == actions[1..] + [a];
      ReachesAppend(Next(s, actions[0]), actions[1..], t, a);
    }
  }

  lemma ReachesAfter(s: State, a: Action, rest: seq<Action>, t: State)
    requires Enabled(s, a) && Reaches(Next(s, a), rest, t)
    ensures Reaches(s, [a] + rest, t)
  {
    assert ([a] + rest)[1..] == rest;
  }

  lemma TwoStepsReach(s: State, a: Action, b: Action)
    requires Enabled(s, a) && Enabled(Next(s, a), b)
    ensures Reaches(s, [a, b], Next(Next(s, a), b))
  {
    ReachesAfter(Next(s, a), b, [], Next(Next(s, a), b));
    assert [b] + [] == [b];
    ReachesAfter(s, a, [b], Next(Next(s, a), b));
    assert [a] + [b] == [a, b];
  }

  lemma {:induction false} ReachesConcat(s: State, before: seq<Action>, t: State, after: seq<Action>, u: State)
    requires Reaches(s, before, t) && Reaches(t, after, u)
    ensures Reaches(s, before + after, u)
    decreases |before|
  {
    if before == [] {
      assert before + after == after;
    } else {
      ReachesConcat(Next(s, before[0]), before[1..], t, after, u);
      ReachesAfter(s, before[0], before[1..] + after, u);
      assert [before[0]] + (before[1..] + after) == before + after;
    }
  }

  lemma TurnsTo(s: State, o: Orientation)
    requires Enabled(s, Dispatch) && MS.Parse(s.net.consumed)[s.rcv.dispatched] == MS.Orient(o)
    ensures Next(s, Dispatch) == s.(rcv := Receiver(s.rcv.dispatched + 1, s.rcv.active, o))
  {
  }

  lemma TakeHolds(queue: QH.Queue, phase: Consumer)
    requires QH.Gone(queue) >= 0 && queue.list != [] && (phase.Idle? || phase.Waiting?)
    ensures var phase' := if phase.Idle? then OnGetData(queue).1 else OnWake(queue).1;
            && phase'.Holding? && NextUp(queue, phase) == Some((phase'.packet, phase'.at as int))
  {
  }

  /** The next step of the decoder thread, if it holds no frame. */
  function Onward(phase: Consumer): Action {
    match phase
    case NotStarted => Surface
    case Created => Begin
    case Waiting => Wake
    case _ => GetData
  }

  lemma StartsOnward(s: State)
    requires s.dec.phase.NotStarted? || (s.dec.phase.Created? && s.playing)
    ensures var a := Onward(s.dec.phase);
            && Enabled(s, a) && ToHold(s.dec.phase) == [a] + ToHold(Next(s, a).dec.phase)
            && var t := Next(s, a);
               && Goes(t) && t.src == s.src && t.rcv == s.rcv && t.dec.shown == s.dec.shown
               && NextUp(t.queue, t.dec.phase) == NextUp(s.queue, s.dec.phase)
  {
  }

  lemma TakesOnward(s: State)
    requires QH.Contiguous(s.queue) && s.playing && (s.dec.phase.Idle? || s.dec.phase.Waiting?)
    requires s.queue.list != []
    ensures var a := Onward(s.dec.phase);
            && Enabled(s, a) && ToHold(s.dec.phase) == [a] + ToHold(Next(s, a).dec.phase)
            && var t := Next(s, a);
               && Goes(t) && t.src == s.src && t.rcv == s.rcv && t.dec.shown == s.dec.shown
               && NextUp(t.queue, t.dec.phase) == NextUp(s.queue, s.dec.phase)
  {
    TakeHolds(s.queue, s.dec.phase);
  }

  lemma StepsOnward(s: State)
    requires QH.Contiguous(s.queue) && Goes(s)
    requires NextUp(s.queue, s.dec.phase).Some? && !s.dec.phase.Holding?
    ensures var a := Onward(s.dec.phase);
            && Enabled(s, a) && Careful(s, a, BothEnds) && ToHold(s.dec.phase) == [a] + ToHold(Next(s, a).dec.phase)
            && var t := Next(s, a);
               && Goes(t) && t.src == s.src && t.rcv == s.rcv && t.dec.shown == s.dec.shown
               && NextUp(t.queue, t.dec.phase) == NextUp(s.queue, s.dec.phase)
  {
    if s.dec.phase.NotStarted? || s.dec.phase.Created? {
      StartsOnward(s);
    } else {
      TakesOnward(s);
    }
  }

  lemma CarefulAfter(s: State, a: Action, rest: seq<Action>, t: State)
    requires Enabled(s, a) && Careful(s, a, BothEnds)
    requires Reaches(Next(s, a), rest, t) && CarefullyReaches(Next(s, a), rest, t, BothEnds)
    ensures Reaches(s, [a] + rest, t) && CarefullyReaches(s, [a] + rest, t, BothEnds)
  {
    assert ([a] + rest)[1..] == rest;
  }

  /** The decoder thread takes its next frame in hand. */
  lemma {:induction false} TakesNext(s: State) returns (t: State)
    requires Inv(s) && ShownOk(s.queue, s.dec) && Goes(s) && NextUp(s.queue, s.dec.phase).Some?
    ensures Reaches(s, ToHold(s.dec.phase), t) && CarefullyReaches(s, ToHold(s.dec.phase), t, BothEnds)
    ensures Inv(t) && ShownOk(t.queue, t.dec)
    ensures t.src == s.src && t.rcv == s.rcv && t.dec.shown == s.dec.shown
    ensures var (packet, at) := NextUp(s.queue, s.dec.phase).value;
            at >= 0 && t.dec.phase == Holding(packet, at)
    decreases |ToHold(s.dec.phase)|
  {
    if s.dec.phase.Holding? {
      t := s;
    } else {
      var a := Onward(s.dec.phase);
      StepsOnward(s);
      StepKeepsInv(s, a);
      StepKeepsShown(s, a);
      t := TakesNext(Next(s, a));
      CarefulAfter(s, a, ToHold(Next(s, a).dec.phase), t);
    }
  }

  /** A frame that is no key frame, fed though the frame before it was not: the chain is broken there. */
  lemma FeedsOutOfTurn(s: State)
    requires Inv(s) && ShownOk(s.queue, s.dec) && Segmented(Videos(s.src.sent)) && s.src.tame && s.dec.phase.Holding?
    requires !IsKey(s.dec.phase.packet) && Tag(s.dec.phase.packet) == s.rcv.cur.Tag()
    requires !Follows(s.dec.shown, s.dec.phase.at)
    ensures Enabled(s, Decode(true))
    ensures var t := Next(s, Decode(true));
            !AllUnbroken(t.src, t.dec.shown)
  {
    var t, n := Next(s, Decode(true)), |s.dec.shown|;
    DecodeKeepsShown(s.queue, s.dec, s.rcv.cur, true);
    StepKeepsShown(s, Decode(true));
    StepKeepsInv(s, Decode(true));
    InvDelivers(t);
    CarefulTags(t);
    UnbrokenIsSmooth(t.src, t.queue, t.dec, n);
    assert !SmoothAt(t.queue.puts, t.dec.shown, n);
  }

  lemma {:induction false} RiskyTurn(s: State) returns (t: State)
    requires Inv(s) && ShownOk(s.queue, s.dec) && Segmented(Videos(s.src.sent)) && s.src.tame && Goes(s)
    requires AtRisk(s.queue, s.dec.phase, s.dec.shown, s.rcv.cur)
    ensures Reaches(s, ToHold(s.dec.phase) + [Decode(true)], t)
    ensures !AllUnbroken(t.src, t.dec.shown)
  {
    var s' := TakesNext(s);
    FeedsOutOfTurn(s');
    t := Next(s', Decode(true));
    ReachesAppend(s, ToHold(s.dec.phase), s', Decode(true));
  }

  lemma {:induction false} SafeTurn(s: State) returns (t: State)
    requires CarefulInv(s) && Goes(s) && NextUp(s.queue, s.dec.phase).Some?
    ensures Reaches(s, ToHold(s.dec.phase) + [Decode(true)], t)
    ensures AllUnbroken(t.src, t.dec.shown)
  {
    var s' := TakesNext(s);
    RunKeepsCareful(s, ToHold(s.dec.phase), s');
    t := Next(s', Decode(true));
    StepKeepsCareful(s', Decode(true));
    SmoothIsUnbroken(t);
    ReachesAppend(s, ToHold(s.dec.phase), s', Decode(true));
  }

  /** The rule for the receive thread is exact: when a careful run has come to a rotation and a frame is
      waiting or in hand, then acting on the rotation and decoding that frame leaves the chain whole if
      and only if nothing was at risk. */
  lemma {:induction false} TurningBreaksExactly(onlyKeys: bool, start: Orientation, configs: Configs,
                                                actions: seq<Action>, s: State, o: Orientation) returns (t: State)
    requires CarefullyReaches(Initial(onlyKeys, start, configs), actions, s, BothEnds)
    requires Enabled(s, Dispatch) && MS.Parse(s.net.consumed)[s.rcv.dispatched] == MS.Orient(o)
    requires Goes(s) && NextUp(s.queue, s.dec.phase).Some?
    ensures Reaches(s, [Dispatch] + (ToHold(s.dec.phase) + [Decode(true)]), t)
    ensures AllUnbroken(t.src, t.dec.shown) <==> !AtRisk(s.queue, s.dec.phase, s.dec.shown, o)
  {
    CarefulRunInv(onlyKeys, start, configs, actions, s);
    t := TurnAndDecode(s, o);
    ReachesAfter(s, Dispatch, ToHold(s.dec.phase) + [Decode(true)], t);
  }

  lemma {:induction false} TurnAndDecode(s: State, o: Orientation) returns (t: State)
    requires CarefulInv(s) && Goes(s) && NextUp(s.queue, s.dec.phase).Some?
    requires Enabled(s, Dispatch) && MS.Parse(s.net.consumed)[s.rcv.dispatched] == MS.Orient(o)
    ensures Reaches(Next(s, Dispatch), ToHold(s.dec.phase) + [Decode(true)], t)
    ensures AllUnbroken(t.src, t.dec.shown) <==> !AtRisk(s.queue, s.dec.phase, s.dec.shown, o)
  {
    TurnsTo(s, o);
    if AtRisk(s.queue, s.dec.phase, s.dec.shown, o) {
      StepKeepsInv(s, Dispatch);
      StepKeepsShown(s, Dispatch);
      t := RiskyTurn(Next(s, Dispatch));
    } else {
      StepKeepsCareful(s, Dispatch);
      t := SafeTurn(Next(s, Dispatch));
    }
  }

  /** A rule that the receive thread can keep without knowing what was fed. */
  lemma NoneWaitingIsSafe(queue: QH.Queue, phase: Consumer, shown: seq<nat>, o: Orientation)
    requires forall p :: p in queue.list ==> Tag(p) != o.Tag()
    requires phase.Holding? ==> Tag(phase.packet) != o.Tag()
    ensures !AtRisk(queue, phase, shown, o)
  {
    if queue.list != [] {
      assert Drained(queue.list)[0] == queue.list[Lag(queue.list)];
    }
  }
}

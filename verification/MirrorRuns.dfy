/** Runs in which a rotation leaves the codec without a frame that it needs: neither half of the rule
    in MirrorCareful can be left out. */
module MirrorRuns {
  import opened Bytes
  import opened Wrappers
  import opened Protocol
  import opened MediaData
  import opened MirrorSession
  import opened MirrorTheorems
  import opened MirrorRotations
  import opened MirrorCareful
  import opened MirrorEncoder
  import MC = MediaCodec
  import MS = MediaServer
  import QH = QueueHistory

  // ----- Runs, an action at a time

  /** A run with the states it passes through. */
  datatype Run = Run(states: seq<State>, actions: seq<Action>) {
    ghost predicate Valid(care: Care) {
      |states| == |actions| + 1 && forall i :: 0 <= i < |actions| ==> Step(i, care)
    }

    ghost predicate Step(i: nat, care: Care)
      requires i < |actions| < |states|
    {
      && Enabled(states[i], actions[i]) && Careful(states[i], actions[i], care)
      && states[i + 1] == Next(states[i], actions[i])
    }

    ghost predicate From(s: State, care: Care) { Valid(care) && states[0] == s }

    function End(): State
      requires states != []
    {
      states[|states| - 1]
    }

    function Then(a: Action): Run
      requires states != [] && Enabled(End(), a)
    {
      Run(states + [Next(End(), a)], actions + [a])
    }
  }

  lemma Extends(run: Run, s0: State, a: Action, care: Care)
    requires run.From(s0, care) && Enabled(run.End(), a) && Careful(run.End(), a, care)
    ensures run.Then(a).From(s0, care) && run.Then(a).End() == Next(run.End(), a)
  {
    var longer := run.Then(a);
    forall i | 0 <= i < |longer.actions|
      ensures longer.Step(i, care)
    {
      assert i < |run.actions| ==> run.Step(i, care);
    }
  }

  lemma {:induction false} RunReachesFrom(run: Run, care: Care, i: nat)
    requires run.Valid(care) && i <= |run.actions|
    ensures CarefullyReaches(run.states[i], run.actions[i..], run.End(), care)
    ensures Reaches(run.states[i], run.actions[i..], run.End())
    decreases |run.actions| - i
  {
    if i < |run.actions| {
      assert run.Step(i, care);
      RunReachesFrom(run, care, i + 1);
      assert run.actions[i..][1..] == run.actions[i + 1..];
    }
  }

  lemma RunReaches(run: Run, s0: State, care: Care)
    requires run.From(s0, care)
    ensures CarefullyReaches(s0, run.actions, run.End(), care) && Reaches(s0, run.actions, run.End())
  {
    RunReachesFrom(run, care, 0);
    assert run.actions[0..] == run.actions;
  }

  predicate Sendable(m: Message) { Fits(m) && MS.Distinguishable(m) }

  /** The sender has written `ms`, and the other threads have not moved. */
  ghost predicate Wrote(s: State, start: Orientation, ms: seq<Message>) {
    && Messages(s.src.sent) == ms && s.net.consumed == [] && s.src.sender.recording && !s.src.onlyKeys
    && s.rcv == Receiver(0, true, start) && s.playing && s.queue == QH.EMPTY
    && s.dec.phase == Idle && s.dec.shown == []
  }

  /** Nothing has happened yet. */
  ghost predicate Untouched(s: State, start: Orientation) {
    && Messages(s.src.sent) == [] && s.net.consumed == [] && s.src.sender.recording && !s.src.onlyKeys
    && s.rcv == Receiver(0, true, start) && s.queue == QH.EMPTY && s.dec.phase == NotStarted && s.dec.shown == []
  }

  /** What has been read, what has been acted on, and the frames. */
  datatype View = View(
    events: seq<MS.Event>, done: nat, cur: Orientation, list: seq<Packet>, puts: seq<Packet>,
    phase: Consumer, shown: seq<nat>)
  {
    predicate AtRisk(o: Orientation) { MirrorCareful.AtRisk(QH.Queue(list, puts, [], []), phase, shown, o) }

    function Put(p: Packet): View { this.(done := done + 1, list := list + [p], puts := puts + [p]) }

    function Turned(o: Orientation): View { this.(done := done + 1, cur := o) }

    function Taken(): View
      requires list != [] && |list| <= |puts|
    {
      this.(list := list[1..], phase := Holding(list[0], |puts| - |list|))
    }

    function Decoded(): View
      requires phase.Holding?
    {
      this.(phase := Idle, shown := if TagFits(Tag(phase.packet), cur) then shown + [phase.at] else shown)
    }
  }

  ghost predicate Looks(s: State, v: View) {
    && MS.Parse(s.net.consumed) == v.events && s.rcv == Receiver(v.done, true, v.cur) && s.playing
    && s.queue.list == v.list && s.queue.puts == v.puts
    && s.dec.phase == v.phase && s.dec.shown == v.shown
  }

  /** No output is put out between the two. */
  predicate Quiet(run: Run, run': Run) {
    run.actions <= run'.actions && forall i :: |run.actions| <= i < |run'.actions| ==> !run'.actions[i].Encode?
  }

  // ----- Steps of the sender

  lemma PassesGate(sender: MC.Sender, payload: seq<byte>, flags: uint32, o: Orientation)
    requires sender.recording && (flags % 2 == 1 || sender.Open(o))
    ensures MC.Encode(sender, false, payload, flags, o, true) ==
              (sender.SetOpen(o, true), Some(Video(payload, o, flags % 256)))
  {
  }

  lemma WroteMore(s: State, start: Orientation, ms: seq<Message>, t: State, x: Sent)
    requires Wrote(s, start, ms)
    requires t == s.(src := t.src, net := t.net) && t.net.consumed == []
    requires t.src.sent == s.src.sent + [x] && t.src.sender.recording && !t.src.onlyKeys
    ensures Wrote(t, start, ms + [x.msg])
  {
    VideosAppend(s.src.sent, x);
  }

  lemma WritesFrame(s: State, start: Orientation, ms: seq<Message>, payload: seq<byte>, flags: uint32, o: Orientation)
    requires Wrote(s, start, ms) && Sendable(Video(payload, o, flags % 256))
    requires flags % 2 == 1 || s.src.sender.Open(o)
    ensures var t := Next(s, Encode(payload, flags, o, true));
            && Wrote(t, start, ms + [Video(payload, o, flags % 256)])
            && t.src.sender == s.src.sender.SetOpen(o, true) && LastFrameIs(t.src, o)
  {
    var x := Sent(Video(payload, o, flags % 256), |s.src.Outputs(o)|);
    PassesGate(s.src.sender, payload, flags, o);
    WroteMore(s, start, ms, Next(s, Encode(payload, flags, o, true)), x);
    VideosAppend(s.src.sent, x);
  }

  /** The run has brought the sender to have written `ms`. */
  ghost predicate Written(run: Run, s0: State, care: Care, start: Orientation, ms: seq<Message>) {
    run.From(s0, care) && Wrote(run.End(), start, ms)
  }

  /** The run has brought the receiver to look like this. */
  ghost predicate Shows(run: Run, s0: State, care: Care, v: View) {
    run.From(s0, care) && Looks(run.End(), v)
  }

  lemma WriteFrame(run: Run, s0: State, care: Care, start: Orientation, ms: seq<Message>,
                   payload: seq<byte>, flags: uint32, o: Orientation) returns (run': Run)
    requires Written(run, s0, care, start, ms) && Sendable(Video(payload, o, flags % 256))
    requires flags % 2 == 0 ==> run.End().src.sender.Open(o) && (care == BothEnds ==> LastFrameIs(run.End().src, o))
    ensures Written(run', s0, care, start, ms + [Video(payload, o, flags % 256)])
    ensures run'.End().src.sender == run.End().src.sender.SetOpen(o, true) && LastFrameIs(run'.End().src, o)
    ensures run'.actions == run.actions + [Encode(payload, flags, o, true)]
  {
    var a := Encode(payload, flags, o, true);
    WritesFrame(run.End(), start, ms, payload, flags, o);
    Extends(run, s0, a, care);
    run' := run.Then(a);
  }

  lemma WriteTurn(run: Run, s0: State, care: Care, start: Orientation, ms: seq<Message>, o: Orientation)
    returns (run': Run)
    requires Written(run, s0, care, start, ms)
    ensures Written(run', s0, care, start, ms + [Turn(o)])
    ensures run'.End().src.sender == run.End().src.sender.SetOpen(o, false)
    ensures Quiet(run, run')
  {
    var s, a := run.End(), Rotate(o, true);
    WroteMore(s, start, ms, Next(s, a), Sent(Turn(o), 0));
    Extends(run, s0, a, care);
    run' := run.Then(a);
  }

  lemma WireCarries(s: State, start: Orientation, ms: seq<Message>)
    requires Wrote(s, start, ms) && Inv(s) && ms != []
    ensures s.net.wire != [] && MS.Parse(s.net.wire) == MS.Meant(ms)
  {
    WireIsMeant(s.src.sent, s.net);
  }

  lemma EndInv(run: Run, s0: State, care: Care)
    requires run.From(s0, care) && Inv(s0)
    ensures Inv(run.End())
  {
    RunReaches(run, s0, care);
    RunKeepsInv(s0, run.actions, run.End());
  }

  lemma ReadAll(run: Run, s0: State, care: Care, start: Orientation, ms: seq<Message>) returns (run': Run)
    requires Written(run, s0, care, start, ms) && ms != [] && Inv(s0)
    ensures Shows(run', s0, care, View(MS.Meant(ms), 0, start, [], [], Idle, []))
    ensures Quiet(run, run')
  {
    var s := run.End();
    var a := Read(|s.net.wire|);
    EndInv(run, s0, care);
    WireCarries(s, start, ms);
    AllIsRead(s, s.net.wire);
    Extends(run, s0, a, care);
    run' := run.Then(a);
  }

  // ----- Steps of the receiver

  lemma PutNext(run: Run, s0: State, care: Care, v: View, p: Packet) returns (run': Run)
    requires Shows(run, s0, care, v) && v.done < |v.events| && v.events[v.done] == MS.Put(p)
    ensures Shows(run', s0, care, v.Put(p))
    ensures Quiet(run, run')
  {
    Extends(run, s0, Dispatch, care);
    run' := run.Then(Dispatch);
  }

  lemma TurnNext(run: Run, s0: State, care: Care, v: View, o: Orientation) returns (run': Run)
    requires Shows(run, s0, care, v) && v.done < |v.events| && v.events[v.done] == MS.Orient(o) && !v.AtRisk(o)
    ensures Shows(run', s0, care, v.Turned(o))
    ensures Quiet(run, run')
  {
    TurnsTo(run.End(), o);
    Extends(run, s0, Dispatch, care);
    run' := run.Then(Dispatch);
  }

  lemma TakeFront(run: Run, s0: State, care: Care, v: View) returns (run': Run)
    requires Shows(run, s0, care, v)
    requires v.phase.Idle? && v.list != [] && |v.list| <= |v.puts| && Lag(v.list) == 0
    ensures Shows(run', s0, care, v.Taken())
    ensures Quiet(run, run')
  {
    QH.TakeIsTakeAt(run.End().queue);
    Extends(run, s0, GetData, care);
    run' := run.Then(GetData);
  }

  lemma DecodeHeld(run: Run, s0: State, care: Care, v: View) returns (run': Run)
    requires Shows(run, s0, care, v) && v.phase.Holding? && |v.phase.packet| >= 2
    ensures Shows(run', s0, care, v.Decoded())
    ensures Quiet(run, run')
  {
    DecodeShows(run.End().dec, v.cur, true);
    Extends(run, s0, Decode(true), care);
    run' := run.Then(Decode(true));
  }

  lemma NothingHappened(configs: Configs)
    ensures var s := Initial(false, Portrait, configs);
            Inv(s) && Untouched(s, Portrait)
  {
    InitialInv(false, Portrait, configs);
  }

  // ----- Turned back while frames wait

  lemma FrameIs(payload: seq<byte>, flags: byte, o: Orientation)
    ensures var p: Packet := Body(Video(payload, o, flags));
            |p| >= 2 && Tag(p) == o.Tag() && (IsKey(p) <==> flags % 2 == 1)
  {
    var p: Packet := Body(Video(payload, o, flags));
    assert p[|p| - 1] == flags && p[|p| - 2] == o.Tag();
  }

  /** Three frames of one orientation, the last two no key frames. */
  predicate OneChain(p0: Packet, p1: Packet, p2: Packet) {
    && |p0| >= 2 && |p1| >= 2 && |p2| >= 2
    && Tag(p0) == Tag(p1) == Tag(p2) == 1 && IsKey(p0) && !IsKey(p1) && !IsKey(p2)
  }

  lemma ThreeFrames(key: seq<byte>, delta: seq<byte>, next: seq<byte>)
    ensures OneChain(Body(Video(key, Portrait, 1)), Body(Video(delta, Portrait, 0)), Body(Video(next, Portrait, 0)))
  {
    FrameIs(key, 1, Portrait);
    FrameIs(delta, 0, Portrait);
    FrameIs(next, 0, Portrait);
  }

  lemma StartDecoder(s0: State, care: Care, start: Orientation) returns (run: Run)
    requires Untouched(s0, start)
    ensures Written(run, s0, care, start, []) && run.actions == [Surface, Begin]
  {
    run := Run([s0], []);
    Extends(run, s0, Surface, care);
    run := run.Then(Surface);
    Extends(run, s0, Begin, care);
    run := run.Then(Begin);
  }

  /** The decoder starts, and the first frame written is a key frame. */
  lemma SendFirst(s0: State, care: Care, key: seq<byte>) returns (run: Run)
    requires Untouched(s0, Portrait) && Sendable(Video(key, Portrait, 1))
    ensures Written(run, s0, care, Portrait, [Video(key, Portrait, 1)])
    ensures run.End().src.sender.Open(Portrait) && LastFrameIs(run.End().src, Portrait)
    ensures run.actions == [Surface, Begin, Encode(key, 1, Portrait, true)]
  {
    run := StartDecoder(s0, care, Portrait);
    run := WriteFrame(run, s0, care, Portrait, [], key, 1, Portrait);
    assert [] + [Video(key, Portrait, 1)] == [Video(key, Portrait, 1)];
  }

  lemma SendTwo(run: Run, s0: State, ms: seq<Message>, delta: seq<byte>, next: seq<byte>) returns (run': Run)
    requires Written(run, s0, BothEnds, Portrait, ms)
    requires run.End().src.sender.Open(Portrait) && LastFrameIs(run.End().src, Portrait)
    requires Sendable(Video(delta, Portrait, 0)) && Sendable(Video(next, Portrait, 0))
    ensures Written(run', s0, BothEnds, Portrait, ms + [Video(delta, Portrait, 0)] + [Video(next, Portrait, 0)])
    ensures run'.actions == run.actions + [Encode(delta, 0, Portrait, true)] + [Encode(next, 0, Portrait, true)]
  {
    run' := WriteFrame(run, s0, BothEnds, Portrait, ms, delta, 0, Portrait);
    run' := WriteFrame(run', s0, BothEnds, Portrait, ms + [Video(delta, Portrait, 0)], next, 0, Portrait);
  }

  lemma TurnThenRead(run: Run, s0: State, care: Care, ms: seq<Message>) returns (run': Run)
    requires Inv(s0) && Written(run, s0, care, Portrait, ms)
    ensures Shows(run', s0, care, View(MS.Meant(ms + [Turn(Portrait)]), 0, Portrait, [], [], Idle, []))
    ensures Quiet(run, run')
  {
    run' := WriteTurn(run, s0, care, Portrait, ms, Portrait);
    run' := ReadAll(run', s0, care, Portrait, ms + [Turn(Portrait)]);
  }

  lemma TurnAndReturn(run: Run, s0: State, ms: seq<Message>) returns (run': Run)
    requires Inv(s0) && Written(run, s0, BothEnds, Portrait, ms)
    ensures Shows(run', s0, BothEnds,
                  View(MS.Meant(ms + [Turn(Landscape)] + [Turn(Portrait)]), 0, Portrait, [], [], Idle, []))
    ensures Quiet(run, run')
  {
    run' := WriteTurn(run, s0, BothEnds, Portrait, ms, Landscape);
    run' := TurnThenRead(run', s0, BothEnds, ms + [Turn(Landscape)]);
  }

  /** The events of a frame, two more, a rotation and the rotation back. */
  predicate ThreeAndBack(es: seq<MS.Event>, p0: Packet, p1: Packet, p2: Packet) {
    && |es| == 5 && es[0] == MS.Put(p0) && es[1] == MS.Put(p1) && es[2] == MS.Put(p2)
    && es[3] == MS.Orient(Landscape) && es[4] == MS.Orient(Portrait)
  }

  lemma ThreeAndBackMeant(m0: Message, m1: Message, m2: Message)
    requires m0.Video? && m1.Video? && m2.Video?
    ensures ThreeAndBack(MS.Meant([m0] + [m1] + [m2] + [Turn(Landscape)] + [Turn(Portrait)]),
                         Body(m0), Body(m1), Body(m2))
  {
  }

  /** The portrait encoder puts out three frames once the decoder has started, and no encoder another. */
  predicate AllPortrait(actions: seq<Action>) {
    && |actions| >= 5 && actions[0] == Surface && actions[1] == Begin
    && forall i :: 0 <= i < |actions| ==> if 2 <= i < 5 then actions[i].Encode? && actions[i].o == Portrait
                                          else !actions[i].Encode?
  }

  lemma SendThree(s0: State, key: seq<byte>, delta: seq<byte>, next: seq<byte>) returns (run: Run)
    requires Untouched(s0, Portrait)
    requires Sendable(Video(key, Portrait, 1)) && Sendable(Video(delta, Portrait, 0))
    requires Sendable(Video(next, Portrait, 0))
    ensures Written(run, s0, BothEnds, Portrait,
                    [Video(key, Portrait, 1)] + [Video(delta, Portrait, 0)] + [Video(next, Portrait, 0)])
    ensures AllPortrait(run.actions)
  {
    run := SendFirst(s0, BothEnds, key);
    run := SendTwo(run, s0, [Video(key, Portrait, 1)], delta, next);
  }

  lemma ThreeAndBackArrive(s0: State, key: seq<byte>, delta: seq<byte>, next: seq<byte>)
    returns (es: seq<MS.Event>, run: Run)
    requires Inv(s0) && Untouched(s0, Portrait)
    requires Sendable(Video(key, Portrait, 1)) && Sendable(Video(delta, Portrait, 0))
    requires Sendable(Video(next, Portrait, 0))
    ensures Shows(run, s0, BothEnds, View(es, 0, Portrait, [], [], Idle, []))
    ensures ThreeAndBack(es, Body(Video(key, Portrait, 1)), Body(Video(delta, Portrait, 0)),
                         Body(Video(next, Portrait, 0)))
    ensures AllPortrait(run.actions)
  {
    var m0, m1, m2 := Video(key, Portrait, 1), Video(delta, Portrait, 0), Video(next, Portrait, 0);
    var sent := SendThree(s0, key, delta, next);
    run := TurnAndReturn(sent, s0, [m0] + [m1] + [m2]);
    QuietKeepsAll(sent, run);
    es := MS.Meant([m0] + [m1] + [m2] + [Turn(Landscape)] + [Turn(Portrait)]);
    ThreeAndBackMeant(m0, m1, m2);
  }

  lemma PutThree(run: Run, s0: State, es: seq<MS.Event>, p0: Packet, p1: Packet, p2: Packet) returns (run': Run)
    requires Shows(run, s0, BothEnds, View(es, 0, Portrait, [], [], Idle, [])) && ThreeAndBack(es, p0, p1, p2)
    ensures Shows(run', s0, BothEnds, View(es, 3, Portrait, [p0, p1, p2], [p0, p1, p2], Idle, []))
    ensures Quiet(run, run')
  {
    var v := View(es, 0, Portrait, [], [], Idle, []);
    run' := PutNext(run, s0, BothEnds, v, p0);
    run' := PutNext(run', s0, BothEnds, v.Put(p0), p1);
    run' := PutNext(run', s0, BothEnds, v.Put(p0).Put(p1), p2);
    assert v.Put(p0).Put(p1).Put(p2) == View(es, 3, Portrait, [p0, p1, p2], [p0, p1, p2], Idle, []);
  }

  /** The first frame is fed and the second one skipped, because the window has been turned. */
  lemma SkipsSecond(run: Run, s0: State, es: seq<MS.Event>, p0: Packet, p1: Packet, p2: Packet) returns (run': Run)
    requires Shows(run, s0, BothEnds, View(es, 3, Portrait, [p0, p1, p2], [p0, p1, p2], Idle, []))
    requires OneChain(p0, p1, p2) && ThreeAndBack(es, p0, p1, p2)
    ensures Shows(run', s0, BothEnds, View(es, 4, Landscape, [p2], [p0, p1, p2], Idle, [0]))
    ensures Quiet(run, run')
  {
    var v := View(es, 3, Portrait, [p0, p1, p2], [p0, p1, p2], Idle, []);
    FirstKeyUnique(v.list, 0);
    run' := TakeFront(run, s0, BothEnds, v);
    run' := DecodeHeld(run', s0, BothEnds, v.Taken());
    var v' := View(es, 3, Portrait, [p1, p2], [p0, p1, p2], Idle, [0]);
    assert v.Taken().Decoded() == v';
    run' := TakeFront(run', s0, BothEnds, v');
    run' := TurnNext(run', s0, BothEnds, v'.Taken(), Landscape);
    run' := DecodeHeld(run', s0, BothEnds, v'.Taken().Turned(Landscape));
    assert v'.Taken().Turned(Landscape).Decoded() == View(es, 4, Landscape, [p2], [p0, p1, p2], Idle, [0]);
  }

  /** Turned back, the window suits the third frame again. */
  lemma {:induction false} FeedsThird(s: State, es: seq<MS.Event>, p0: Packet, p1: Packet, p2: Packet)
    returns (t: State)
    requires Looks(s, View(es, 4, Landscape, [p2], [p0, p1, p2], Idle, [0]))
    requires OneChain(p0, p1, p2) && ThreeAndBack(es, p0, p1, p2)
    ensures AtRisk(s.queue, s.dec.phase, s.dec.shown, Portrait)
    ensures Reaches(s, [Dispatch, GetData, Decode(true)], t) && t.src == s.src
    ensures Looks(t, View(es, 5, Portrait, [], [p0, p1, p2], Idle, [0, 2]))
  {
    TurnsTo(s, Portrait);
    var s1 := Next(s, Dispatch);
    QH.TakeIsTakeAt(s1.queue);
    assert QH.Gone(s1.queue) == 2 && Drained([p2]) == [p2];
    var s2 := Next(s1, GetData);
    assert s2.dec.phase == Holding(p2, 2);
    DecodeShows(s2.dec, Portrait, true);
    t := Next(s2, Decode(true));
    assert [Decode(true)][1..] == [] && [GetData, Decode(true)][1..] == [Decode(true)];
    assert [Dispatch, GetData, Decode(true)][1..] == [GetData, Decode(true)];
  }

  lemma QuietKeepsAll(run: Run, run': Run)
    requires AllPortrait(run.actions) && Quiet(run, run')
    ensures AllPortrait(run'.actions)
  {
  }

  lemma SkipRun(s0: State, key: seq<byte>, delta: seq<byte>, next: seq<byte>) returns (es: seq<MS.Event>, run: Run)
    requires Inv(s0) && Untouched(s0, Portrait)
    requires Sendable(Video(key, Portrait, 1)) && Sendable(Video(delta, Portrait, 0))
    requires Sendable(Video(next, Portrait, 0))
    ensures AllPortrait(run.actions)
    ensures var p0: Packet, p1: Packet, p2: Packet :=
              Body(Video(key, Portrait, 1)), Body(Video(delta, Portrait, 0)), Body(Video(next, Portrait, 0));
            && OneChain(p0, p1, p2) && ThreeAndBack(es, p0, p1, p2)
            && Shows(run, s0, BothEnds, View(es, 4, Landscape, [p2], [p0, p1, p2], Idle, [0]))
  {
    var p0: Packet := Body(Video(key, Portrait, 1));
    var p1: Packet := Body(Video(delta, Portrait, 0));
    var p2: Packet := Body(Video(next, Portrait, 0));
    ThreeFrames(key, delta, next);
    es, run := ThreeAndBackArrive(s0, key, delta, next);
    var queued := PutThree(run, s0, es, p0, p1, p2);
    QuietKeepsAll(run, queued);
    run := SkipsSecond(queued, s0, es, p0, p1, p2);
    QuietKeepsAll(queued, run);
  }

  lemma {:induction false} TurnBackRun(s0: State, run: Run, es: seq<MS.Event>, p0: Packet, p1: Packet, p2: Packet)
    returns (actions: seq<Action>, s: State, t: State)
    requires s0.src.tame && AllPortrait(run.actions) && OneChain(p0, p1, p2) && ThreeAndBack(es, p0, p1, p2)
    requires Shows(run, s0, BothEnds, View(es, 4, Landscape, [p2], [p0, p1, p2], Idle, [0]))
    ensures CarefullyReaches(s0, actions, s, BothEnds) && AtRisk(s.queue, s.dec.phase, s.dec.shown, Portrait)
    ensures Reaches(s0, actions + [Dispatch, GetData, Decode(true)], t)
    ensures Scheduled(Watching(Portrait), actions + [Dispatch, GetData, Decode(true)])
    ensures t.queue.puts == [p0, p1, p2] && t.dec.shown == [0, 2] && t.src.tame
  {
    actions, s := run.actions, run.End();
    t := FeedsThird(s, es, p0, p1, p2);
    RunReaches(run, s0, BothEnds);
    RunKeepsTame(s0, actions, s, BothEnds);
    ReachesConcat(s0, actions, s, [Dispatch, GetData, Decode(true)], t);
    AllPortraitIsScheduled(actions + [Dispatch, GetData, Decode(true)]);
  }

  lemma {:induction false} QuietIsScheduled(th: Thread, actions: seq<Action>)
    requires forall i :: 0 <= i < |actions| ==> !actions[i].Encode?
    ensures Scheduled(th, actions)
    decreases |actions|
  {
    if actions != [] {
      QuietIsScheduled(th.After(actions[0]), actions[1..]);
    }
  }

  lemma AllPortraitIsScheduled(actions: seq<Action>)
    requires AllPortrait(actions)
    ensures Scheduled(Watching(Portrait), actions)
  {
    var th := Watching(Portrait);
    QuietIsScheduled(th, actions[5..]);
    assert actions[4..][1..] == actions[5..] && actions[3..][1..] == actions[4..] && actions[2..][1..] == actions[3..];
    assert actions[1..][1..] == actions[2..];
    assert Scheduled(th, actions[4..]);
    assert Scheduled(th, actions[3..]);
    assert Scheduled(th, actions[2..]);
    assert Scheduled(th, actions[1..]);
  }

  /** Feeding the third of three frames right after the first breaks the chain. */
  lemma SkippedFrameBreaks(configs: Configs, actions: seq<Action>, t: State, p0: Packet, p1: Packet, p2: Packet)
    requires Reaches(Initial(false, Portrait, configs), actions, t)
    requires t.queue.puts == [p0, p1, p2] && t.dec.shown == [0, 2] && OneChain(p0, p1, p2) && t.src.tame
    ensures !Unbroken(t.src, t.dec.shown, 1)
  {
    ChainExactly(false, Portrait, configs, actions, t, 1);
    assert Tag(t.queue.puts[1]) == Tag(t.queue.puts[2]);
  }

  /** The receive thread's half of the rule is needed: a rotation and back while frames wait. Up to the
      rotation back both ends keep the rule, and the outputs are those of one encoder thread. Acting on it
      then, with the third frame at risk, feeds the codec the third frame right after the first one,
      although it depends on the second. */
  lemma {:induction false} RotationBackBreaksChain(configs: Configs, key: seq<byte>, delta: seq<byte>, next: seq<byte>)
    returns (actions: seq<Action>, s: State, t: State)
    requires Sendable(Video(key, Portrait, 1)) && Sendable(Video(delta, Portrait, 0))
    requires Sendable(Video(next, Portrait, 0))
    ensures CarefullyReaches(Initial(false, Portrait, configs), actions, s, BothEnds)
    ensures AtRisk(s.queue, s.dec.phase, s.dec.shown, Portrait)
    ensures Reaches(Initial(false, Portrait, configs), actions + [Dispatch, GetData, Decode(true)], t)
    ensures Scheduled(Watching(Portrait), actions + [Dispatch, GetData, Decode(true)])
    ensures t.queue.puts ==
              [Body(Video(key, Portrait, 1)), Body(Video(delta, Portrait, 0)), Body(Video(next, Portrait, 0))]
    ensures t.dec.shown == [0, 2] && !Unbroken(t.src, t.dec.shown, 1)
  {
    var s0 := Initial(false, Portrait, configs);
    NothingHappened(configs);
    var es, run := SkipRun(s0, key, delta, next);
    var p0: Packet := Body(Video(key, Portrait, 1));
    var p1: Packet := Body(Video(delta, Portrait, 0));
    var p2: Packet := Body(Video(next, Portrait, 0));
    actions, s, t := TurnBackRun(s0, run, es, p0, p1, p2);
    SkippedFrameBreaks(configs, actions + [Dispatch, GetData, Decode(true)], t, p0, p1, p2);
  }

  // ----- A straggler

  lemma SendOther(run: Run, s0: State, ms: seq<Message>, other: seq<byte>) returns (run': Run)
    requires Written(run, s0, TurnsOnly, Portrait, ms)
    requires run.End().src.sender.Open(Portrait) && Sendable(Video(other, Landscape, 1))
    ensures Written(run', s0, TurnsOnly, Portrait, ms + [Turn(Landscape)] + [Video(other, Landscape, 1)])
    ensures run'.End().src.sender.Open(Portrait)
  {
    run' := WriteTurn(run, s0, TurnsOnly, Portrait, ms, Landscape);
    run' := WriteFrame(run', s0, TurnsOnly, Portrait, ms + [Turn(Landscape)], other, 1, Landscape);
  }

  lemma SendLate(run: Run, s0: State, ms: seq<Message>, late: seq<byte>) returns (run': Run)
    requires Written(run, s0, TurnsOnly, Portrait, ms) && run.End().src.sender.Open(Portrait)
    requires Sendable(Video(late, Portrait, 0))
    ensures Written(run', s0, TurnsOnly, Portrait, ms + [Video(late, Portrait, 0)])
  {
    run' := WriteFrame(run, s0, TurnsOnly, Portrait, ms, late, 0, Portrait);
  }

  /** The events of a frame, a rotation, a frame of the other orientation, a straggler and the rotation back. */
  predicate StragglerEvents(es: seq<MS.Event>, p0: Packet, p1: Packet, p2: Packet) {
    && |es| == 5 && es[0] == MS.Put(p0) && es[1] == MS.Orient(Landscape) && es[2] == MS.Put(p1)
    && es[3] == MS.Put(p2) && es[4] == MS.Orient(Portrait)
  }

  predicate Straggling(p0: Packet, p1: Packet, p2: Packet) {
    |p0| >= 2 && |p1| >= 2 && |p2| >= 2 && Tag(p0) == 1 && Tag(p1) == 2 && Tag(p2) == 1 && !IsKey(p2)
  }

  lemma StragglerFrames(key: seq<byte>, other: seq<byte>, late: seq<byte>)
    ensures Straggling(Body(Video(key, Portrait, 1)), Body(Video(other, Landscape, 1)), Body(Video(late, Portrait, 0)))
  {
    FrameIs(key, 1, Portrait);
    FrameIs(other, 1, Landscape);
    FrameIs(late, 0, Portrait);
  }

  lemma StragglerMeant(m0: Message, m1: Message, m2: Message)
    requires m0.Video? && m1.Video? && m2.Video?
    ensures StragglerEvents(MS.Meant([m0] + [Turn(Landscape)] + [m1] + [m2] + [Turn(Portrait)]),
                            Body(m0), Body(m1), Body(m2))
  {
  }

  lemma StragglerArrives(s0: State, key: seq<byte>, other: seq<byte>, late: seq<byte>)
    returns (es: seq<MS.Event>, run: Run)
    requires Inv(s0) && Untouched(s0, Portrait)
    requires Sendable(Video(key, Portrait, 1)) && Sendable(Video(other, Landscape, 1))
    requires Sendable(Video(late, Portrait, 0))
    ensures Shows(run, s0, TurnsOnly, View(es, 0, Portrait, [], [], Idle, []))
    ensures StragglerEvents(es, Body(Video(key, Portrait, 1)), Body(Video(other, Landscape, 1)),
                            Body(Video(late, Portrait, 0)))
  {
    var m0, m1, m2 := Video(key, Portrait, 1), Video(other, Landscape, 1), Video(late, Portrait, 0);
    run := SendFirst(s0, TurnsOnly, key);
    run := SendOther(run, s0, [m0], other);
    run := SendLate(run, s0, [m0] + [Turn(Landscape)] + [m1], late);
    run := TurnThenRead(run, s0, TurnsOnly, [m0] + [Turn(Landscape)] + [m1] + [m2]);
    es := MS.Meant([m0] + [Turn(Landscape)] + [m1] + [m2] + [Turn(Portrait)]);
    StragglerMeant(m0, m1, m2);
  }

  /** A frame that comes alone is handed out and, as it suits the window, fed. */
  lemma FeedNext(run: Run, s0: State, v: View, p: Packet) returns (run': Run)
    requires Shows(run, s0, TurnsOnly, v) && v.done < |v.events| && v.events[v.done] == MS.Put(p)
    requires v.list == [] && v.phase == Idle && |p| >= 2 && TagFits(Tag(p), v.cur)
    ensures Shows(run', s0, TurnsOnly, v.(done := v.done + 1, puts := v.puts + [p], shown := v.shown + [|v.puts|]))
  {
    run' := PutNext(run, s0, TurnsOnly, v, p);
    var v' := v.Put(p);
    assert v'.list == [p];
    run' := TakeFront(run', s0, TurnsOnly, v');
    run' := DecodeHeld(run', s0, TurnsOnly, v'.Taken());
  }

  lemma FeedsBoth(run: Run, s0: State, es: seq<MS.Event>, p0: Packet, p1: Packet, p2: Packet) returns (run': Run)
    requires Shows(run, s0, TurnsOnly, View(es, 0, Portrait, [], [], Idle, []))
    requires StragglerEvents(es, p0, p1, p2) && Straggling(p0, p1, p2)
    ensures Shows(run', s0, TurnsOnly, View(es, 3, Landscape, [], [p0, p1], Idle, [0, 1]))
  {
    run' := FeedNext(run, s0, View(es, 0, Portrait, [], [], Idle, []), p0);
    run' := TurnNext(run', s0, TurnsOnly, View(es, 1, Portrait, [], [p0], Idle, [0]), Landscape);
    run' := FeedNext(run', s0, View(es, 2, Landscape, [], [p0], Idle, [0]), p1);
  }

  lemma FeedsStraggler(run: Run, s0: State, es: seq<MS.Event>, p0: Packet, p1: Packet, p2: Packet) returns (run': Run)
    requires Shows(run, s0, TurnsOnly, View(es, 3, Landscape, [], [p0, p1], Idle, [0, 1]))
    requires StragglerEvents(es, p0, p1, p2) && Straggling(p0, p1, p2)
    ensures Shows(run', s0, TurnsOnly, View(es, 5, Portrait, [], [p0, p1, p2], Idle, [0, 1, 2]))
  {
    run' := PutNext(run, s0, TurnsOnly, View(es, 3, Landscape, [], [p0, p1], Idle, [0, 1]), p2);
    run' := TakeFront(run', s0, TurnsOnly, View(es, 4, Landscape, [p2], [p0, p1, p2], Idle, [0, 1]));
    var v := View(es, 4, Landscape, [], [p0, p1, p2], Holding(p2, 2), [0, 1]);
    run' := TurnNext(run', s0, TurnsOnly, v, Portrait);
    run' := DecodeHeld(run', s0, TurnsOnly, v.Turned(Portrait));
    assert v.Turned(Portrait).Decoded() == View(es, 5, Portrait, [], [p0, p1, p2], Idle, [0, 1, 2]);
  }

  lemma {:induction false} StragglerRun(s0: State, key: seq<byte>, other: seq<byte>, late: seq<byte>)
    returns (actions: seq<Action>, t: State)
    requires Inv(s0) && Untouched(s0, Portrait)
    requires Sendable(Video(key, Portrait, 1)) && Sendable(Video(other, Landscape, 1))
    requires Sendable(Video(late, Portrait, 0))
    ensures CarefullyReaches(s0, actions, t, TurnsOnly) && Reaches(s0, actions, t)
    ensures t.dec.shown == [0, 1, 2] && (s0.src.tame ==> t.src.tame)
    ensures t.queue.puts ==
              [Body(Video(key, Portrait, 1)), Body(Video(other, Landscape, 1)), Body(Video(late, Portrait, 0))]
  {
    var es, run := StragglerArrives(s0, key, other, late);
    StragglerFrames(key, other, late);
    var p0: Packet := Body(Video(key, Portrait, 1));
    var p1: Packet := Body(Video(other, Landscape, 1));
    var p2: Packet := Body(Video(late, Portrait, 0));
    run := FeedsBoth(run, s0, es, p0, p1, p2);
    run := FeedsStraggler(run, s0, es, p0, p1, p2);
    RunReaches(run, s0, TurnsOnly);
    actions, t := run.actions, run.End();
    if s0.src.tame {
      RunKeepsTame(s0, actions, t, TurnsOnly);
    }
  }

  /** A frame fed right after one of the other orientation breaks the chain. */
  lemma StragglerBreaks(configs: Configs, actions: seq<Action>, t: State, p0: Packet, p1: Packet, p2: Packet)
    requires Reaches(Initial(false, Portrait, configs), actions, t)
    requires t.queue.puts == [p0, p1, p2] && t.dec.shown == [0, 1, 2] && Straggling(p0, p1, p2) && t.src.tame
    ensures !Unbroken(t.src, t.dec.shown, 2)
  {
    ChainExactly(false, Portrait, configs, actions, t, 2);
  }

  /** The sender's half of the rule is needed too: the receive thread never turns the window with a frame
      at risk and every frame is fed, but the encoder of the old orientation puts one more out after the
      other one's key frame, and it is fed right after that. */
  lemma {:induction false} StragglerBreaksChain(configs: Configs, key: seq<byte>, other: seq<byte>, late: seq<byte>)
    returns (actions: seq<Action>, t: State)
    requires Sendable(Video(key, Portrait, 1)) && Sendable(Video(other, Landscape, 1))
    requires Sendable(Video(late, Portrait, 0))
    ensures CarefullyReaches(Initial(false, Portrait, configs), actions, t, TurnsOnly)
    ensures Reaches(Initial(false, Portrait, configs), actions, t)
    ensures t.queue.puts ==
              [Body(Video(key, Portrait, 1)), Body(Video(other, Landscape, 1)), Body(Video(late, Portrait, 0))]
    ensures t.dec.shown == [0, 1, 2] && !Unbroken(t.src, t.dec.shown, 2)
  {
    NothingHappened(configs);
    actions, t := StragglerRun(Initial(false, Portrait, configs), key, other, late);
    StragglerFrames(key, other, late);
    StragglerBreaks(configs, actions, t, t.queue.puts[0], t.queue.puts[1], t.queue.puts[2]);
  }
}

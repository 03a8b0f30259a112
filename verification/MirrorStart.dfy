/** The decoder thread starts when the codec's surface is there, which may be after a rotation. */
module MirrorStart {
  import opened Bytes
  import opened Protocol
  import opened MediaData
  import opened MirrorSession
  import opened MirrorTheorems
  import opened MirrorRotations
  import opened MirrorCareful
  import MS = MediaServer
  import QH = QueueHistory

  // ----- The orientation at the start is the one that counts

  predicate Begun(phase: Consumer) { !phase.NotStarted? && !phase.Created? }

  lemma {:induction false} RunKeepsBegun(s: State, actions: seq<Action>, t: State)
    requires Reaches(s, actions, t) && Begun(s.dec.phase)
    ensures t.dec.begun == s.dec.begun && Begun(t.dec.phase)
    decreases |actions|
  {
    if actions != [] {
      RunKeepsBegun(Next(s, actions[0]), actions[1..], t);
    }
  }

  /** The first input, if it is a picture, has the tag of an orientation. */
  lemma FirstIsTagged(t: State)
    requires Inv(t) && ShownOk(t.queue, t.dec) && t.dec.fed != []
    ensures TagNames(t.dec.fed[0])
  {
    if t.dec.fed[0].Picture? {
      assert Pictures(t.dec.fed)[0] == t.dec.fed[0];
      assert ShownAt(t.queue, t.dec, 0);
      InvDelivers(t);
      PutHasTag(t.src, t.queue, t.dec.shown[0]);
    }
  }

  /** The codec is configured for `start`. Over every run, what it is fed suits that if and only if the
      window had that orientation when the decoder thread started, or nothing was fed. */
  lemma {:induction false} DisciplinedExactly(onlyKeys: bool, start: Orientation, configs: Configs,
                                              before: seq<Action>, s: State, after: seq<Action>, t: State)
    requires Reaches(Initial(onlyKeys, start, configs), before, s)
    requires Enabled(s, Begin) && Reaches(Next(s, Begin), after, t)
    ensures Disciplined(start, configs, t.dec.fed) <==> t.dec.fed == [] || s.rcv.cur == start
  {
    InitialInv(onlyKeys, start, configs);
    RunKeepsShown(Initial(onlyKeys, start, configs), before, s);
    RunKeepsSession(Initial(onlyKeys, start, configs), before, s);
    BegunExactly(s, start, configs, after, t);
  }

  lemma {:induction false} BegunExactly(s: State, start: Orientation, configs: Configs, after: seq<Action>, t: State)
    requires Inv(s) && ShownOk(s.queue, s.dec) && s.dec.configs == configs
    requires Enabled(s, Begin) && Reaches(Next(s, Begin), after, t)
    ensures Disciplined(start, configs, t.dec.fed) <==> t.dec.fed == [] || s.rcv.cur == start
  {
    StepKeepsInv(s, Begin);
    StepKeepsShown(s, Begin);
    RunKeepsShown(Next(s, Begin), after, t);
    RunKeepsSession(Next(s, Begin), after, t);
    RunKeepsBegun(Next(s, Begin), after, t);
    if t.dec.fed != [] {
      FirstIsTagged(t);
    }
    DisciplinedFromTwo(s.rcv.cur, start, configs, t.dec.fed);
  }

  // ----- A start after a rotation

  lemma TurnAndKeyWritten(s: State, key: seq<byte>)
    requires s.net.consumed == [] && s.src.sent == [] && s.src.sender.recording
    requires Fits(Video(key, Landscape, 1)) && MS.Distinguishable(Video(key, Landscape, 1))
    ensures Enabled(Next(s, Rotate(Landscape, true)), Encode(key, 1, Landscape, true))
    ensures var t := Next(Next(s, Rotate(Landscape, true)), Encode(key, 1, Landscape, true));
            && t == s.(src := t.src, net := t.net) && t.net.consumed == []
            && Messages(t.src.sent) == [Turn(Landscape), Video(key, Landscape, 1)]
  {
    var s' := Next(s, Rotate(Landscape, true));
    VideosAppend(s.src.sent, Sent(Turn(Landscape), 0));
    VideosAppend(s'.src.sent, Sent(Video(key, Landscape, 1), |s'.src.Outputs(Landscape)|));
  }

  /** The rotation is acted on before the thread starts, the frame after it. */
  lemma TurnThenStart(s: State, m: Message)
    requires MS.Parse(s.net.consumed) == [MS.Orient(Landscape), MS.Put(Body(m))] && m.Video?
    requires s.rcv == Receiver(0, true, Portrait) && s.dec.phase == NotStarted && s.queue == QH.EMPTY
    ensures Enabled(s, Dispatch)
    ensures var s1 := Next(s, Dispatch);
            && s1.rcv.cur == Landscape && Enabled(s1, Surface) && Enabled(Next(s1, Surface), Begin)
            && var s3 := Next(Next(s1, Surface), Begin);
               && Enabled(s3, Dispatch)
               && var s4 := Next(s3, Dispatch);
                  && s4.queue == QH.Queue([Body(m)], [Body(m)], [], []) && s4.playing && s4.rcv.cur == Landscape
                  && s4.dec == s.dec.(begun := Landscape, pre := Landscape, phase := Idle)
  {
    TurnsTo(s, Landscape);
    DecoderStarts(Next(s, Dispatch));
    var none: seq<Packet> := [];
    assert none + [Body(m)] == [Body(m)];
  }

  lemma TwoMeant(m: Message)
    requires m.Video?
    ensures MS.Meant([Turn(Landscape), m]) == [MS.Orient(Landscape), MS.Put(Body(m))]
  {
  }

  /** From a state in which a rotation and a key frame of the new orientation have been read. */
  lemma {:induction false} LateStart(s: State, m: Message) returns (s2: State, after: seq<Action>, t: State)
    requires MS.Parse(s.net.consumed) == MS.Meant([Turn(Landscape), m])
    requires m.Video? && m.orientation == Landscape && m.flags % 2 == 1
    requires s.rcv == Receiver(0, true, Portrait) && s.dec.phase == NotStarted && s.queue == QH.EMPTY
    requires s.dec.fed == [] && s.dec.shown == []
    ensures Reaches(s, [Dispatch, Surface], s2) && Enabled(s2, Begin) && s2.rcv.cur == Landscape
    ensures Reaches(Next(s2, Begin), after, t) && t.dec.fed == [Picture(2, m.payload)]
  {
    TwoMeant(m);
    TurnThenStart(s, m);
    s2 := Next(Next(s, Dispatch), Surface);
    assert [Dispatch, Surface][1..] == [Surface] && [Surface][1..] == [];
    var s3 := Next(s2, Begin);
    after, t := QueuedKeyIsFed(Next(s3, Dispatch), m);
    ReachesAfter(s3, Dispatch, after, t);
    after := [Dispatch] + after;
  }

  lemma TwoStepsKeepInv(s: State, a: Action, b: Action)
    requires Inv(s) && Enabled(s, a) && Enabled(Next(s, a), b)
    ensures Inv(Next(Next(s, a), b))
  {
    StepKeepsInv(s, a);
    StepKeepsInv(Next(s, a), b);
  }

  lemma {:induction false} TurnAndKeySent(s0: State, key: seq<byte>) returns (before: seq<Action>, s: State)
    requires Inv(s0) && s0.net.consumed == [] && s0.src.sent == [] && s0.src.sender.recording
    requires Fits(Video(key, Landscape, 1)) && MS.Distinguishable(Video(key, Landscape, 1))
    ensures Reaches(s0, before, s) && Inv(s) && s == s0.(src := s.src, net := s.net) && s.net.consumed == []
    ensures Messages(s.src.sent) == [Turn(Landscape), Video(key, Landscape, 1)]
  {
    var a, b := Rotate(Landscape, true), Encode(key, 1, Landscape, true);
    TurnAndKeyWritten(s0, key);
    TwoStepsReach(s0, a, b);
    TwoStepsKeepInv(s0, a, b);
    before, s := [a, b], Next(Next(s0, a), b);
  }

  lemma {:induction false} AllThatWasSentIsRead(s: State) returns (a: Action, t: State)
    requires Inv(s) && s.net.consumed == [] && s.src.sent != [] && s.rcv.active
    ensures Enabled(s, a) && t == Next(s, a) && t == s.(net := t.net)
    ensures MS.Parse(t.net.consumed) == MS.Meant(Messages(s.src.sent))
  {
    WireIsMeant(s.src.sent, s.net);
    AllIsRead(s, s.net.wire);
    a := Read(|s.net.wire|);
    t := Next(s, a);
  }

  lemma {:induction false} TurnAndKeyRead(s0: State, key: seq<byte>) returns (before: seq<Action>, s: State)
    requires Inv(s0) && s0.net.consumed == [] && s0.src.sent == [] && s0.src.sender.recording && s0.rcv.active
    requires Fits(Video(key, Landscape, 1)) && MS.Distinguishable(Video(key, Landscape, 1))
    ensures Reaches(s0, before, s) && s == s0.(src := s.src, net := s.net)
    ensures MS.Parse(s.net.consumed) == MS.Meant([Turn(Landscape), Video(key, Landscape, 1)])
  {
    var s1, a;
    before, s1 := TurnAndKeySent(s0, key);
    a, s := AllThatWasSentIsRead(s1);
    ReachesAppend(s0, before, s1, a);
    before := before + [a];
  }

  /** A handshake in portrait, a rotation acted on, and only then the surface: the codec is fed a landscape
      picture under the portrait configuration. */
  lemma {:induction false} LateStartBreaks(configs: Configs, key: seq<byte>)
    returns (before: seq<Action>, s: State, after: seq<Action>, t: State)
    requires Fits(Video(key, Landscape, 1)) && MS.Distinguishable(Video(key, Landscape, 1))
    ensures Reaches(Initial(false, Portrait, configs), before, s) && Enabled(s, Begin) && s.rcv.cur == Landscape
    ensures Reaches(Next(s, Begin), after, t)
    ensures t.dec.fed == [Picture(2, key)] && !Disciplined(Portrait, configs, t.dec.fed)
  {
    InitialInv(false, Portrait, configs);
    var s0 := Initial(false, Portrait, configs);
    var s1;
    before, s1 := TurnAndKeyRead(s0, key);
    s, after, t := LateStart(s1, Video(key, Landscape, 1));
    ReachesConcat(s0, before, s1, [Dispatch, Surface], s);
    before := before + [Dispatch, Surface];
    DisciplinedExactly(false, Portrait, configs, before, s, after, t);
  }
}

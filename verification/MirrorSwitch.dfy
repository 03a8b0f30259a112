/** The key-frames-only switch, which may be turned while frames flow. */
module MirrorSwitch {
  import opened Bytes
  import opened Wrappers
  import opened Protocol
  import opened MediaData
  import opened MirrorSession
  import opened MirrorCareful
  import MS = MediaServer

  /** Frame i is a key frame, or its encoder's previous output is the last frame sent before it of its
      orientation. */
  ghost predicate Whole(vs: seq<Sent>, i: nat)
    requires i < |vs|
  {
    vs[i].msg.Video? &&
    (IsKey(Body(vs[i].msg)) || (vs[i].index > 0 && LastIndex(vs[..i], vs[i].msg.orientation) == Some(vs[i].index - 1)))
  }

  ghost predicate AllWhole(vs: seq<Sent>) {
    forall i :: 0 <= i < |vs| ==> Whole(vs, i)
  }

  lemma TameIsWhole(src: Source)
    requires SourceOk(src) && src.tame
    ensures AllWhole(Videos(src.sent))
  {
    var vs := Videos(src.sent);
    forall i | 0 <= i < |vs|
      ensures Whole(vs, i)
    {
      assert Chained(src, vs, i);
    }
  }

  /** Over every run in which the switch is turned off only while, for every open gate, the encoder's last
      output is a key frame or older than the switch: no frame is sent without its predecessor. */
  lemma {:induction false} EveryTameRunIsWhole(onlyKeys: bool, start: Orientation, configs: Configs,
                                               actions: seq<Action>, t: State)
    requires Reaches(Initial(onlyKeys, start, configs), actions, t) && t.src.tame
    ensures AllWhole(Videos(t.src.sent))
  {
    ReachableInv(onlyKeys, start, configs, actions, t);
    TameIsWhole(t.src);
  }

  // ----- Turning it off

  lemma WholeAppend(vs: seq<Sent>, x: Sent)
    requires AllWhole(vs) && x.msg.Video? && !IsKey(Body(x.msg))
    ensures AllWhole(vs + [x]) <==> x.index > 0 && LastIndex(vs, x.msg.orientation) == Some(x.index - 1)
  {
    var all := vs + [x];
    forall i | 0 <= i < |vs|
      ensures Whole(all, i)
    {
      assert Whole(vs, i);
      assert all[..i] == vs[..i];
    }
    assert all[..|vs|] == vs;
    assert AllWhole(all) <==> Whole(all, |vs|);
  }

  lemma SwitchedSends(src: Source, net: Network, payload: seq<byte>, flags: uint32, o: Orientation)
    requires src.onlyKeys && src.sender.recording && src.sender.Open(o) && flags % 2 == 0
    ensures OnEncode(src.Switched(), net, payload, flags, o, true).0.sent ==
              src.sent + [Sent(Video(payload, o, flags % 256), |src.Outputs(o)|)]
  {
    SwitchedFields(src, o);
  }

  lemma NextIsWhole(src: Source, x: Sent, o: Orientation)
    requires AllWhole(Videos(src.sent)) && x.msg.Video? && x.msg.orientation == o && !IsKey(Body(x.msg))
    requires x.index == |src.Outputs(o)|
    ensures AllWhole(Videos(src.sent + [x])) <==> UpToDate(src, o)
  {
    VideosAppend(src.sent, x);
    WholeAppend(Videos(src.sent), x);
  }

  /** Turned off while a gate is open, the switch lets the encoder's next output through, and no frame is
      sent without its predecessor if and only if the encoder's last output was a key frame, or it has
      put out nothing since the switch was turned on. */
  lemma {:induction false} SwitchedOffExactly(onlyKeys: bool, start: Orientation, configs: Configs,
                                              actions: seq<Action>,
                                              s: State, payload: seq<byte>, flags: uint32, o: Orientation)
    returns (t: State)
    requires Reaches(Initial(onlyKeys, start, configs), actions, s) && s.src.tame
    requires s.src.onlyKeys && s.src.sender.recording && s.src.sender.Open(o) && flags % 2 == 0
    requires Fits(Video(payload, o, flags % 256)) && MS.Distinguishable(Video(payload, o, flags % 256))
    ensures Reaches(s, [Switch, Encode(payload, flags, o, true)], t) && |t.src.sent| == |s.src.sent| + 1
    ensures AllWhole(Videos(t.src.sent)) <==> s.src.KeyLast(o)
  {
    ReachableInv(onlyKeys, start, configs, actions, s);
    t := SwitchAndSend(s, payload, flags, o);
    TameIsWhole(s.src);
    VideoIsKey(payload, o, flags);
    NextIsWhole(s.src, Sent(Video(payload, o, flags % 256), |s.src.Outputs(o)|), o);
    assert GateOk(s.src, o);
  }

  lemma {:induction false} SwitchAndSend(s: State, payload: seq<byte>, flags: uint32, o: Orientation) returns (t: State)
    requires s.src.onlyKeys && s.src.sender.recording && s.src.sender.Open(o) && flags % 2 == 0
    requires Fits(Video(payload, o, flags % 256)) && MS.Distinguishable(Video(payload, o, flags % 256))
    ensures Reaches(s, [Switch, Encode(payload, flags, o, true)], t)
    ensures t.src.sent == s.src.sent + [Sent(Video(payload, o, flags % 256), |s.src.Outputs(o)|)]
  {
    var a, b := Switch, Encode(payload, flags, o, true);
    SwitchedSends(s.src, s.net, payload, flags, o);
    TwoStepsReach(s, a, b);
    t := Next(Next(s, a), b);
  }

  // ----- A run in which a frame is sent without its predecessor

  lemma KeyIsSent(src: Source, net: Network, key: seq<byte>, o: Orientation)
    requires src.sender.recording && src.Outputs(o) == []
    ensures var src' := OnEncode(src, net, key, 1, o, true).0;
            && SameSwitch(src, src') && src'.sender == src.sender.SetOpen(o, true)
            && src'.Outputs(o) == [Output(key, 1)]
  {
  }

  lemma DeltaIsDropped(src: Source, net: Network, delta: seq<byte>, o: Orientation)
    requires src.onlyKeys
    ensures var src' := OnEncode(src, net, delta, 0, o, true).0;
            && SameSwitch(src, src') && src'.sender == src.sender
            && src'.Outputs(o) == src.Outputs(o) + [Output(delta, 0)]
  {
  }

  /** With the switch on, a key frame is sent and the output after it is not. */
  lemma KeyThenDropped(s: State, key: seq<byte>, dropped: seq<byte>, o: Orientation)
    requires s.src.onlyKeys && s.src.sender.recording && s.src.Outputs(o) == [] && s.src.Mark(o) == 0 && s.src.tame
    requires Fits(Video(key, o, 1)) && MS.Distinguishable(Video(key, o, 1))
    requires Fits(Video(dropped, o, 0)) && MS.Distinguishable(Video(dropped, o, 0))
    ensures Enabled(s, Encode(key, 1, o, true))
    ensures Enabled(Next(s, Encode(key, 1, o, true)), Encode(dropped, 0, o, true))
    ensures var t := Next(Next(s, Encode(key, 1, o, true)), Encode(dropped, 0, o, true));
            && t.src.onlyKeys && t.src.sender.recording && t.src.sender.Open(o) && t.src.tame && !t.src.KeyLast(o)
  {
    var s' := Next(s, Encode(key, 1, o, true));
    KeyIsSent(s.src, s.net, key, o);
    DeltaIsDropped(s'.src, s'.net, dropped, o);
  }

  /** A key frame is sent, the output after it is dropped, the switch is turned off, and the output after
      that is sent. */
  lemma {:induction false} SwitchingOffBreaks(start: Orientation, configs: Configs, o: Orientation,
                                              key: seq<byte>, dropped: seq<byte>, late: seq<byte>)
    returns (t: State)
    requires Fits(Video(key, o, 1)) && MS.Distinguishable(Video(key, o, 1))
    requires Fits(Video(dropped, o, 0)) && MS.Distinguishable(Video(dropped, o, 0))
    requires Fits(Video(late, o, 0)) && MS.Distinguishable(Video(late, o, 0))
    ensures Reaches(Initial(true, start, configs),
                    [Encode(key, 1, o, true), Encode(dropped, 0, o, true)] + [Switch, Encode(late, 0, o, true)], t)
    ensures !AllWhole(Videos(t.src.sent))
  {
    var s0, a, b := Initial(true, start, configs), Encode(key, 1, o, true), Encode(dropped, 0, o, true);
    KeyThenDropped(s0, key, dropped, o);
    TwoStepsReach(s0, a, b);
    var s := Next(Next(s0, a), b);
    t := SwitchedOffExactly(true, start, configs, [a, b], s, late, 0, o);
    ReachesConcat(s0, [a, b], s, [Switch, Encode(late, 0, o, true)], t);
  }
}

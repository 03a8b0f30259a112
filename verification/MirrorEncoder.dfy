/** The encoder thread keeps the sender's half of the rule, as long as it sees each rotation as one step. */
module MirrorEncoder {
  import opened Bytes
  import opened Wrappers
  import opened Protocol
  import opened MediaData
  import opened MirrorSession
  import opened MirrorRotations
  import opened MirrorCareful
  import MC = MediaCodec

  /** The one thread that drains both encoders looks which of them is playing before each output, so an
      output may belong to any orientation faced since the output before it. */
  datatype Thread = Thread(facing: Orientation, faced1: bool, faced2: bool) {
    function Faced(o: Orientation): bool { if o.Portrait? then faced1 else faced2 }

    function After(a: Action): Thread {
      match a
      case Rotate(to, _) => Thread(to, faced1 || to.Portrait?, faced2 || to.Landscape?)
      case Encode(_, _, _, _) => Watching(facing)
      case _ => this
    }
  }

  function Watching(o: Orientation): Thread { Thread(o, o.Portrait?, o.Landscape?) }

  /** The outputs of a run are those of one thread that drains the playing encoder. */
  predicate Scheduled(th: Thread, actions: seq<Action>)
    decreases |actions|
  {
    actions == [] ||
    ((actions[0].Encode? ==> th.Faced(actions[0].o)) && Scheduled(th.After(actions[0]), actions[1..]))
  }

  /** An orientation that may put out now has its gate closed, or the last frame written is its own. */
  ghost predicate ThreadOk(th: Thread, src: Source) {
    && th.Faced(th.facing)
    && (src.sender.recording && th.faced1 && th.faced2 ==> !src.sender.Open(th.facing))
    && (forall o :: src.sender.recording && src.sender.Open(o) && th.Faced(o) ==> LastFrameIs(src, o))
  }

  lemma AppendIsLast(src: Source, src': Source, x: Sent)
    requires src'.sent == src.sent + [x]
    ensures x.msg.Video? ==> LastFrameIs(src', x.msg.orientation)
    ensures x.msg.Turn? ==> forall o :: LastFrameIs(src, o) ==> LastFrameIs(src', o)
  {
    VideosAppend(src.sent, x);
  }

  lemma EncodeKeepsThread(th: Thread, src: Source, net: Network, payload: seq<byte>, flags: uint32, o: Orientation,
                          writeOk: bool)
    requires ThreadOk(th, src) && th.Faced(o)
    ensures ThreadOk(Watching(th.facing), OnEncode(src, net, payload, flags, o, writeOk).0)
  {
    var src' := OnEncode(src, net, payload, flags, o, writeOk).0;
    var r := MC.Encode(src.sender, src.onlyKeys, payload, flags, o, writeOk);
    MC.GateOpensOnKey(src.sender, src.onlyKeys, payload, flags, o, writeOk);
    if r.1.Some? {
      AppendIsLast(src, src', Sent(r.1.value, |src.Outputs(o)|));
    }
  }

  lemma RotateKeepsThread(th: Thread, src: Source, net: Network, to: Orientation, ok: bool)
    requires ThreadOk(th, src)
    ensures ThreadOk(th.After(Rotate(to, ok)), OnRotate(src, net, to, ok).0)
  {
    var src' := OnRotate(src, net, to, ok).0;
    var r := MC.Rotate(src.sender, to, ok);
    if r.1.Some? {
      AppendIsLast(src, src', Sent(r.1.value, 0));
    }
  }

  lemma StepKeepsThread(th: Thread, s: State, a: Action)
    requires ThreadOk(th, s.src) && Enabled(s, a) && (a.Encode? ==> th.Faced(a.o))
    ensures ThreadOk(th.After(a), Next(s, a).src)
  {
    match a
    case Encode(payload, flags, o, writeOk) => EncodeKeepsThread(th, s.src, s.net, payload, flags, o, writeOk);
    case Rotate(to, ok) => RotateKeepsThread(th, s.src, s.net, to, ok);
    case _ =>
  }

  lemma ThreadIsCareful(th: Thread, s: State, a: Action)
    requires ThreadOk(th, s.src) && Enabled(s, a) && (a.Encode? ==> th.Faced(a.o))
    requires Careful(s, a, TurnsOnly)
    ensures Careful(s, a, BothEnds)
  {
  }

  lemma {:induction false} ThreadKeepsRule(th: Thread, s: State, actions: seq<Action>, t: State)
    requires ThreadOk(th, s.src) && Scheduled(th, actions) && CarefullyReaches(s, actions, t, TurnsOnly)
    ensures CarefullyReaches(s, actions, t, BothEnds)
    decreases |actions|
  {
    if actions != [] {
      ThreadIsCareful(th, s, actions[0]);
      StepKeepsThread(th, s, actions[0]);
      ThreadKeepsRule(th.After(actions[0]), Next(s, actions[0]), actions[1..], t);
    }
  }

  /** Over every run of one encoder thread: if the receive thread keeps its half of the rule, every
      picture in the codec's input is a key frame, or the picture fed just before it carries the output
      that its encoder put out just before. */
  lemma {:induction false} CarefulTurns(onlyKeys: bool, start: Orientation, configs: Configs, first: Orientation,
                                        actions: seq<Action>, t: State)
    requires Scheduled(Watching(first), actions)
    requires CarefullyReaches(Initial(onlyKeys, start, configs), actions, t, TurnsOnly)
    ensures |Pictures(t.dec.fed)| == |t.dec.shown| && AllUnbroken(t.src, t.dec.shown)
  {
    ThreadKeepsRule(Watching(first), Initial(onlyKeys, start, configs), actions, t);
    CarefulRotations(onlyKeys, start, configs, actions, t);
  }
}

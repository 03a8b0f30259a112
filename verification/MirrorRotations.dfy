/** When rotations leave the codec's input whole: the chain from each picture to the one it depends on. */
module MirrorRotations {
  import opened Bytes
  import opened Wrappers
  import opened Protocol
  import opened MediaData
  import opened MirrorSession
  import opened MirrorTheorems
  import QH = QueueHistory

  // ----- The chain, and what the receiver can see of it

  /** Picture i fed is a key frame, or the picture fed just before it carries its encoder's previous
      output. */
  ghost predicate Unbroken(src: Source, shown: seq<nat>, i: nat)
    requires i < |shown|
  {
    var vs := Videos(src.sent);
    && shown[i] < |vs|
    && var Sent(m, number) := vs[shown[i]];
       && number < |src.Outputs(m.orientation)|
       && (|| KeyOutput(src, m.orientation, number)
           || (&& i > 0 && shown[i - 1] < |vs|
               && vs[shown[i - 1]].msg.orientation == m.orientation
               && vs[shown[i - 1]].index + 1 == number))
  }

  ghost predicate AllUnbroken(src: Source, shown: seq<nat>) {
    forall i :: 0 <= i < |shown| ==> Unbroken(src, shown, i)
  }

  function Tag(packet: seq<byte>): byte {
    if |packet| >= 2 then packet[|packet| - 2] else 0
  }

  /** The picture fed before picture i has its tag, and no frame with that tag was put between them. */
  predicate NoGap(puts: seq<Packet>, shown: seq<nat>, i: nat)
    requires i < |shown|
  {
    var at := shown[i];
    && at < |puts|
    && (|| IsKey(puts[at])
        || (&& i > 0 && shown[i - 1] < at && Tag(puts[shown[i - 1]]) == Tag(puts[at])
            && forall k :: shown[i - 1] < k < at ==> Tag(puts[k]) != Tag(puts[at])))
  }

  lemma PutHasTag(src: Source, queue: QH.Queue, at: nat)
    requires SourceOk(src) && queue.puts <= Packets(Videos(src.sent)) && at < |queue.puts|
    ensures at < |Videos(src.sent)| && |queue.puts[at]| >= 2
    ensures Tag(queue.puts[at]) == Videos(src.sent)[at].msg.orientation.Tag()
  {
    PutCarries(src, queue, at);
  }

  lemma PutsHaveTags(src: Source, queue: QH.Queue)
    requires SourceOk(src) && queue.puts <= Packets(Videos(src.sent))
    ensures |queue.puts| <= |Videos(src.sent)|
    ensures forall k :: 0 <= k < |queue.puts| ==> Tag(queue.puts[k]) == Videos(src.sent)[k].msg.orientation.Tag()
  {
    forall k | 0 <= k < |queue.puts|
      ensures Tag(queue.puts[k]) == Videos(src.sent)[k].msg.orientation.Tag()
    {
      PutHasTag(src, queue, k);
    }
  }

  lemma {:induction false} LastIndexIs(vs: seq<Sent>, o: Orientation, p: nat, at: nat)
    requires p < at <= |vs| && vs[p].msg.Video? && vs[p].msg.orientation == o
    requires forall k :: p < k < at ==> vs[k].msg.Video? && vs[k].msg.orientation != o
    ensures LastIndex(vs[..at], o) == Some(vs[p].index)
    decreases at
  {
    assert vs[..at][|vs[..at]| - 1] == vs[at - 1];
    if p < at - 1 {
      LastIndexIs(vs, o, p, at - 1);
      assert vs[..at][..at - 1] == vs[..at - 1];
    }
  }

  lemma {:induction false} LastIndexAt(vs: seq<Sent>, o: Orientation, at: nat, number: nat) returns (p: nat)
    requires 0 < at <= |vs| && LastIndex(vs[..at], o) == Some(number)
    requires forall k :: 0 <= k < at ==> vs[k].msg.Video?
    ensures p < at && vs[p].msg.orientation == o && vs[p].index == number
    ensures forall k :: p < k < at ==> vs[k].msg.orientation != o
    decreases at
  {
    assert vs[..at][|vs[..at]| - 1] == vs[at - 1];
    if vs[at - 1].msg.orientation == o {
      p := at - 1;
    } else {
      assert vs[..at][..at - 1] == vs[..at - 1];
      p := LastIndexAt(vs, o, at - 1, number);
    }
  }

  /** Between the frame that carries output number - 1 and this one, no frame of the orientation was
      written; and no other frame carries that output. */
  lemma PredecessorExactly(vs: seq<Sent>, at: nat, before: nat)
    requires at < |vs| && before < at && Growing(vs) && forall k :: 0 <= k < |vs| ==> vs[k].msg.Video?
    requires var o := vs[at].msg.orientation;
             vs[at].index > 0 && LastIndex(vs[..at], o) == Some(vs[at].index - 1)
    ensures var o := vs[at].msg.orientation;
            vs[before].msg.orientation == o && vs[before].index + 1 == vs[at].index
            <==> vs[before].msg.orientation == o && forall k :: before < k < at ==> vs[k].msg.orientation != o
  {
    var o := vs[at].msg.orientation;
    var p := LastIndexAt(vs, o, at, vs[at].index - 1);
    if vs[before].msg.orientation == o && vs[before].index + 1 == vs[at].index {
      assert before == p;
    }
    if vs[before].msg.orientation == o && forall k :: before < k < at ==> vs[k].msg.orientation != o {
      LastIndexIs(vs, o, before, at);
    }
  }

  /** The chain, which is about encoder outputs, is whole exactly where the receiver's own tags show no
      gap. */
  lemma UnbrokenExactly(src: Source, queue: QH.Queue, shown: seq<nat>, i: nat)
    requires SourceOk(src) && src.tame && queue.puts <= Packets(Videos(src.sent))
    requires i < |shown| && shown[i] < |queue.puts| && (i > 0 ==> shown[i - 1] < shown[i])
    ensures Unbroken(src, shown, i) <==> NoGap(queue.puts, shown, i)
  {
    var vs, at := Videos(src.sent), shown[i];
    PutCarries(src, queue, at);
    PutHasTag(src, queue, at);
    if !IsKey(queue.puts[at]) && i > 0 {
      PutsHaveTags(src, queue);
      PredecessorExactly(vs, at, shown[i - 1]);
    }
  }

  // ----- What has been fed, over every run

  ghost predicate ShownAt(queue: QH.Queue, dec: Decoder, i: nat)
    requires i < |dec.shown| == |Pictures(dec.fed)|
  {
    && dec.shown[i] < |queue.puts| && |queue.puts[dec.shown[i]]| >= 2
    && Pictures(dec.fed)[i] == Shown(queue.puts[dec.shown[i]])
    && (i > 0 ==> dec.shown[i - 1] < dec.shown[i])
  }

  /** Frames before this position have had their turn. */
  function Frontier(queue: QH.Queue, phase: Consumer): int {
    if phase.Holding? then phase.at else QH.Gone(queue)
  }

  /** The pictures fed are frames put, in order, none of them still to have its turn. */
  ghost predicate ShownOk(queue: QH.Queue, dec: Decoder) {
    && |Pictures(dec.fed)| == |dec.shown|
    && (forall i :: 0 <= i < |dec.shown| ==> ShownAt(queue, dec, i))
    && (dec.shown != [] ==> dec.shown[|dec.shown| - 1] < Frontier(queue, dec.phase))
  }

  lemma ShownMoves(queue: QH.Queue, queue': QH.Queue, dec: Decoder, dec': Decoder)
    requires ShownOk(queue, dec) && dec'.fed == dec.fed && dec'.shown == dec.shown
    requires queue.puts <= queue'.puts && Frontier(queue, dec.phase) <= Frontier(queue', dec'.phase)
    ensures ShownOk(queue', dec')
  {
    forall i | 0 <= i < |dec'.shown|
      ensures ShownAt(queue', dec', i)
    {
      assert ShownAt(queue, dec, i);
    }
  }

  lemma DecodeShows(dec: Decoder, cur: Orientation, ret: bool)
    requires dec.phase.Holding? && |dec.phase.packet| >= 2
    ensures var dec' := OnDecode(dec, cur, ret);
            && !dec'.phase.Holding?
            && if TagFits(Tag(dec.phase.packet), cur) then
                 && dec'.shown == dec.shown + [dec.phase.at]
                 && Pictures(dec'.fed) == Pictures(dec.fed) + [Shown(dec.phase.packet)]
               else dec'.shown == dec.shown && dec'.fed == dec.fed
  {
    PicturesOfFeeds(dec.pre, cur, dec.configs, dec.phase.packet);
    PicturesAppend(dec.fed, Feeds(dec.pre, cur, dec.configs, dec.phase.packet));
  }

  /** The frame in hand, which was handed out last, is fed. */
  lemma ShownGrows(queue: QH.Queue, dec: Decoder, dec': Decoder)
    requires ShownOk(queue, dec) && HoldingOk(dec.phase, queue) && dec.phase.Holding?
    requires dec.phase.at < QH.Gone(queue) && !dec'.phase.Holding?
    requires dec'.shown == dec.shown + [dec.phase.at]
    requires Pictures(dec'.fed) == Pictures(dec.fed) + [Shown(dec.phase.packet)]
    ensures ShownOk(queue, dec')
  {
    forall i | 0 <= i < |dec'.shown|
      ensures ShownAt(queue, dec', i)
    {
      if i < |dec.shown| {
        assert ShownAt(queue, dec, i);
      }
    }
  }

  lemma DecodeKeepsShown(queue: QH.Queue, dec: Decoder, cur: Orientation, ret: bool)
    requires ShownOk(queue, dec) && HoldingOk(dec.phase, queue) && dec.phase.Holding? && QH.Ordered(queue)
    ensures ShownOk(queue, OnDecode(dec, cur, ret))
    ensures OnDecode(dec, cur, ret).shown ==
              if TagFits(Tag(dec.phase.packet), cur) then dec.shown + [dec.phase.at] else dec.shown
  {
    var dec' := OnDecode(dec, cur, ret);
    DecodeShows(dec, cur, ret);
    if TagFits(Tag(dec.phase.packet), cur) {
      ShownGrows(queue, dec, dec');
    } else {
      ShownMoves(queue, queue, dec, dec');
    }
  }

  lemma StepKeepsShown(s: State, a: Action)
    requires Inv(s) && ShownOk(s.queue, s.dec) && Enabled(s, a)
    ensures ShownOk(Next(s, a).queue, Next(s, a).dec)
  {
    if a.Decode? {
      DecodeKeepsShown(s.queue, s.dec, s.rcv.cur, a.ret);
    } else {
      ShownMoves(s.queue, Next(s, a).queue, s.dec, Next(s, a).dec);
    }
  }

  lemma {:induction false} RunKeepsShown(s: State, actions: seq<Action>, t: State)
    requires Inv(s) && ShownOk(s.queue, s.dec) && Reaches(s, actions, t)
    ensures Inv(t) && ShownOk(t.queue, t.dec)
    decreases |actions|
  {
    if actions != [] {
      StepKeepsInv(s, actions[0]);
      StepKeepsShown(s, actions[0]);
      RunKeepsShown(Next(s, actions[0]), actions[1..], t);
    }
  }

  /** Over every run, with any rotations: the pictures in the codec's input are frames the sender wrote,
      in the order written. If the key-frames-only switch was used safely, the chain at each is whole
      exactly if it is a key frame, or the picture fed before it has its tag and no frame with that tag
      was put between the two. */
  lemma ChainExactly(onlyKeys: bool, start: Orientation, configs: Configs, actions: seq<Action>, t: State, i: nat)
    requires Reaches(Initial(onlyKeys, start, configs), actions, t) && i < |t.dec.shown|
    ensures |Pictures(t.dec.fed)| == |t.dec.shown|
    ensures var at := t.dec.shown[i];
            && at < |t.queue.puts| && |t.queue.puts[at]| >= 2 && t.queue.puts <= Packets(Videos(t.src.sent))
            && Pictures(t.dec.fed)[i] == Shown(t.queue.puts[at])
            && (i > 0 ==> t.dec.shown[i - 1] < at)
            && (t.src.tame ==> (Unbroken(t.src, t.dec.shown, i) <==> NoGap(t.queue.puts, t.dec.shown, i)))
  {
    RunKeepsShown(Initial(onlyKeys, start, configs), actions, t);
    InvDelivers(t);
    assert ShownAt(t.queue, t.dec, i);
    if t.src.tame {
      UnbrokenExactly(t.src, t.queue, t.dec.shown, i);
    }
  }
}

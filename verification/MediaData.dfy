/** One client's frame queue and the decoder loop that empties it. */
module MediaData {
  import opened Bytes
  import opened Wrappers
  import opened Protocol

  /** A queued frame: never empty, because the message loop skips empty bodies. */
  type Packet = p: seq<byte> | p != [] witness [0]

  // ----- What the queue does, as functions of its contents

  /** The position of the first key frame, or the length when there is none. */
  function FirstKey(list: seq<Packet>): (k: nat)
    ensures k <= |list|
    ensures k < |list| ==> IsKey(list[k])
    ensures forall i :: 0 <= i < k ==> !IsKey(list[i])
  {
    if list == [] || IsKey(list[0]) then 0 else 1 + FirstKey(list[1..])
  }

  /** How many frames catching up discards. */
  function Lag(list: seq<Packet>): (k: nat)
    ensures k < |list| || k == 0
  {
    var k := FirstKey(list);
    if k < |list| then k else 0
  }

  function Drained(list: seq<Packet>): seq<Packet> { list[Lag(list)..] }

  lemma FirstKeyUnique(list: seq<Packet>, k: nat)
    requires k < |list| && IsKey(list[k]) && forall i :: 0 <= i < k ==> !IsKey(list[i])
    ensures FirstKey(list) == k
  {
  }

  /** Dropping a leading non-key frame does not change what is left after draining. */
  lemma FirstKeyTail(list: seq<Packet>)
    requires FirstKey(list) < |list| && !IsKey(list[0])
    ensures FirstKey(list[1..]) == FirstKey(list) - 1
    ensures list[1..][FirstKey(list) - 1..] == list[FirstKey(list)..]
  {
  }

  /** Draining keeps every key frame, starts at one if there is one, and draining again is no change. */
  lemma {:induction false} DrainedIsIdempotent(list: seq<Packet>)
    ensures Drained(Drained(list)) == Drained(list)
    ensures Drained(list) == [] <==> list == []
    ensures (exists p :: p in list && IsKey(p)) <==> Drained(list) != [] && IsKey(Drained(list)[0])
    ensures !(exists p :: p in list && IsKey(p)) ==> Drained(list) == list
  {
    var k := FirstKey(list);
    if k < |list| {
      assert IsKey(Drained(list)[0]) && list[k] in list;
      FirstKeyUnique(Drained(list), 0);
    } else {
      assert forall i :: 0 <= i < |list| ==> !IsKey(list[i]);
    }
  }

  // ----- The decoder, as a function of its turns

  /** Codec input: a configuration of one orientation, or a frame with the tag it carried. */
  datatype Input =
    | Config(orientation: Orientation, data: seq<byte>)
    | Picture(tag: byte, data: seq<byte>)

  datatype Configs = Configs(portrait: seq<byte>, landscape: seq<byte>) {
    function Get(o: Orientation): seq<byte> { if o.Portrait? then portrait else landscape }
  }

  /** A tag names an orientation; other tags fit either. */
  predicate TagFits(tag: byte, o: Orientation) {
    (tag == 1 ==> o.Portrait?) && (tag == 2 ==> o.Landscape?)
  }

  /** What one frame makes the decoder feed while the window has orientation `cur`. */
  function Feeds(pre: Orientation, cur: Orientation, configs: Configs, frame: seq<byte>): (fed: seq<Input>)
    requires |frame| >= 2
  {
    var tag := frame[|frame| - 2];
    if !TagFits(tag, cur) then []
    else (if pre != cur then [Config(cur, configs.Get(cur))] else []) + [Picture(tag, frame[..|frame| - 2])]
  }

  /** The configuration in force after `fed`. */
  function Configured(start: Orientation, fed: seq<Input>): Orientation {
    if fed == [] then start
    else
      var last := fed[|fed| - 1];
      if last.Config? then last.orientation else Configured(start, fed[..|fed| - 1])
  }

  /** Every picture suits the configuration in force; a configuration is given only to change the one
      in force, is the stored one, and is followed at once by a picture, if anything follows. */
  ghost predicate Disciplined(start: Orientation, configs: Configs, fed: seq<Input>) {
    forall i :: 0 <= i < |fed| ==> DisciplinedAt(start, configs, fed, i)
  }

  ghost predicate DisciplinedAt(start: Orientation, configs: Configs, fed: seq<Input>, i: nat)
    requires i < |fed|
  {
    var inForce := Configured(start, fed[..i]);
    match fed[i]
    case Picture(tag, _) => TagFits(tag, inForce)
    case Config(o, data) =>
      && o != inForce && data == configs.Get(o)
      && i + 1 < |fed| && fed[i + 1].Picture? && TagFits(fed[i + 1].tag, o)
  }

  lemma ConfigsAreStored(start: Orientation, configs: Configs, fed: seq<Input>)
    requires Disciplined(start, configs, fed)
    ensures ConfigsStored(fed, configs.portrait, configs.landscape)
  {
    forall i | 0 <= i < |fed| && fed[i].Config?
      ensures fed[i].data == if fed[i].orientation == Portrait then configs.portrait else configs.landscape
    {
      assert DisciplinedAt(start, configs, fed, i);
    }
  }

  lemma ConfiguredAppend(start: Orientation, fed: seq<Input>, x: Input)
    ensures Configured(start, fed + [x]) == if x.Config? then x.orientation else Configured(start, fed)
  {
    assert (fed + [x])[..|fed|] == fed;
  }

  /** One turn keeps the discipline, and leaves the window's orientation configured if it fed a frame. */
  lemma {:induction false} FeedsKeepDiscipline(start: Orientation, configs: Configs, fed: seq<Input>,
                                               pre: Orientation, cur: Orientation, frame: seq<byte>)
    requires |frame| >= 2
    requires Disciplined(start, configs, fed) && Configured(start, fed) == pre
    ensures var more := Feeds(pre, cur, configs, frame);
            && Disciplined(start, configs, fed + more)
            && Configured(start, fed + more) == if more == [] then pre else cur
  {
    var more := Feeds(pre, cur, configs, frame);
    var all := fed + more;
    var n := |fed|;
    if more == [] {
      assert all == fed;
    } else {
      ConfiguredAppend(start, fed, more[0]);
      assert all[..n] == fed;
      if |more| == 2 {
        assert all[..n + 1] == fed + [more[0]];
        ConfiguredAppend(start, fed + [more[0]], more[1]);
        assert all == fed + [more[0]] + [more[1]];
        assert DisciplinedAt(start, configs, all, n + 1);
      }
      assert DisciplinedAt(start, configs, all, n);
      forall i | 0 <= i < n
        ensures DisciplinedAt(start, configs, all, i)
      {
        assert DisciplinedAt(start, configs, fed, i);
        assert all[..i] == fed[..i];
      }
    }
  }

  /** What one iteration of the loop meets: getData's answer, the orientation flag it reads, and
      whether the codec takes the frame. */
  datatype Round = Round(data: Option<Packet>, cur: Orientation, ret: bool)

  predicate TailPresent(rounds: seq<Round>) {
    forall i :: 0 <= i < |rounds| ==> rounds[i].data.Some? ==> |rounds[i].data.value| >= 2
  }

  /** Everything fed over a whole run of the loop. */
  function Decoded(pre: Orientation, configs: Configs, rounds: seq<Round>): (r: seq<Input>)
    requires TailPresent(rounds)
    decreases |rounds|
  {
    if rounds == [] || rounds[0].data.None? then []
    else
      var fed := Feeds(pre, rounds[0].cur, configs, rounds[0].data.value);
      if fed == [] then Decoded(pre, configs, rounds[1..])
      else if !rounds[0].ret then fed
      else fed + Decoded(rounds[0].cur, configs, rounds[1..])
  }

  lemma DecodedStep(done: seq<Input>, pre: Orientation, configs: Configs, rounds: seq<Round>)
    requires TailPresent(rounds)
    ensures rounds == [] || rounds[0].data.None? ==> done + Decoded(pre, configs, rounds) == done
    ensures rounds != [] && rounds[0].data.Some? ==>
      var fed := Feeds(pre, rounds[0].cur, configs, rounds[0].data.value);
      done + Decoded(pre, configs, rounds) ==
        if fed == [] then done + Decoded(pre, configs, rounds[1..])
        else if rounds[0].ret then done + fed + Decoded(rounds[0].cur, configs, rounds[1..])
        else done + fed
  {
  }

  /** Over every run, whatever the orientation flag does between iterations. */
  lemma {:induction false} DecodedIsDisciplined(start: Orientation, configs: Configs, fed: seq<Input>,
                                                pre: Orientation, rounds: seq<Round>)
    requires TailPresent(rounds)
    requires Disciplined(start, configs, fed) && Configured(start, fed) == pre
    ensures Disciplined(start, configs, fed + Decoded(pre, configs, rounds))
    decreases |rounds|
  {
    DecodedStep(fed, pre, configs, rounds);
    if rounds != [] && rounds[0].data.Some? {
      var cur := rounds[0].cur;
      var more := Feeds(pre, cur, configs, rounds[0].data.value);
      FeedsKeepDiscipline(start, configs, fed, pre, cur, rounds[0].data.value);
      if more == [] {
        DecodedIsDisciplined(start, configs, fed, pre, rounds[1..]);
      } else if rounds[0].ret {
        DecodedIsDisciplined(start, configs, fed + more, cur, rounds[1..]);
      }
    }
  }

  predicate TagNames(x: Input) { x.Picture? ==> x.tag == 1 || x.tag == 2 }

  /** Kept from one orientation on, the discipline is kept from another only as long as nothing was fed. */
  lemma {:induction false} DisciplinedFromTwo(start: Orientation, other: Orientation, configs: Configs, fed: seq<Input>)
    requires Disciplined(start, configs, fed) && (fed != [] ==> TagNames(fed[0]))
    ensures Disciplined(other, configs, fed) <==> fed == [] || other == start
  {
    if fed != [] {
      assert fed[..0] == [];
      assert DisciplinedAt(start, configs, fed, 0);
      assert other != start ==> !DisciplinedAt(other, configs, fed, 0);
    }
  }

  // ----- Frames that are skipped

  function Pictures(fed: seq<Input>): (ps: seq<Input>)
    ensures |ps| <= |fed|
  {
    if fed == [] then [] else (if fed[0].Picture? then [fed[0]] else []) + Pictures(fed[1..])
  }

  predicate NoneMissing(rounds: seq<Round>) {
    forall i :: 0 <= i < |rounds| ==> rounds[i].data.Some? && rounds[i].ret
  }

  function Shown(packet: seq<byte>): Input
    requires |packet| >= 2
  {
    Picture(packet[|packet| - 2], packet[..|packet| - 2])
  }

  function AllShown(rounds: seq<Round>): (all: seq<Input>)
    requires TailPresent(rounds) && NoneMissing(rounds)
    ensures |all| == |rounds|
  {
    if rounds == [] then [] else [Shown(rounds[0].data.value)] + AllShown(rounds[1..])
  }

  predicate FitsWindow(r: Round)
    requires r.data.Some? && |r.data.value| >= 2
  {
    TagFits(r.data.value[|r.data.value| - 2], r.cur)
  }

  lemma Regroup(a: seq<Input>, b: seq<Input>, c: seq<Input>)
    ensures (a + b) + c == a + (b + c)
  {
  }

  lemma {:induction false} PicturesAppend(fed: seq<Input>, rest: seq<Input>)
    ensures Pictures(fed + rest) == Pictures(fed) + Pictures(rest)
  {
    var all := fed + rest;
    if fed == [] {
      assert all == rest;
    } else {
      var head := if fed[0].Picture? then [fed[0]] else [];
      PicturesAppend(fed[1..], rest);
      assert all[0] == fed[0] && all[1..] == fed[1..] + rest;
      Regroup(head, Pictures(fed[1..]), Pictures(rest));
    }
  }

  lemma PicturesOfFeeds(pre: Orientation, cur: Orientation, configs: Configs, frame: seq<byte>)
    requires |frame| >= 2
    ensures Pictures(Feeds(pre, cur, configs, frame)) == if TagFits(frame[|frame| - 2], cur) then [Shown(frame)] else []
  {
    var fed := Feeds(pre, cur, configs, frame);
    if |fed| == 2 {
      assert fed[1..] == [fed[1]];
    }
  }

  predicate AllFitWindow(rounds: seq<Round>)
    requires TailPresent(rounds) && NoneMissing(rounds)
  {
    forall i :: 0 <= i < |rounds| ==> FitsWindow(rounds[i])
  }

  lemma AllFitWindowStep(rounds: seq<Round>)
    requires TailPresent(rounds) && NoneMissing(rounds) && rounds != []
    ensures AllFitWindow(rounds) <==> FitsWindow(rounds[0]) && AllFitWindow(rounds[1..])
  {
    assert forall i :: 1 <= i < |rounds| ==> rounds[i] == rounds[1..][i - 1];
  }

  lemma PicturesStep(pre: Orientation, configs: Configs, rounds: seq<Round>)
    requires TailPresent(rounds) && NoneMissing(rounds) && rounds != []
    ensures var r := rounds[0];
            Pictures(Decoded(pre, configs, rounds)) ==
              if FitsWindow(r) then [Shown(r.data.value)] + Pictures(Decoded(r.cur, configs, rounds[1..]))
              else Pictures(Decoded(pre, configs, rounds[1..]))
  {
    var cur := rounds[0].cur;
    var more := Feeds(pre, cur, configs, rounds[0].data.value);
    if more != [] {
      PicturesAppend(more, Decoded(cur, configs, rounds[1..]));
      PicturesOfFeeds(pre, cur, configs, rounds[0].data.value);
    }
  }

  /** Every frame is fed if and only if the orientation flag suits each frame's tag at the moment the
      loop reads it; otherwise frames are missing from the codec's input. */
  lemma {:induction false} FedWithoutGaps(pre: Orientation, configs: Configs, rounds: seq<Round>)
    requires TailPresent(rounds) && NoneMissing(rounds)
    ensures var ps := Pictures(Decoded(pre, configs, rounds));
            if AllFitWindow(rounds) then ps == AllShown(rounds) else |ps| < |rounds|
    decreases |rounds|
  {
    if rounds != [] {
      AllFitWindowStep(rounds);
      PicturesStep(pre, configs, rounds);
      FedWithoutGaps(if FitsWindow(rounds[0]) then rounds[0].cur else pre, configs, rounds[1..]);
    }
  }

  // ----- Which frames are fed

  /** A frame is fed unless its tag names the other orientation. */
  predicate IsFed(r: Round)
    requires r.data.Some? ==> |r.data.value| >= 2
  {
    r.data.Some?
    && var tag := r.data.value[|r.data.value| - 2];
       !(tag == 1 && r.cur == Landscape) && !(tag == 2 && r.cur == Portrait)
  }

  /** The turns up to the first without a frame, or through the first whose frame the codec refuses. */
  function ActedOn(rounds: seq<Round>): (n: nat)
    requires TailPresent(rounds)
    ensures n <= |rounds|
    ensures forall i :: 0 <= i < n ==> rounds[i].data.Some?
    ensures forall i :: 0 <= i < n - 1 ==> IsFed(rounds[i]) ==> rounds[i].ret
    ensures n < |rounds| ==> rounds[n].data.None? || (n > 0 && IsFed(rounds[n - 1]) && !rounds[n - 1].ret)
  {
    if rounds == [] || rounds[0].data.None? then 0
    else if IsFed(rounds[0]) && !rounds[0].ret then 1
    else 1 + ActedOn(rounds[1..])
  }

  /** The frame of a turn without its tag and flags but with the tag beside it, if it is fed. */
  function OneFed(r: Round): seq<Input>
    requires r.data.Some? ==> |r.data.value| >= 2
  {
    if IsFed(r) then
      var frame := r.data.value;
      [Picture(frame[|frame| - 2], frame[..|frame| - 2])]
    else []
  }

  function FedOf(rounds: seq<Round>): seq<Input>
    requires TailPresent(rounds)
  {
    if rounds == [] then [] else OneFed(rounds[0]) + FedOf(rounds[1..])
  }

  lemma FedOfStep(rounds: seq<Round>)
    requires TailPresent(rounds) && rounds != [] && rounds[0].data.Some?
    ensures var r, rest := rounds[0], rounds[1..];
            FedOf(rounds[..ActedOn(rounds)]) ==
              if IsFed(r) && !r.ret then OneFed(r) else OneFed(r) + FedOf(rest[..ActedOn(rest)])
  {
    var n := ActedOn(rounds);
    assert rounds[..n][0] == rounds[0] && rounds[..n][1..] == rounds[1..][..n - 1];
    if IsFed(rounds[0]) && !rounds[0].ret {
      assert rounds[1..][..0] == [];
    }
  }

  lemma PicturesOfTurn(pre: Orientation, configs: Configs, rounds: seq<Round>)
    requires TailPresent(rounds) && rounds != [] && rounds[0].data.Some?
    ensures var r, rest := rounds[0], rounds[1..];
            Pictures(Decoded(pre, configs, rounds)) ==
              if IsFed(r) && !r.ret then OneFed(r)
              else OneFed(r) + Pictures(Decoded(if IsFed(r) then r.cur else pre, configs, rest))
  {
    var r := rounds[0];
    var fed := Feeds(pre, r.cur, configs, r.data.value);
    PicturesOfFeeds(pre, r.cur, configs, r.data.value);
    assert Pictures(fed) == OneFed(r) && (IsFed(r) <==> fed != []);
    PicturesAppend(fed, Decoded(r.cur, configs, rounds[1..]));
  }

  /** Over every run, the pictures fed are exactly the frames of the turns acted on that suit the window;
      nothing is fed after a turn without a frame or after one that the codec refuses. */
  lemma {:induction false} DecodedExactly(pre: Orientation, configs: Configs, rounds: seq<Round>)
    requires TailPresent(rounds)
    ensures Pictures(Decoded(pre, configs, rounds)) == FedOf(rounds[..ActedOn(rounds)])
    decreases |rounds|
  {
    if rounds != [] && rounds[0].data.Some? {
      var r := rounds[0];
      PicturesOfTurn(pre, configs, rounds);
      FedOfStep(rounds);
      if !IsFed(r) || r.ret {
        DecodedExactly(if IsFed(r) then r.cur else pre, configs, rounds[1..]);
      }
    }
  }

  /** Each configuration fed is the stored one of its orientation. */
  ghost predicate ConfigsStored(fed: seq<Input>, portrait: seq<byte>, landscape: seq<byte>) {
    forall i :: 0 <= i < |fed| && fed[i].Config? ==>
      fed[i].data == if fed[i].orientation == Portrait then portrait else landscape
  }

  lemma DecodedMeans(pre: Orientation, configs: Configs, rounds: seq<Round>)
    requires TailPresent(rounds)
    ensures var fed := Decoded(pre, configs, rounds);
            && Disciplined(pre, configs, fed) && ConfigsStored(fed, configs.portrait, configs.landscape)
            && Pictures(fed) == FedOf(rounds[..ActedOn(rounds)])
  {
    var fed := Decoded(pre, configs, rounds);
    DecodedIsDisciplined(pre, configs, [], pre, rounds);
    assert [] + fed == fed;
    DecodedExactly(pre, configs, rounds);
    ConfigsAreStored(pre, configs, fed);
  }

  // ----- The code

  /** The globals of one client: list1, isCurPortrait1, isPrePortrait1 and the stored configurations. */
  class Client {
    var list: seq<Packet>
    var isCurPortrait: bool
    var isPrePortrait: bool
    var isPlaying: bool
    var spsPpsPortrait: seq<byte>
    var spsPpsLandscape: seq<byte>

    constructor ()
      ensures list == [] && isCurPortrait && isPrePortrait && !isPlaying
      ensures spsPpsPortrait == [] && spsPpsLandscape == []
    {
      list := [];
      isCurPortrait, isPrePortrait, isPlaying := true, true, false;
      spsPpsPortrait, spsPpsLandscape := [], [];
    }

    function Cur(): Orientation
      reads this
    {
      if isCurPortrait then Portrait else Landscape
    }

    function Pre(): Orientation
      reads this
    {
      if isPrePortrait then Portrait else Landscape
    }

    function Stored(): Configs
      reads this
    {
      Configs(spsPpsPortrait, spsPpsLandscape)
    }

    /** Three scans and two dropping loops. The second loop is meant to drop again up to a later key
        frame, but it stops at the leading one, so the effect is that of the first loop alone. */
    method DrainFrame()
      modifies this`list
      ensures list == Drained(old(list))
    {
      var size1 := |list|;
      var firstKeyFrame := false;
      var count := 0;
      while count < |list|
        invariant count <= |list| && list == old(list)
        invariant !firstKeyFrame && forall i :: 0 <= i < count ==> !IsKey(list[i])
      {
        firstKeyFrame := IsKey(list[count]);
        count := count + 1;
        if firstKeyFrame {
          FirstKeyUnique(list, count - 1);
          break;
        }
      }
      if firstKeyFrame && count > 1 {
        ghost var kept := Drained(list);
        while true
          invariant FirstKey(list) < |list| <= size1 && list[FirstKey(list)..] == kept
          decreases |list|
        {
          if !IsKey(list[0]) {
            FirstKeyTail(list);
            list := list[1..];
          } else {
            break;
          }
        }
        var size2 := |list|;
        if size1 > size2 {
          firstKeyFrame := false;
          var secondKeyFrame := false;
          count := 0;
          while count < |list|
            invariant count <= |list| && list == kept
          {
            firstKeyFrame := IsKey(list[count]);
            count := count + 1;
            if firstKeyFrame && secondKeyFrame {
              break;
            } else if firstKeyFrame && !secondKeyFrame {
              secondKeyFrame := true;
            }
          }
          if firstKeyFrame && secondKeyFrame && count > 2 {
            secondKeyFrame := false;
            while true
              invariant FirstKey(list) < |list| && list[FirstKey(list)..] == kept
              decreases !secondKeyFrame, |list|
            {
              if !IsKey(list[0]) {
                FirstKeyTail(list);
                list := list[1..];
              } else {
                if secondKeyFrame {
                  break;
                }
                secondKeyFrame := true;
              }
            }
          }
        }
      }
    }

    method PutData(encodedData: array<byte>, size: nat)
      requires 0 < size <= encodedData.Length
      modifies this`list
      ensures list == old(list) + [encodedData[..size]]
    {
      var frame: seq<byte> := encodedData[..size];
      list := list + [frame];
    }

    /** getData up to the wait: `None` means that it now waits for a signal. */
    method GetData() returns (data: Option<Packet>)
      modifies this`list
      ensures old(list) == [] ==> data == None && list == []
      ensures old(list) != [] ==> data == Some(Drained(old(list))[0]) && list == Drained(old(list))[1..]
    {
      DrainFrame();
      if |list| == 0 {
        data := None;
      } else {
        data := Some(list[0]);
        list := list[1..];
      }
    }

    /** getData after the wait: woken by a put it takes the front without draining, woken by a stop
        it gives up. */
    method GetDataWoken() returns (data: Option<Packet>)
      requires isPlaying ==> list != []
      modifies this`list
      ensures !isPlaying ==> data == None && list == old(list)
      ensures isPlaying ==> data == Some(old(list)[0]) && list == old(list)[1..]
    {
      if !isPlaying {
        return None;
      }
      data := Some(list[0]);
      list := list[1..];
    }

    method SetOrientation(orientation: int)
      modifies this`isCurPortrait
      ensures Cur() == if orientation == 1 then Portrait else Landscape
    {
      if orientation == 1 {
        isCurPortrait := true;
      } else {
        isCurPortrait := false;
      }
    }

    method SetSpsPps(orientation: int, spsPps: array<byte>, size: nat)
      requires size <= spsPps.Length
      modifies this`spsPpsPortrait, this`spsPpsLandscape
      ensures Stored() == if orientation == 1 then old(Stored()).(portrait := spsPps[..size])
                          else old(Stored()).(landscape := spsPps[..size])
    {
      if orientation == 1 {
        spsPpsPortrait := spsPps[..size];
      } else {
        spsPpsLandscape := spsPps[..size];
      }
    }

    /** startDecoder: the orientation is remembered, then the loop runs. */
    method StartDecoder(rounds: seq<Round>) returns (fed: seq<Input>)
      requires TailPresent(rounds)
      modifies this`isCurPortrait, this`isPrePortrait
      ensures fed == Decoded(old(Cur()), Stored(), rounds)
      ensures Disciplined(old(Cur()), Stored(), fed)
      ensures Pictures(fed) == FedOf(rounds[..ActedOn(rounds)])
      ensures ConfigsStored(fed, spsPpsPortrait, spsPpsLandscape)
    {
      isPrePortrait := isCurPortrait;
      fed := DecoderLoop(rounds);
      DecodedMeans(old(Cur()), Stored(), rounds);
    }

    /** One frame: skipped if it does not suit the window, else fed behind a new configuration if one is
        needed. */
    method FeedFrame(frame: seq<byte>) returns (more: seq<Input>)
      requires |frame| >= 2
      modifies this`isPrePortrait
      ensures more == Feeds(old(Pre()), Cur(), Stored(), frame)
      ensures Pre() == if more == [] then old(Pre()) else Cur()
    {
      more := [];
      var size := |frame|;
      if frame[size - 2] == 1 && !isCurPortrait {
        return;
      } else if frame[size - 2] == 2 && isCurPortrait {
        return;
      }
      if isPrePortrait != isCurPortrait {
        var spsPpsFrame := if isCurPortrait then spsPpsPortrait else spsPpsLandscape;
        more := more + [Config(Cur(), spsPpsFrame)];
        isPrePortrait := isCurPortrait;
      }
      more := more + [Picture(frame[size - 2], frame[..size - 2])];
    }

    /** The decoder loop. Between iterations the receive thread may change isCurPortrait, so each
        round brings the value that the iteration reads. */
    method DecoderLoop(rounds: seq<Round>) returns (fed: seq<Input>)
      requires TailPresent(rounds)
      modifies this`isCurPortrait, this`isPrePortrait
      ensures fed == Decoded(old(Pre()), Stored(), rounds)
    {
      fed := [];
      ghost var all := Decoded(Pre(), Stored(), rounds);
      assert [] + all == all;
      var i := 0;
      while i < |rounds|
        invariant 0 <= i <= |rounds|
        invariant fed + Decoded(Pre(), Stored(), rounds[i..]) == all
      {
        DecodedStep(fed, Pre(), Stored(), rounds[i..]);
        assert rounds[i..][1..] == rounds[i + 1..];
        var Round(data, cur, ret) := rounds[i];
        i := i + 1;
        isCurPortrait := cur.Portrait?;
        if data == None {
          break;
        }
        var more := FeedFrame(data.value);
        if more == [] {
          continue;
        }
        fed := fed + more;
        if !ret {
          break;
        }
      }
    }
  }
}

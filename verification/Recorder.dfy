/** The recording loop of screenrecord. */
module Recorder {
  import opened Bytes
  import opened Wrappers
  import opened Winscope

  // ----- The loop as a function of what the encoder answers

  const FLAG_CODECCONFIG := 2
  const FLAG_EOS := 4

  /** A bit of a flags word. */
  predicate Has(flags: uint32, bit: nat)
    requires bit > 0
  {
    flags / bit % 2 == 1
  }

  /** What dequeueOutputBuffer answers, with what the calls that follow it will: `display` is the
      polled orientation, `now` the clock, the errors are 0 for success. */
  datatype Event =
    | Buffer(index: nat, data: seq<byte>, size: nat, pts: int, flags: uint32,
             display: Option<int>, now: int, muxErr: int, releaseErr: int)
    | TryAgain
    | FormatChanged(track: int, metaTrack: int, startErr: int)
    | BuffersChanged(err: int)
    | Other(err: int)

  /** One iteration; the turns end where a signal stops the loop. */
  datatype Turn = Turn(timeUp: bool, event: Event)

  datatype Mode = Mp4 | OtherContainer | Raw

  datatype Sample = Sample(track: int, data: seq<byte>, pts: int, flags: uint32)

  datatype Exit = Stopped | NotStarted | Failed(err: int)

  datatype State = State(
    track: int, metaTrack: int, samples: seq<Sample>, raw: seq<byte>, released: seq<nat>,
    timestamps: seq<int>, orientation: int, projections: seq<int>)

  function Initial(orientation: int): State { State(-1, -1, [], [], [], [], orientation, []) }

  predicate WellFormed(e: Event) { e.Buffer? ==> e.size <= |e.data| }

  predicate EndsStream(e: Event) { e.Buffer? && Has(e.flags, FLAG_EOS) }

  /** The polled orientation, if it is known and new. */
  function Polled(s: State, e: Event): State
    requires e.Buffer?
  {
    if e.display.Some? && e.display.value != s.orientation then
      s.(orientation := e.display.value, projections := s.projections + [e.display.value])
    else s
  }

  /** Recording one buffer. */
  function Recorded(mode: Mode, s: State, e: Event): (r: (State, Option<Exit>))
    requires e.Buffer? && WellFormed(e)
  {
    var p := Polled(s, e);
    if mode.Raw? then (p.(raw := p.raw + e.data[..e.size]), None)
    else if p.track == -1 then (p, Some(NotStarted))
    else
      var stamp := if e.pts == 0 then e.now else e.pts;
      var t := p.(samples := p.samples + [Sample(p.track, e.data, stamp, e.flags)]);
      if e.muxErr != 0 then (t, Some(Failed(e.muxErr)))
      else (if mode.Mp4? then t.(timestamps := t.timestamps + [stamp]) else t, None)
  }

  function Next(mode: Mode, s: State, e: Event): (r: (State, Option<Exit>))
    requires WellFormed(e)
  {
    match e
    case Buffer(index, _, _, _, _, _, _, _, releaseErr) =>
      var size := if Has(e.flags, FLAG_CODECCONFIG) && !mode.Raw? then 0 else e.size;
      var (t, exit) := if size != 0 then Recorded(mode, s, e) else (s, None);
      if exit.Some? then (t, exit)
      else (t.(released := t.released + [index]), if releaseErr != 0 then Some(Failed(releaseErr)) else None)
    case TryAgain => (s, None)
    case FormatChanged(track, metaTrack, startErr) =>
      if mode.Raw? then (s, None)
      else
        (s.(track := track, metaTrack := if mode.Mp4? then metaTrack else s.metaTrack),
         if startErr != 0 then Some(Failed(startErr)) else None)
    case BuffersChanged(err) => (s, if err != 0 then Some(Failed(err)) else None)
    case Other(err) => (s, Some(Failed(err)))
  }

  predicate AllWellFormed(turns: seq<Turn>) { forall i :: 0 <= i < |turns| ==> WellFormed(turns[i].event) }

  function Run(mode: Mode, s: State, turns: seq<Turn>): (r: (State, Exit))
    requires AllWellFormed(turns)
    decreases |turns|
  {
    if turns == [] || turns[0].timeUp then (s, Stopped)
    else
      var (t, exit) := Next(mode, s, turns[0].event);
      if exit.Some? then (t, exit.value)
      else if EndsStream(turns[0].event) then (t, Stopped)
      else Run(mode, t, turns[1..])
  }

  // ----- What a recording holds

  /** The turns that are acted on: up to the end of the stream or the time limit. */
  function Horizon(turns: seq<Turn>): (n: nat)
    ensures n <= |turns|
    ensures forall i :: 0 <= i < n ==> !turns[i].timeUp
    ensures forall i :: 0 <= i < n - 1 ==> !EndsStream(turns[i].event)
    ensures n < |turns| ==> turns[n].timeUp || (n > 0 && EndsStream(turns[n - 1].event))
  {
    if turns == [] || turns[0].timeUp then 0
    else if EndsStream(turns[0].event) then 1
    else 1 + Horizon(turns[1..])
  }

  /** The buffers whose contents are recorded: with a container, configuration is left out. */
  predicate Records(mode: Mode, e: Event) {
    e.Buffer? && e.size != 0 && (mode.Raw? || !Has(e.flags, FLAG_CODECCONFIG))
  }

  /** The encoder's time stamp, or the clock's if there is none. */
  function Stamp(e: Event): int
    requires e.Buffer?
  {
    if e.pts != 0 then e.pts else e.now
  }

  /** What one event contributes. */
  function SampleOf(mode: Mode, track: int, e: Event): seq<Sample> {
    if Records(mode, e) && !mode.Raw? then [Sample(track, e.data, Stamp(e), e.flags)] else []
  }

  function RawOf(mode: Mode, e: Event): seq<byte>
    requires WellFormed(e)
  {
    if Records(mode, e) && mode.Raw? then e.data[..e.size] else []
  }

  function TrackAfter(mode: Mode, track: int, e: Event): int {
    if e.FormatChanged? && !mode.Raw? then e.track else track
  }

  function MetaTrackAfter(mode: Mode, metaTrack: int, e: Event): int {
    if e.FormatChanged? && mode.Mp4? then e.metaTrack else metaTrack
  }

  /** The display's orientation, polled at each recorded buffer and kept when it is not known. */
  function OrientationAfter(mode: Mode, orientation: int, e: Event): int {
    if Records(mode, e) && e.display.Some? then e.display.value else orientation
  }

  /** A projection is set for each change. */
  function ProjectionOf(mode: Mode, orientation: int, e: Event): seq<int> {
    var now := OrientationAfter(mode, orientation, e);
    if now == orientation then [] else [now]
  }

  function IndexOf(e: Event): seq<nat> { if e.Buffer? then [e.index] else [] }

  /** The recordable buffers, each as a sample of the track in force. */
  function Samples(mode: Mode, track: int, turns: seq<Turn>): seq<Sample>
    decreases |turns|
  {
    if turns == [] then []
    else
      var e := turns[0].event;
      SampleOf(mode, track, e) + Samples(mode, TrackAfter(mode, track, e), turns[1..])
  }

  /** The contents written in raw mode, one after the other. */
  function RawBytes(mode: Mode, turns: seq<Turn>): seq<byte>
    requires AllWellFormed(turns)
    decreases |turns|
  {
    if turns == [] then [] else RawOf(mode, turns[0].event) + RawBytes(mode, turns[1..])
  }

  function TrackOf(mode: Mode, track: int, turns: seq<Turn>): int
    decreases |turns|
  {
    if turns == [] then track else TrackOf(mode, TrackAfter(mode, track, turns[0].event), turns[1..])
  }

  function MetaTrackOf(mode: Mode, metaTrack: int, turns: seq<Turn>): int
    decreases |turns|
  {
    if turns == [] then metaTrack else MetaTrackOf(mode, MetaTrackAfter(mode, metaTrack, turns[0].event), turns[1..])
  }

  function Projections(mode: Mode, orientation: int, turns: seq<Turn>): seq<int>
    decreases |turns|
  {
    if turns == [] then []
    else
      var e := turns[0].event;
      ProjectionOf(mode, orientation, e) + Projections(mode, OrientationAfter(mode, orientation, e), turns[1..])
  }

  function Dequeued(turns: seq<Turn>): seq<nat> {
    if turns == [] then [] else IndexOf(turns[0].event) + Dequeued(turns[1..])
  }

  function StampsOf(samples: seq<Sample>): (ts: seq<int>)
    ensures |ts| == |samples| && forall i :: 0 <= i < |ts| ==> ts[i] == samples[i].pts
  {
    seq(|samples|, i requires 0 <= i < |samples| => samples[i].pts)
  }

  lemma StampsOfAppend(a: seq<Sample>, b: seq<Sample>)
    ensures StampsOf(a + b) == StampsOf(a) + StampsOf(b)
  {
  }

  /** An event without error does all it contributes and nothing else. */
  lemma NextContributes(mode: Mode, s: State, e: Event)
    requires WellFormed(e) && Next(mode, s, e).1 == None
    ensures var t := Next(mode, s, e).0;
            && t.track == TrackAfter(mode, s.track, e)
            && t.samples == s.samples + SampleOf(mode, s.track, e)
            && t.released == s.released + IndexOf(e)
            && t.timestamps == s.timestamps + (if mode.Mp4? then StampsOf(SampleOf(mode, s.track, e)) else [])
            && t.raw == s.raw + RawOf(mode, e)
            && t.metaTrack == MetaTrackAfter(mode, s.metaTrack, e)
            && t.orientation == OrientationAfter(mode, s.orientation, e)
            && t.projections == s.projections + ProjectionOf(mode, s.orientation, e)
  {
    assert StampsOf([]) == [];
    if Records(mode, e) && !mode.Raw? {
      assert StampsOf(SampleOf(mode, s.track, e)) == [Stamp(e)];
    }
  }

  /** From `s` to `t` a recording has gained exactly what the acted turns contribute: with a container
      the non-empty buffers that are not configuration as samples, else the contents of all buffers, in
      order; and each dequeued buffer released once, in order. The tracks are those of the last format
      change, and a projection was set for each change of orientation found at a recorded buffer. */
  ghost predicate Gained(mode: Mode, s: State, t: State, acted: seq<Turn>)
    requires AllWellFormed(acted)
  {
    var samples := Samples(mode, s.track, acted);
    && t.samples == s.samples + samples
    && t.released == s.released + Dequeued(acted)
    && t.timestamps == s.timestamps + (if mode.Mp4? then StampsOf(samples) else [])
    && t.raw == s.raw + RawBytes(mode, acted)
    && t.track == TrackOf(mode, s.track, acted) && t.metaTrack == MetaTrackOf(mode, s.metaTrack, acted)
    && t.projections == s.projections + Projections(mode, s.orientation, acted)
  }

  lemma GainedNothing(mode: Mode, s: State)
    ensures Gained(mode, s, s, [])
  {
    assert StampsOf([]) == [];
  }

  lemma GainedMore(mode: Mode, s: State, t: State, u: State, first: Turn, more: seq<Turn>)
    requires WellFormed(first.event) && Next(mode, s, first.event) == (t, None)
    requires AllWellFormed(more) && Gained(mode, t, u, more)
    ensures Gained(mode, s, u, [first] + more)
  {
    var e := first.event;
    NextContributes(mode, s, e);
    assert ([first] + more)[1..] == more;
    var one, rest := SampleOf(mode, s.track, e), Samples(mode, t.track, more);
    assert Samples(mode, s.track, [first] + more) == one + rest;
    assert Dequeued([first] + more) == IndexOf(e) + Dequeued(more);
    StampsOfAppend(one, rest);
    AppendTwice(s.samples, one, rest);
    AppendTwice(s.released, IndexOf(e), Dequeued(more));
    AppendTwice(s.timestamps, StampsOf(one), StampsOf(rest));
    var turned := ProjectionOf(mode, s.orientation, e);
    assert Projections(mode, s.orientation, [first] + more) == turned + Projections(mode, t.orientation, more);
    AppendTwice(s.projections, turned, Projections(mode, t.orientation, more));
    AppendTwice(s.raw, RawOf(mode, e), RawBytes(mode, more));
  }

  lemma AppendTwice<T>(a: seq<T>, b: seq<T>, c: seq<T>)
    ensures a + b + c == a + (b + c)
  {
  }

  /** A recording that exits normally has gained exactly what the turns before the time limit
      and up to the end of the stream contribute; nothing later was touched. */
  lemma {:induction false} NormalRun(mode: Mode, s: State, turns: seq<Turn>)
    requires AllWellFormed(turns)
    requires Run(mode, s, turns).1 == Stopped
    ensures Gained(mode, s, Run(mode, s, turns).0, turns[..Horizon(turns)])
    decreases |turns|
  {
    GainedNothing(mode, s);
    if turns != [] && !turns[0].timeUp {
      var first, rest := turns[0], turns[1..];
      var t := Next(mode, s, first.event).0;
      if EndsStream(first.event) {
        GainedNothing(mode, t);
        GainedMore(mode, s, t, t, first, []);
        assert turns[..1] == [first] + [];
      } else {
        NormalRun(mode, t, rest);
        GainedMore(mode, s, t, Run(mode, t, rest).0, first, rest[..Horizon(rest)]);
        assert turns[..Horizon(turns)] == [first] + rest[..Horizon(rest)];
      }
    }
  }

  // ----- When a recording succeeds

  /** No call made for this event fails: a recorded buffer has its track and is taken by the muxer, every
      buffer is taken back, the muxer starts, the buffers can be had again. A time-out is harmless, and
      any other answer is not. */
  predicate Harmless(mode: Mode, track: int, e: Event) {
    match e
    case TryAgain => true
    case Buffer(_, _, _, _, _, _, _, muxErr, releaseErr) =>
      (Records(mode, e) && !mode.Raw? ==> track != -1 && muxErr == 0) && releaseErr == 0
    case FormatChanged(_, _, startErr) => !mode.Raw? ==> startErr == 0
    case BuffersChanged(err) => err == 0
    case Other(_) => false
  }

  /** What the first call that fails makes of the recording. */
  function Fault(mode: Mode, track: int, e: Event): Exit
    requires !Harmless(mode, track, e)
  {
    match e
    case Buffer(_, _, _, _, _, _, _, muxErr, releaseErr) =>
      if Records(mode, e) && !mode.Raw? && track == -1 then NotStarted
      else if Records(mode, e) && !mode.Raw? && muxErr != 0 then Failed(muxErr)
      else Failed(releaseErr)
    case FormatChanged(_, _, startErr) => Failed(startErr)
    case BuffersChanged(err) => Failed(err)
    case Other(err) => Failed(err)
  }

  /** Turn i is harmless with the track that the format changes before it leave in force. */
  predicate HarmlessAt(mode: Mode, track: int, turns: seq<Turn>, i: nat)
    requires i < |turns|
  {
    Harmless(mode, TrackOf(mode, track, turns[..i]), turns[i].event)
  }

  predicate AllHarmless(mode: Mode, track: int, turns: seq<Turn>) {
    forall i :: 0 <= i < |turns| ==> HarmlessAt(mode, track, turns, i)
  }

  lemma HarmlessNext(mode: Mode, s: State, e: Event)
    requires WellFormed(e)
    ensures Next(mode, s, e).1 == if Harmless(mode, s.track, e) then None else Some(Fault(mode, s.track, e))
  {
  }

  lemma HarmlessLater(mode: Mode, track: int, first: Turn, more: seq<Turn>)
    ensures HarmlessAt(mode, track, [first] + more, 0) <==> Harmless(mode, track, first.event)
    ensures forall i :: 0 <= i < |more| ==>
              (HarmlessAt(mode, track, [first] + more, i + 1) <==>
               HarmlessAt(mode, TrackAfter(mode, track, first.event), more, i))
  {
    var all := [first] + more;
    assert all[..0] == [];
    forall i | 0 <= i < |more|
      ensures HarmlessAt(mode, track, all, i + 1) <==> HarmlessAt(mode, TrackAfter(mode, track, first.event), more, i)
    {
      assert all[..i + 1] == [first] + more[..i];
      assert all[..i + 1][1..] == more[..i];
    }
  }

  /** Over every run: it ends normally if and only if every turn acted on is harmless, and else as the
      first one that is not says. */
  lemma {:induction false} ExitExactly(mode: Mode, s: State, turns: seq<Turn>) returns (n: nat)
    requires AllWellFormed(turns)
    ensures var acted, exit := turns[..Horizon(turns)], Run(mode, s, turns).1;
            && (exit == Stopped <==> AllHarmless(mode, s.track, acted))
            && n <= |acted| && (exit == Stopped <==> n == |acted|)
            && (forall i :: 0 <= i < n ==> HarmlessAt(mode, s.track, acted, i))
            && (n < |acted| ==>
                  && !HarmlessAt(mode, s.track, acted, n)
                  && exit == Fault(mode, TrackOf(mode, s.track, acted[..n]), acted[n].event))
    decreases |turns|
  {
    var acted := turns[..Horizon(turns)];
    n := 0;
    if turns != [] && !turns[0].timeUp {
      var first := turns[0];
      var t := Next(mode, s, first.event).0;
      HarmlessNext(mode, s, first.event);
      var more := if EndsStream(first.event) then [] else turns[1..][..Horizon(turns[1..])];
      assert acted == [first] + more;
      HarmlessLater(mode, s.track, first, more);
      assert acted[..0] == [];
      if Harmless(mode, s.track, first.event) {
        NextContributes(mode, s, first.event);
        if EndsStream(first.event) {
          n := 1;
        } else {
          var k := ExitExactly(mode, t, turns[1..]);
          n := k + 1;
          ExitLater(mode, s.track, first, more, k);
        }
      } else {
        assert !HarmlessAt(mode, s.track, acted, 0);
      }
    }
  }

  lemma ExitLater(mode: Mode, track: int, first: Turn, more: seq<Turn>, k: nat)
    requires k <= |more| && Harmless(mode, track, first.event)
    ensures var all, after := [first] + more, TrackAfter(mode, track, first.event);
            && (AllHarmless(mode, track, all) <==> AllHarmless(mode, after, more))
            && ((forall i :: 0 <= i < k ==> HarmlessAt(mode, after, more, i)) ==>
                  forall i :: 0 <= i < k + 1 ==> HarmlessAt(mode, track, all, i))
            && TrackOf(mode, track, all[..k + 1]) == TrackOf(mode, after, more[..k])
            && (k < |more| ==> all[k + 1] == more[k])
  {
    var all, after := [first] + more, TrackAfter(mode, track, first.event);
    HarmlessLater(mode, track, first, more);
    assert all[..k + 1] == [first] + more[..k];
    assert all[..k + 1][1..] == more[..k];
    forall i | 0 < i < |all|
      ensures HarmlessAt(mode, track, all, i) <==> HarmlessAt(mode, after, more, i - 1)
    {
      assert HarmlessAt(mode, track, all, (i - 1) + 1) <==> HarmlessAt(mode, after, more, i - 1);
    }
    if AllHarmless(mode, track, all) {
      forall i | 0 <= i < |more|
        ensures HarmlessAt(mode, after, more, i)
      {
        assert HarmlessAt(mode, track, all, i + 1);
      }
    }
  }

  /** A time-out of the encoder, which is its commonest answer, changes nothing. */
  lemma TimeoutsAreSkipped(mode: Mode, s: State, turns: seq<Turn>)
    requires AllWellFormed(turns)
    ensures Run(mode, s, [Turn(false, TryAgain)] + turns) == Run(mode, s, turns)
  {
    assert ([Turn(false, TryAgain)] + turns)[1..] == turns;
  }

  lemma NextReleases(mode: Mode, s: State, e: Event)
    requires WellFormed(e)
    ensures var (t, exit) := Next(mode, s, e);
            || t.released == s.released + IndexOf(e)
            || (exit.Some? && Records(mode, e) && t.released == s.released)
  {
  }

  /** Whatever ends the run, at most the buffer that could not be recorded stays unreleased. */
  ghost predicate ReleasedUpTo(mode: Mode, s: State, t: State, exit: Exit, acted: seq<Turn>) {
    || t.released == s.released + Dequeued(acted)
    || (&& exit != Stopped && acted != [] && Records(mode, acted[|acted| - 1].event)
        && t.released == s.released + Dequeued(acted[..|acted| - 1]))
  }

  lemma {:induction false} AtMostOneUnreleased(mode: Mode, s: State, turns: seq<Turn>)
    returns (acted: seq<Turn>)
    requires AllWellFormed(turns)
    ensures acted <= turns[..Horizon(turns)]
    ensures ReleasedUpTo(mode, s, Run(mode, s, turns).0, Run(mode, s, turns).1, acted)
    ensures Run(mode, s, turns).1 == Stopped ==> acted == turns[..Horizon(turns)]
    decreases |turns|
  {
    if turns == [] || turns[0].timeUp {
      acted := [];
    } else {
      var first, rest := turns[0], turns[1..];
      var (t, exit) := Next(mode, s, first.event);
      NextReleases(mode, s, first.event);
      if exit.Some? || EndsStream(first.event) {
        acted := [first];
        assert acted[1..] == [] && acted[..0] == [];
      } else {
        var more := AtMostOneUnreleased(mode, t, rest);
        acted := [first] + more;
        ReleasedMore(mode, s, t, Run(mode, t, rest).0, Run(mode, t, rest).1, first, more);
      }
    }
  }

  lemma ReleasedMore(mode: Mode, s: State, t: State, u: State, exit: Exit, first: Turn, more: seq<Turn>)
    requires t.released == s.released + IndexOf(first.event)
    requires ReleasedUpTo(mode, t, u, exit, more)
    ensures ReleasedUpTo(mode, s, u, exit, [first] + more)
  {
    var acted := [first] + more;
    assert acted[1..] == more;
    if more != [] {
      var init := acted[..|acted| - 1];
      assert init[0] == first && init[1..] == more[..|more| - 1];
      assert acted[|acted| - 1] == more[|more| - 1];
    }
  }

  /** An MP4 recording that ends normally: its metadata reads back as the number of samples and each
      sample's time stamp plus the clock offset. */
  lemma Mp4Recording(orientation: int, turns: seq<Turn>, offset: int)
    requires AllWellFormed(turns)
    requires Run(Mp4, Initial(orientation), turns).1 == Stopped
    requires var samples := Run(Mp4, Initial(orientation), turns).0.samples;
             |samples| < 0x1_0000_0000 && forall i :: 0 <= i < |samples| ==> IsInt64(samples[i].pts + offset)
    ensures var t := Run(Mp4, Initial(orientation), turns).0;
            && t.samples == Samples(Mp4, -1, turns[..Horizon(turns)])
            && t.released == Dequeued(turns[..Horizon(turns)])
            && ReadMetadata(Metadata(t.timestamps, offset)) == Some(Shifted(StampsOf(t.samples), offset))
  {
    NormalRun(Mp4, Initial(orientation), turns);
    var t := Run(Mp4, Initial(orientation), turns).0;
    assert t.timestamps == StampsOf(t.samples);
    MetadataRoundTrip(t.timestamps, offset);
  }

  /** How a recording ends and whether it has metadata to write, by the encoder's answers alone. */
  lemma RecordingEnds(mode: Mode, orientation: int, turns: seq<Turn>)
    requires AllWellFormed(turns)
    ensures var (t, exit) := Run(mode, Initial(orientation), turns);
            var acted := turns[..Horizon(turns)];
            && (exit == Stopped <==> AllHarmless(mode, -1, acted))
            && (exit == Stopped ==>
                  && t.metaTrack == MetaTrackOf(mode, -1, acted)
                  && (t.timestamps != [] <==> mode.Mp4? && Samples(mode, -1, acted) != []))
  {
    var n := ExitExactly(mode, Initial(orientation), turns);
    if Run(mode, Initial(orientation), turns).1 == Stopped {
      NormalRun(mode, Initial(orientation), turns);
      assert |StampsOf(Samples(mode, -1, turns[..Horizon(turns)]))| == |Samples(mode, -1, turns[..Horizon(turns)])|;
    }
  }

  // ----- The code

  /** It succeeds exactly if every turn up to the end of the stream or the time limit is harmless and the
      metadata, if there is any, is taken. There is exactly if the last format change gave it a track and
      a sample was recorded. `metaErr` is the muxer's answer to the metadata sample; `meta` what was written. */
  method RunEncoder(mode: Mode, initialOrientation: int, buffersErr: int, turns: seq<Turn>, offset: int, metaErr: int)
    returns (s: State, exit: Exit, meta: Option<seq<byte>>)
    requires AllWellFormed(turns)
    ensures buffersErr != 0 ==> s == Initial(initialOrientation) && exit == Failed(buffersErr) && meta == None
    ensures buffersErr == 0 ==> s == Run(mode, Initial(initialOrientation), turns).0
    ensures meta.Some? <==> buffersErr == 0 && Run(mode, Initial(initialOrientation), turns).1 == Stopped
                            && s.metaTrack >= 0 && s.timestamps != []
    ensures meta.Some? ==> meta.value == Metadata(s.timestamps, offset)
    ensures buffersErr == 0 ==>
              exit == if meta.Some? && metaErr != 0 then Failed(metaErr)
                      else Run(mode, Initial(initialOrientation), turns).1
    ensures var acted := turns[..Horizon(turns)];
            && (exit == Stopped <==>
                  buffersErr == 0 && AllHarmless(mode, -1, acted) && (meta.Some? ==> metaErr == 0))
            && (meta.Some? <==>
                  && buffersErr == 0 && AllHarmless(mode, -1, acted) && mode.Mp4?
                  && MetaTrackOf(mode, -1, acted) >= 0 && Samples(mode, -1, acted) != [])
  {
    RecordingEnds(mode, initialOrientation, turns);
    s := Initial(initialOrientation);
    meta := None;
    if buffersErr != 0 {
      return s, Failed(buffersErr), None;
    }
    var gStopRequested := false;
    var i := 0;
    while i < |turns| && !gStopRequested
      invariant 0 <= i <= |turns|
      invariant Run(mode, Initial(initialOrientation), turns)
             == if gStopRequested then (s, Stopped) else Run(mode, s, turns[i..])
    {
      assert turns[i..][1..] == turns[i + 1..];
      if turns[i].timeUp {
        gStopRequested := true;
        break;
      }
      var e := turns[i].event;
      i := i + 1;
      match e {
        case Buffer(index, data, dequeued, pts, flags, display, now, muxErr, releaseErr) =>
          var size := dequeued;
          if Has(flags, FLAG_CODECCONFIG) {
            if !mode.Raw? {
              size := 0;
            }
          }
          if size != 0 {
            if display.Some? {
              if s.orientation != display.value {
                s := s.(projections := s.projections + [display.value]);
                s := s.(orientation := display.value);
              }
            }
            var ptsUsec := if pts == 0 then now else pts;
            if mode.Raw? {
              s := s.(raw := s.raw + data[..size]);
            } else {
              if s.track == -1 {
                return s, NotStarted, None;
              }
              s := s.(samples := s.samples + [Sample(s.track, data, ptsUsec, flags)]);
              if muxErr != 0 {
                return s, Failed(muxErr), None;
              }
              if mode.Mp4? {
                s := s.(timestamps := s.timestamps + [ptsUsec]);
              }
            }
          }
          s := s.(released := s.released + [index]);
          if releaseErr != 0 {
            return s, Failed(releaseErr), None;
          }
          if Has(flags, FLAG_EOS) {
            gStopRequested := true;
          }
        case TryAgain =>
        case FormatChanged(track, metaTrack, startErr) =>
          if !mode.Raw? {
            s := s.(track := track);
            if mode.Mp4? {
              s := s.(metaTrack := metaTrack);
            }
            if startErr != 0 {
              return s, Failed(startErr), None;
            }
          }
        case BuffersChanged(err) =>
          if err != 0 {
            return s, Failed(err), None;
          }
        case Other(err) =>
          return s, Failed(err), None;
      }
    }
    exit := Stopped;
    if s.metaTrack >= 0 && s.timestamps != [] {
      var buffer := WinscopeMetadata(s.timestamps, offset);
      meta := Some(buffer[..]);
      if metaErr != 0 {
        exit := Failed(metaErr);
      }
    }
  }
}

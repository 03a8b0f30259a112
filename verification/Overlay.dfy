/** The overlay thread, its starter, its frame callbacks and stop, all under one mutex. */
module Overlay {

  /** The thread state, in the order in which it is declared to advance. */
  datatype Phase = Uninitialized | Init | Running | Stopping | Stopped {
    function Rank(): nat {
      match this
      case Uninitialized => 0
      case Init => 1
      case Running => 2
      case Stopping => 3
      case Stopped => 4
    }
  }

  /** The fields the mutex guards; `consumer` is whether mGlConsumer is set, `processed` the history of
      frame numbers. */
  datatype Fields = Fields(
    phase: Phase, threadResult: int, frameAvailable: bool, consumer: bool,
    lastFrameNumber: int, totalDroppedFrames: int, processed: seq<int>)

  // ----- The critical sections as functions of the fields

  function Started(f: Fields): Fields { f.(phase := Init) }

  function StopAsked(f: Fields): Fields { f.(phase := Stopping) }

  function FrameCame(f: Fields): Fields { f.(frameAvailable := true) }

  /** threadLoop up to its first wait, or to its end when setup fails. */
  function SetUp(f: Fields, err: int): Fields {
    if err != 0 then f.(threadResult := err, phase := Stopped, consumer := false)
    else f.(threadResult := 0, phase := Running, consumer := true)
  }

  function Processed(f: Fields, frame: int): Fields {
    f.(totalDroppedFrames := if f.lastFrameNumber > 0 then f.totalDroppedFrames + (frame - f.lastFrameNumber) - 1
                             else f.totalDroppedFrames,
       lastFrameNumber := frame,
       processed := f.processed + [frame])
  }

  /** threadLoop from a wake-up to the next wait, or to its end. */
  function Woken(f: Fields, frame: int): Fields {
    var g := if f.frameAvailable then Processed(f, frame).(frameAvailable := false) else f;
    if g.phase == Running then g else g.(consumer := false, phase := Stopped)
  }

  // ----- The threads

  /** A thread that waits on a condition variable may have been signalled. */
  datatype Thread = NotCreated | Created | Waits(signalled: bool) | Ended

  datatype Starter = NotCalled | WaitsForThread(signalled: bool) | Returned(result: int)

  datatype State = State(f: Fields, thread: Thread, starter: Starter, stops: nat)

  const UNKNOWN_ERROR := -0x8000_0000

  const INITIAL := State(Fields(Uninitialized, UNKNOWN_ERROR, false, false, -1, 0, []), NotCreated, NotCalled, 0)

  /** Spurious wake-ups are allowed. */
  datatype Action =
    | CallStart
    | StarterWakes
    | ThreadStarts(err: int)
    | ThreadWakes(frame: int)
    | FrameCallback
    | CallStop

  predicate Enabled(s: State, a: Action) {
    match a
    case CallStart => s.starter == NotCalled
    case StarterWakes => s.starter.WaitsForThread?
    case ThreadStarts(_) => s.thread == Created
    case ThreadWakes(_) => s.thread.Waits?
    case FrameCallback => s.thread.Waits? || s.thread.Ended?
    case CallStop => true
  }

  function Signal(t: Thread): Thread { if t.Waits? then Waits(true) else t }

  function Next(s: State, a: Action): State
    requires Enabled(s, a)
  {
    match a
    case CallStart => s.(f := Started(s.f), thread := Created, starter := WaitsForThread(false))
    case StarterWakes =>
      if s.f.phase == Init then s.(starter := WaitsForThread(false))
      else s.(starter := Returned(s.f.threadResult))
    case ThreadStarts(err) =>
      s.(f := SetUp(s.f, err), thread := if err != 0 then Ended else Waits(false),
         starter := if s.starter.WaitsForThread? then WaitsForThread(true) else s.starter)
    case ThreadWakes(frame) =>
      var g := Woken(s.f, frame);
      s.(f := g, thread := if g.phase == Running then Waits(false) else Ended)
    case FrameCallback => s.(f := FrameCame(s.f), thread := Signal(s.thread))
    case CallStop => s.(f := StopAsked(s.f), thread := Signal(s.thread), stops := s.stops + 1)
  }

  /** recordScreen stops the overlay once, and only after a successful start. */
  predicate Proper(s: State, a: Action) { a.CallStop? ==> s.starter == Returned(0) && s.stops == 0 }

  ghost predicate Reaches(s: State, actions: seq<Action>, t: State, proper: bool)
    decreases |actions|
  {
    if actions == [] then s == t
    else
      && Enabled(s, actions[0]) && (proper ==> Proper(s, actions[0]))
      && Reaches(Next(s, actions[0]), actions[1..], t, proper)
  }

  // ----- Nobody sleeps through a change, whoever stops the overlay and when

  /** A thread that waits unsignalled has nothing to do, and the consumer exists exactly between setup
      and release. */
  ghost predicate Awake(s: State) {
    && (s.thread == Waits(false) ==> s.f.phase == Running && !s.f.frameAvailable)
    && (s.starter == WaitsForThread(false) ==> s.thread == Created)
    && (s.f.consumer <==> s.thread.Waits?)
    && (s.thread == NotCreated <==> s.starter == NotCalled)
    && (s.thread == NotCreated ==> s.f.phase == Uninitialized || s.f.phase == Stopping)
    && (s.f.phase == Init ==> s.thread == Created)
    && (s.thread == Created ==> s.f.phase == Init || s.f.phase == Stopping)
    && (s.thread.Waits? ==> s.f.phase == Running || s.f.phase == Stopping)
    && (s.thread == NotCreated || s.thread == Created ==> !s.f.frameAvailable && s.f.processed == [])
  }

  lemma {:induction false} NoLostWakeUp(s: State, actions: seq<Action>, t: State)
    requires Awake(s) && Reaches(s, actions, t, false)
    ensures Awake(t)
    decreases |actions|
  {
    if actions != [] {
      NoLostWakeUp(Next(s, actions[0]), actions[1..], t);
    }
  }

  /** Over every run, with any stops: a waiting thread that nobody has signalled has nothing to do, and a
      starter that nobody has signalled waits for a thread that is still to run. */
  lemma NobodyIsForgotten(actions: seq<Action>, t: State)
    requires Reaches(INITIAL, actions, t, false)
    ensures t.thread == Waits(false) ==> t.f.phase == Running && !t.f.frameAvailable
    ensures t.starter == WaitsForThread(false) ==> t.thread == Created
    ensures t.f.consumer <==> t.thread.Waits?
  {
    NoLostWakeUp(INITIAL, actions, t);
  }

  // ----- The declared order

  /** As long as stop comes once, after a successful start. */
  ghost predicate InOrder(s: State) {
    && Awake(s)
    && s.stops <= 1 && (s.stops == 1 ==> s.starter == Returned(0))
    && (match s.starter
        case NotCalled => s.f.phase == Uninitialized && s.f.threadResult != 0
        case WaitsForThread(_) =>
          && (s.thread == Created <==> s.f.phase == Init)
          && (s.thread.Waits? <==> s.f.phase == Running)
          && (s.thread.Waits? <==> s.f.threadResult == 0)
          && (s.thread.Ended? ==> s.f.phase == Stopped)
        case Returned(result) =>
          && s.thread != Created && (result == 0 <==> s.f.threadResult == 0)
          && (result == 0 && s.stops == 0 ==> s.f.phase == Running)
          && (result != 0 ==> s.f.phase == Stopped))
  }

  lemma ProperStep(s: State, a: Action)
    requires InOrder(s) && Enabled(s, a) && Proper(s, a)
    ensures InOrder(Next(s, a)) && s.f.phase.Rank() <= Next(s, a).f.phase.Rank()
    ensures a.StarterWakes? && Next(s, a).starter == Returned(0) ==> Next(s, a).f.phase == Running
    ensures Next(s, a).f.processed != s.f.processed ==> s.f.consumer && a.ThreadWakes?
  {
  }

  lemma {:induction false} ProperRun(s: State, actions: seq<Action>, t: State)
    requires InOrder(s) && Reaches(s, actions, t, true)
    ensures InOrder(t) && s.f.phase.Rank() <= t.f.phase.Rank()
    decreases |actions|
  {
    if actions != [] {
      ProperStep(s, actions[0]);
      ProperRun(Next(s, actions[0]), actions[1..], t);
    }
  }

  /** Over every proper run the phase only advances; start reports success only in Running; a failed
      start leaves the overlay Stopped; and a frame is processed only by the overlay thread while the
      consumer exists, which is after setup and before release. */
  lemma StatesAdvance(before: seq<Action>, s: State, a: Action, after: seq<Action>, t: State)
    requires Reaches(INITIAL, before, s, true) && Enabled(s, a) && Proper(s, a)
    requires Reaches(Next(s, a), after, t, true)
    ensures s.f.phase.Rank() <= Next(s, a).f.phase.Rank() <= t.f.phase.Rank()
    ensures a.StarterWakes? && Next(s, a).starter == Returned(0) ==> Next(s, a).f.phase == Running
    ensures a.StarterWakes? && Next(s, a).starter.Returned? && Next(s, a).starter != Returned(0) ==>
              Next(s, a).f.phase == Stopped
    ensures Next(s, a).f.processed != s.f.processed ==> s.f.consumer && a.ThreadWakes?
  {
    ProperRun(INITIAL, before, s);
    ProperStep(s, a);
    ProperRun(Next(s, a), after, t);
  }

  /** Without that restriction a step moves the phase backwards exactly when it stops an overlay that
      has already stopped, or when a start and its thread go on over a stop that came before them. */
  lemma BackwardsExactly(before: seq<Action>, s: State, a: Action)
    requires Reaches(INITIAL, before, s, false) && Enabled(s, a)
    ensures Next(s, a).f.phase.Rank() < s.f.phase.Rank() <==>
              (a.CallStop? && s.f.phase == Stopped) || (a.CallStart? && s.f.phase == Stopping)
                || (a.ThreadStarts? && a.err == 0 && s.f.phase == Stopping)
  {
    NoLostWakeUp(INITIAL, before, s);
  }

  lemma Runs(a: Action, b: Action)
    requires Enabled(INITIAL, a) && Enabled(Next(INITIAL, a), b)
    ensures Reaches(INITIAL, [a], Next(INITIAL, a), false)
    ensures Reaches(INITIAL, [a, b], Next(Next(INITIAL, a), b), false)
  {
    assert [a][1..] == [] && [a, b][1..] == [b] && [b][1..] == [];
  }

  /** Each of the three happens. A stop after a start that failed goes back. */
  lemma {:induction false} StopGoesBack() returns (s: State)
    ensures Reaches(INITIAL, [CallStart, ThreadStarts(1)], s, false)
    ensures s.f.phase == Stopped && Next(s, CallStop).f.phase == Stopping
  {
    Runs(CallStart, ThreadStarts(1));
    s := Next(Next(INITIAL, CallStart), ThreadStarts(1));
  }

  /** A start after a stop goes back. */
  lemma {:induction false} StartGoesBack() returns (s: State)
    ensures Reaches(INITIAL, [CallStop], s, false) && Enabled(s, CallStart)
    ensures s.f.phase == Stopping && Next(s, CallStart).f.phase == Init
  {
    Runs(CallStop, CallStop);
    s := Next(INITIAL, CallStop);
  }

  /** A thread that sets up after a stop that came in while start was waiting goes back. */
  lemma {:induction false} SetUpGoesBack() returns (s: State)
    ensures Reaches(INITIAL, [CallStart, CallStop], s, false) && Enabled(s, ThreadStarts(0))
    ensures s.f.phase == Stopping && Next(s, ThreadStarts(0)).f.phase == Running
  {
    Runs(CallStart, CallStop);
    s := Next(Next(INITIAL, CallStart), CallStop);
  }

  // ----- No frame is left pending

  /** A wake-up that finds a pending frame processes it, whether the overlay runs on or is stopping; the
      thread then waits on, or has released the consumer and ended. */
  lemma {:induction false} WakeProcesses(before: seq<Action>, s: State, frame: int)
    requires Reaches(INITIAL, before, s, false) && s.thread.Waits?
    ensures var t := Next(s, ThreadWakes(frame));
            && t.f.processed == s.f.processed + (if s.f.frameAvailable then [frame] else [])
            && !t.f.frameAvailable
            && (if s.f.phase == Running then t.thread == Waits(false) && t.f.phase == Running && t.f.consumer
                else t.thread == Ended && t.f.phase == Stopped && !t.f.consumer)
  {
    NoLostWakeUp(INITIAL, before, s);
  }

  /** A callback leaves a frame pending and, as a stop does, a waiting thread signalled; what is pending
      stays so until the thread wakes. */
  lemma PendingStays(s: State, a: Action)
    requires Enabled(s, a)
    ensures a.FrameCallback? ==> Next(s, a).f.frameAvailable
    ensures (a.FrameCallback? || a.CallStop?) && s.thread.Waits? ==> Next(s, a).thread == Waits(true)
    ensures s.f.frameAvailable && !a.ThreadWakes? ==> Next(s, a).f.frameAvailable
    ensures !a.ThreadWakes? ==> Next(s, a).f.processed == s.f.processed
  {
  }

  /** The frame numbers at the wake-ups that found a frame pending: it was, when a callback had come since
      the wake-up before, or was so from the start. */
  function Found(pending: bool, actions: seq<Action>): seq<int>
    decreases |actions|
  {
    if actions == [] then []
    else
      match actions[0]
      case ThreadWakes(frame) => (if pending then [frame] else []) + Found(false, actions[1..])
      case FrameCallback => Found(true, actions[1..])
      case _ => Found(pending, actions[1..])
  }

  lemma {:induction false} RunProcesses(s: State, actions: seq<Action>, t: State)
    requires Reaches(s, actions, t, false)
    ensures t.f.processed == s.f.processed + Found(s.f.frameAvailable, actions)
    decreases |actions|
  {
    if actions != [] {
      RunProcesses(Next(s, actions[0]), actions[1..], t);
    }
  }

  /** Over every run, with any stops and spurious wake-ups: the frames processed are exactly those of the
      wake-ups with a callback since the wake-up before. */
  lemma {:induction false} FramesProcessedExactly(actions: seq<Action>, t: State)
    requires Reaches(INITIAL, actions, t, false)
    ensures t.f.processed == Found(false, actions)
  {
    RunProcesses(INITIAL, actions, t);
    assert [] + Found(false, actions) == Found(false, actions);
  }

  // ----- What start reports

  /** Start reports what the thread's setup answered, or the initial error if a stop let it return before
      the thread had run. */
  lemma {:induction false} StartReports(actions: seq<Action>, t: State)
    requires Reaches(INITIAL, actions, t, false) && t.starter.Returned?
    ensures t.starter.result == UNKNOWN_ERROR
            || exists i :: 0 <= i < |actions| && actions[i] == ThreadStarts(t.starter.result)
  {
    ReportsFrom(INITIAL, actions, t);
  }

  lemma {:induction false} ReportsFrom(s: State, actions: seq<Action>, t: State)
    requires Reaches(s, actions, t, false)
    ensures t.f.threadResult == s.f.threadResult
            || exists i :: 0 <= i < |actions| && actions[i] == ThreadStarts(t.f.threadResult)
    ensures t.starter.Returned? ==>
              || s.starter == t.starter || t.starter.result == s.f.threadResult
              || exists i :: 0 <= i < |actions| && actions[i] == ThreadStarts(t.starter.result)
    decreases |actions|
  {
    if actions != [] {
      var rest := actions[1..];
      ReportsFrom(Next(s, actions[0]), rest, t);
      forall i | 0 <= i < |rest|
        ensures rest[i] == actions[i + 1]
      {
      }
    }
  }

  // ----- Dropped frames

  /** With frame numbers from 1 on, each frame was processed or counted as dropped. */
  ghost predicate Counted(f: Fields) {
    if f.processed == [] then f.lastFrameNumber == -1 && f.totalDroppedFrames == 0
    else
      && f.lastFrameNumber == f.processed[|f.processed| - 1] >= 1
      && f.totalDroppedFrames + |f.processed| == f.lastFrameNumber - f.processed[0] + 1
  }

  lemma ProcessedIsCounted(f: Fields, frame: int)
    requires Counted(f) && frame >= 1
    ensures Counted(Processed(f, frame))
    ensures frame > f.lastFrameNumber ==> Processed(f, frame).totalDroppedFrames >= f.totalDroppedFrames
  {
  }

  predicate NumbersFromOne(actions: seq<Action>) {
    forall i :: 0 <= i < |actions| ==> actions[i].ThreadWakes? ==> actions[i].frame >= 1
  }

  lemma {:induction false} CountedRun(s: State, actions: seq<Action>, t: State)
    requires Counted(s.f) && Reaches(s, actions, t, false) && NumbersFromOne(actions)
    ensures Counted(t.f)
    decreases |actions|
  {
    if actions != [] {
      var a := actions[0];
      if a.ThreadWakes? {
        ProcessedIsCounted(s.f, a.frame);
      }
      CountedRun(Next(s, a), actions[1..], t);
    }
  }

  /** Over every run: dropped plus processed frames are all frame numbers from the first to the last. */
  lemma DroppedFramesConserved(actions: seq<Action>, t: State)
    requires Reaches(INITIAL, actions, t, false) && NumbersFromOne(actions)
    ensures t.f.processed != [] ==>
              t.f.totalDroppedFrames + |t.f.processed| ==
                t.f.processed[|t.f.processed| - 1] - t.f.processed[0] + 1
  {
    CountedRun(INITIAL, actions, t);
  }

  // ----- The code

  class Overlay {
    var mState: Phase
    var mThreadResult: int
    var mFrameAvailable: bool
    var mGlConsumer: bool
    var mLastFrameNumber: int
    var mTotalDroppedFrames: int
    ghost var processed: seq<int>

    ghost function Abstract(): Fields
      reads this
    {
      Fields(mState, mThreadResult, mFrameAvailable, mGlConsumer, mLastFrameNumber, mTotalDroppedFrames, processed)
    }

    constructor ()
      ensures Abstract() == INITIAL.f
    {
      mState, mThreadResult, mFrameAvailable, mGlConsumer := Uninitialized, UNKNOWN_ERROR, false, false;
      mLastFrameNumber, mTotalDroppedFrames, processed := -1, 0, [];
    }

    /** start up to its wait; the new thread blocks on the mutex until then. */
    method Start()
      modifies this
      ensures Abstract() == Started(old(Abstract()))
    {
      mState := Init;
    }

    /** start after a wake-up: `None` when it goes on waiting. */
    method StartResumed() returns (done: bool, result: int)
      ensures done <==> mState != Init
      ensures done ==> result == mThreadResult
    {
      done, result := mState != Init, mThreadResult;
    }

    method Stop()
      modifies this
      ensures Abstract() == StopAsked(old(Abstract()))
    {
      mState := Stopping;
    }

    method OnFrameAvailable()
      modifies this
      ensures Abstract() == FrameCame(old(Abstract()))
    {
      mFrameAvailable := true;
    }

    /** threadLoop up to its first wait; `setupResult` is what setup_l answers. */
    method ThreadLoopBegins(setupResult: int) returns (waits: bool)
      modifies this
      ensures Abstract() == SetUp(old(Abstract()), setupResult)
      ensures waits <==> setupResult == 0
    {
      mThreadResult := setupResult;
      mGlConsumer := setupResult == 0;
      if mThreadResult != 0 {
        mState := Stopped;
        Release();
        return false;
      }
      mState := Running;
      waits := true;
    }

    /** threadLoop from a wake-up on; `frameNumber` is the one the consumer would report. */
    method ThreadLoopResumes(frameNumber: int) returns (waits: bool)
      modifies this
      ensures Abstract() == Woken(old(Abstract()), frameNumber)
      ensures waits <==> mState == Running
    {
      if mFrameAvailable {
        ProcessFrame(frameNumber);
        mFrameAvailable := false;
      }
      if mState == Running {
        return true;
      }
      Release();
      mState := Stopped;
      waits := false;
    }

    method ProcessFrame(frameNumber: int)
      modifies this
      ensures Abstract() == Processed(old(Abstract()), frameNumber)
    {
      if mLastFrameNumber > 0 {
        mTotalDroppedFrames := mTotalDroppedFrames + (frameNumber - mLastFrameNumber) - 1;
      }
      mLastFrameNumber := frameNumber;
      processed := processed + [frameNumber];
    }

    method Release()
      modifies this`mGlConsumer
      ensures !mGlConsumer
    {
      mGlConsumer := false;
    }
  }
}

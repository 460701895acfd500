/**
  The main program of src/recorder.cpp.  Start-up: create the run directory,
  open two video writers in it, start the sensor.  Then, until a check fails
  or `q` is pressed: read a colour and a depth frame, write one frame to each
  video, write both frames as PNG files named with the current timestamp, and
  on `s` write a screenshot pair.  Then release the sensor and return 0.

  The outside world is an input: whether the directory could be created, the
  start-up results, and for each loop iteration a Tick with the read results,
  the clock, whether a write threw, and the key code `waitKey` returned.
*/
module Recorder {
  import opened Format
  import opened Naming
  import opened Session

  /** Whether, and where, one of the two-statement `try` blocks threw a std::runtime_error. */
  datatype Throw = NoThrow | FirstThrows | SecondThrows

  /** The outside world as one loop iteration sees it. */
  datatype Tick = Tick(
    checks: Reads,
    clock: Tm,    // localtime(time(0)) at the timestamp
    usec: int,    // tv_usec of gettimeofday
    video: Throw, // the block writing one frame to each video writer
    png: Throw,   // the block writing the two frame PNG files
    key: int)     // what cv::waitKey(10) returned

  /** The calls of a two-statement `try` block that are made: a throw skips the second. */
  function Attempted(block: seq<Action>, t: Throw): seq<Action>
    requires |block| == 2
  {
    if t == FirstThrows then block[..1] else block
  }

  /** The writes to the two video files of a pass whose reads succeeded. */
  function VideoWrites(): seq<Action> {
    [WriteVideo(Color, ColorBgr), WriteVideo(Depth, DepthBgr)]
  }

  /**
    The file of that kind a pass writes: all four are named after the one
    timestamp the pass computes from its clock reading.
  */
  function FrameFile(kind: ImageKind, subdirectory: string, t: Tick): ImageFile {
    Stamped(kind, subdirectory, t.clock, t.usec)
  }

  function PngWrites(subdirectory: string, t: Tick): seq<Action> {
    [SavePng(FrameFile(FrameRgb, subdirectory, t), ColorBgr),
     SavePng(FrameFile(FrameDepth, subdirectory, t), DepthBgr)]
  }

  function ScreenshotWrites(subdirectory: string, t: Tick): seq<Action> {
    [SaveScreenshot(FrameFile(ScreenshotRgb, subdirectory, t), ColorBgr),
     SaveScreenshot(FrameFile(ScreenshotDepth, subdirectory, t), DepthGray)]
  }

  /** What a pass does once its reads succeeded. */
  function Written(subdirectory: string, t: Tick): Iteration {
    var png := PngWrites(subdirectory, t);
    if t.video != NoThrow then Iteration(Attempted(VideoWrites(), t.video), Abort)
    else if t.png != NoThrow then Iteration(VideoWrites() + Attempted(png, t.png), Abort)
    else if KeyChar(t.key) == KeyScreenshot then
      Iteration(VideoWrites() + png + ScreenshotWrites(subdirectory, t), Continue)
    else if KeyChar(t.key) == KeyQuit then Iteration(VideoWrites() + png, Quit)
    else Iteration(VideoWrites() + png, Continue)
  }

  /** One pass through the body of `while (recording)`. */
  function Step(subdirectory: string, t: Tick): Iteration {
    var sensed := ReadActions(t.checks);
    if !ReadsOk(t.checks) then Iteration(sensed, Break)
    else
      var w := Written(subdirectory, t);
      Iteration(sensed + w.acts, w.next)
  }

  /** The passes the inputs give, in order. */
  function Steps(subdirectory: string, ticks: seq<Tick>): seq<Iteration> {
    seq(|ticks|, j requires 0 <= j < |ticks| => Step(subdirectory, ticks[j]))
  }

  /** The loop over the inputs, with the teardown that follows it. */
  function Loop(subdirectory: string, ticks: seq<Tick>): Run {
    Chain(Steps(subdirectory, ticks))
  }

  /** The calls made before the loop once the directory exists. */
  function Opening(subdirectory: string): seq<Action> {
    [MakeDirectory(subdirectory),
     OpenVideo(ColorVideoPath(subdirectory), Color),
     OpenVideo(DepthVideoPath(subdirectory), Depth)]
  }

  /** Everything main does once the run directory's name is built, and how it ends. */
  function Main(subdirectory: string, dirCreated: bool, sensor: SensorWorld, ticks: seq<Tick>): Run {
    if !dirCreated then Run([MakeDirectory(subdirectory)], Exited(-1))
    else
      var failure := SensorFailure(sensor);
      if failure.Some? then Run(Opening(subdirectory) + StartupReads(failure), Exited(-1))
      else Then(Opening(subdirectory) + StartupReads(None), Loop(subdirectory, ticks))
  }

  /** Everything main does, and how it ends. */
  function RecorderRun(directory: string, clock: Tm, dirCreated: bool, sensor: SensorWorld, ticks: seq<Tick>): Run {
    Main(Subdirectory(directory, clock), dirCreated, sensor, ticks)
  }

  /**
    The body of `while (recording)`: the three checks that `break`, the
    timestamp, then the rest of the body.  `next` says how control leaves it.
  */
  method Iterate(subdirectory: string, tick: Tick) returns (acts: seq<Action>, next: Next)
    ensures Iteration(acts, next) == Step(subdirectory, tick)
  {
    acts := [];
    if !tick.checks.colorValid {
      return acts, Break;
    }
    acts := acts + [ReadFrame(Color)];
    if !tick.checks.colorRead {
      return acts, Break;
    }
    acts := acts + [ReadFrame(Depth)];
    if !tick.checks.depthRead {
      return acts, Break;
    }
    // the timestamp the file names share is taken here, from tick.clock and tick.usec
    var writes;
    writes, next := Write(subdirectory, tick);
    acts := acts + writes;
  }

  /** The two `try` blocks that `return -1` on a std::runtime_error, and the key dispatch. */
  method Write(subdirectory: string, tick: Tick) returns (acts: seq<Action>, next: Next)
    ensures Iteration(acts, next) == Written(subdirectory, tick)
  {
    acts := [WriteVideo(Color, ColorBgr)];
    if tick.video == FirstThrows {
      return acts, Abort;
    }
    acts := acts + [WriteVideo(Depth, DepthBgr)];
    if tick.video == SecondThrows {
      return acts, Abort;
    }

    acts := acts + [SavePng(Stamped(FrameRgb, subdirectory, tick.clock, tick.usec), ColorBgr)];
    if tick.png == FirstThrows {
      return acts, Abort;
    }
    acts := acts + [SavePng(Stamped(FrameDepth, subdirectory, tick.clock, tick.usec), DepthBgr)];
    if tick.png == SecondThrows {
      return acts, Abort;
    }

    next := Continue;
    var key := KeyChar(tick.key);
    if key == KeyScreenshot {
      acts := acts + [SaveScreenshot(Stamped(ScreenshotRgb, subdirectory, tick.clock, tick.usec), ColorBgr)];
      acts := acts + [SaveScreenshot(Stamped(ScreenshotDepth, subdirectory, tick.clock, tick.usec), DepthGray)];
    } else if key == KeyQuit {
      next := Quit;
    }
  }

  /**
    main: `directory` is the configured output root, `clock` the start time,
    `dirCreated` the result of boost::filesystem::create_directory.
  */
  method Record(directory: string, clock: Tm, dirCreated: bool, sensor: SensorWorld, ticks: seq<Tick>)
    returns (outcome: Outcome, trace: seq<Action>)
    ensures Run(trace, outcome) == RecorderRun(directory, clock, dirCreated, sensor, ticks)
  {
    var subdirectory := directory + "/" + RunDirName(clock);
    assert subdirectory == Subdirectory(directory, clock);
    trace := [MakeDirectory(subdirectory)];
    if !dirCreated {
      return Exited(-1), trace;
    }
    trace := trace + [OpenVideo(subdirectory + "/" + "video_color.avi", Color)];
    trace := trace + [OpenVideo(subdirectory + "/" + "video_depth.avi", Depth)];
    assert trace == Opening(subdirectory);
    var failure, startReads := StartSensor(sensor);
    trace := trace + startReads;
    if failure.Some? {
      return Exited(-1), trace;
    }
    var rest;
    outcome, rest := Acquire(subdirectory, ticks);
    trace := trace + rest;
  }

  /** `while (recording)` and, when the loop ends normally, the teardown and `return 0`. */
  method Acquire(subdirectory: string, ticks: seq<Tick>) returns (outcome: Outcome, trace: seq<Action>)
    ensures Run(trace, outcome) == Loop(subdirectory, ticks)
  {
    ghost var its := Steps(subdirectory, ticks);
    trace := [];
    var recording := true;
    var i := 0;
    while recording
      invariant 0 <= i <= |ticks|
      invariant recording ==> Chain(its) == Then(trace, Chain(its[i..]))
      invariant !recording ==> Chain(its) == Run(trace + Teardown(), Exited(0))
      decreases |ticks| - i
    {
      if i == |ticks| {
        // the inputs end here while the program would go on recording
        assert trace + [] == trace;
        return Recording, trace;
      }
      var acts, next := Iterate(subdirectory, ticks[i]);
      ChainPass(its, i, trace, acts, next);
      i := i + 1;
      trace := trace + acts;
      if next == Abort {
        return Exited(-1), trace;
      } else if next == Break {
        break;
      } else if next == Quit {
        recording := false;
      }
    }

    trace := trace + Teardown();
    outcome := Exited(0);
  }

  // ---------------------------------------------------------------------------
  // The passes of the inputs

  lemma StepsAppend(subdirectory: string, ticks: seq<Tick>, more: seq<Tick>)
    ensures Steps(subdirectory, ticks + more) == Steps(subdirectory, ticks) + Steps(subdirectory, more)
  {
  }

  lemma StepsPrefix(subdirectory: string, ticks: seq<Tick>, k: nat)
    requires k <= |ticks|
    ensures Steps(subdirectory, ticks)[..k] == Steps(subdirectory, ticks[..k])
  {
  }

  // ---------------------------------------------------------------------------
  // One pass

  /** The checks passed and neither `try` block threw: the pass reached the key dispatch. */
  predicate Completes(t: Tick) {
    ReadsOk(t.checks) && t.video == NoThrow && t.png == NoThrow
  }

  /** A read check breaks, then a throw returns -1, then `q` quits; anything else goes on. */
  lemma StepNext(subdirectory: string, t: Tick)
    ensures Step(subdirectory, t).next == Break <==> !ReadsOk(t.checks)
    ensures Step(subdirectory, t).next == Abort <==> ReadsOk(t.checks) && !Completes(t)
    ensures Step(subdirectory, t).next == Quit <==> Completes(t) && KeyChar(t.key) == KeyQuit
    ensures Step(subdirectory, t).next == Continue <==> Completes(t) && KeyChar(t.key) != KeyQuit
  {
  }

  /**
    A completed pass reads both frames, writes one frame to each video, then
    the rgb and the depth PNG, and on `s` the screenshot pair, all named with
    the one timestamp it computed.
  */
  lemma StepWrites(subdirectory: string, t: Tick)
    requires Completes(t)
    ensures Step(subdirectory, t).acts
        == [ReadFrame(Color), ReadFrame(Depth), WriteVideo(Color, ColorBgr), WriteVideo(Depth, DepthBgr),
            SavePng(FrameFile(FrameRgb, subdirectory, t), ColorBgr),
            SavePng(FrameFile(FrameDepth, subdirectory, t), DepthBgr)]
           + (if KeyChar(t.key) == KeyScreenshot then ScreenshotWrites(subdirectory, t) else [])
  {
  }

  /** Every image a pass writes is named after the pass's own clock reading, in the run directory. */
  lemma StepFiles(subdirectory: string, t: Tick)
    ensures forall a | a in Step(subdirectory, t).acts && IsImageWrite(a) ::
      a.file.Stamped? && a.file.subdirectory == subdirectory && a.file.clock == t.clock && a.file.usec == t.usec
  {
  }

  /** The image files one pass writes have pairwise different paths. */
  lemma StepFilesDistinct(subdirectory: string, t: Tick)
    ensures var acts := Step(subdirectory, t).acts;
      forall i, j | 0 <= i < j < |acts| && IsImageWrite(acts[i]) && IsImageWrite(acts[j]) ::
        FilePath(acts[i].file) != FilePath(acts[j].file)
  {
    var acts := Step(subdirectory, t).acts;
    forall i, j | 0 <= i < j < |acts| && IsImageWrite(acts[i]) && IsImageWrite(acts[j])
      ensures FilePath(acts[i].file) != FilePath(acts[j].file)
    {
      assert acts[i].file.kind != acts[j].file.kind;
      var stamp := FrameTimestamp(t.clock, t.usec);
      ImagePathInjective(acts[i].file.kind, stamp, acts[j].file.kind, stamp, subdirectory);
    }
  }

  /** Any key other than `s` and `q` (after narrowing to char) does what no key at all does. */
  lemma OtherKeysIgnored(subdirectory: string, t: Tick)
    requires KeyChar(t.key) != KeyScreenshot && KeyChar(t.key) != KeyQuit
    ensures Step(subdirectory, t) == Step(subdirectory, t.(key := -1))
  {
  }

  /** Key codes that agree in their low byte act alike; 's' + 256 also takes a screenshot. */
  lemma KeyLowByte(subdirectory: string, t: Tick, code: int)
    requires code % 256 == t.key % 256
    ensures Step(subdirectory, t.(key := code)) == Step(subdirectory, t)
  {
    assert KeyChar(code) == KeyChar(t.key);
  }

  /** The calls satisfying p among the writes of a pass whose checks passed. */
  lemma WrittenCount(subdirectory: string, t: Tick, p: Action -> bool)
    ensures var png := PngWrites(subdirectory, t);
      var shots := ScreenshotWrites(subdirectory, t);
      Count(Written(subdirectory, t).acts, p)
        == Bit(p(WriteVideo(Color, ColorBgr)))
         + (if t.video == FirstThrows then 0 else Bit(p(WriteVideo(Depth, DepthBgr))))
         + (if t.video != NoThrow then 0 else Bit(p(png[0])) + (if t.png == FirstThrows then 0 else Bit(p(png[1]))))
         + (if t.video == NoThrow && t.png == NoThrow && KeyChar(t.key) == KeyScreenshot
            then Bit(p(shots[0])) + Bit(p(shots[1])) else 0)
  {
    var png := PngWrites(subdirectory, t);
    var shots := ScreenshotWrites(subdirectory, t);
    var acts := Written(subdirectory, t).acts;
    CountPair(VideoWrites()[0], VideoWrites()[1], p);
    if t.video == FirstThrows {
      assert acts == [WriteVideo(Color, ColorBgr)];
      CountOne(WriteVideo(Color, ColorBgr), p);
    } else if t.video == SecondThrows {
      assert acts == VideoWrites();
    } else {
      CountPair(png[0], png[1], p);
      if t.png == FirstThrows {
        assert acts == VideoWrites() + [png[0]];
        CountOne(png[0], p);
        CountAppend(VideoWrites(), [png[0]], p);
      } else if t.png == SecondThrows || KeyChar(t.key) != KeyScreenshot {
        assert acts == VideoWrites() + png;
        CountAppend(VideoWrites(), png, p);
      } else {
        assert acts == VideoWrites() + png + shots;
        CountPair(shots[0], shots[1], p);
        CountAppend(VideoWrites(), png, p);
        CountAppend(VideoWrites() + png, shots, p);
      }
    }
  }

  /** A pass's calls satisfying p, for a p that no read satisfies. */
  lemma StepCount(subdirectory: string, t: Tick, p: Action -> bool)
    requires !p(ReadFrame(Color)) && !p(ReadFrame(Depth))
    ensures Count(Step(subdirectory, t).acts, p)
      == if ReadsOk(t.checks) then Count(Written(subdirectory, t).acts, p) else 0
  {
    var sensed := ReadActions(t.checks);
    CountNone(sensed, p);
    if ReadsOk(t.checks) {
      CountAppend(sensed, Written(subdirectory, t).acts, p);
    }
  }

  /** No pass releases the sensor; that happens only after the loop. */
  lemma StepReleases(subdirectory: string, t: Tick)
    ensures Count(Step(subdirectory, t).acts, IsRelease) == 0
  {
    CountNone(Step(subdirectory, t).acts, IsRelease);
  }

  /** A pass whose checks passed writes one frame to the colour video, and to the depth one unless the first write threw. */
  lemma StepVideoCounts(subdirectory: string, t: Tick)
    ensures Count(Step(subdirectory, t).acts, IsColorVideoWrite) == Bit(ReadsOk(t.checks))
    ensures Count(Step(subdirectory, t).acts, IsDepthVideoWrite) == Bit(ReadsOk(t.checks) && t.video != FirstThrows)
  {
    StepCount(subdirectory, t, IsColorVideoWrite);
    WrittenCount(subdirectory, t, IsColorVideoWrite);
    StepCount(subdirectory, t, IsDepthVideoWrite);
    WrittenCount(subdirectory, t, IsDepthVideoWrite);
  }

  /** The PNG files a pass writes: one of each when the video block did not throw, fewer after a throw. */
  lemma StepPngCounts(subdirectory: string, t: Tick)
    ensures Count(Step(subdirectory, t).acts, IsRgbPng) == Bit(ReadsOk(t.checks) && t.video == NoThrow)
    ensures Count(Step(subdirectory, t).acts, IsDepthPng)
      == Bit(ReadsOk(t.checks) && t.video == NoThrow && t.png != FirstThrows)
  {
    StepCount(subdirectory, t, IsRgbPng);
    WrittenCount(subdirectory, t, IsRgbPng);
    StepCount(subdirectory, t, IsDepthPng);
    WrittenCount(subdirectory, t, IsDepthPng);
  }

  /** A pass writes a screenshot pair exactly when it completed with `s`. */
  lemma StepScreenshotCount(subdirectory: string, t: Tick)
    ensures Count(Step(subdirectory, t).acts, IsScreenshot) == 2 * Bit(Completes(t) && KeyChar(t.key) == KeyScreenshot)
  {
    StepCount(subdirectory, t, IsScreenshot);
    WrittenCount(subdirectory, t, IsScreenshot);
  }

  // ---------------------------------------------------------------------------
  // The loop

  /** The key codes `waitKey` returned, one per input. */
  function Keys(ticks: seq<Tick>): seq<int> {
    seq(|ticks|, j requires 0 <= j < |ticks| => ticks[j].key)
  }

  /** Passes that all went on write a screenshot pair per `s`. */
  lemma {:induction false} ContinuedScreenshots(subdirectory: string, ticks: seq<Tick>)
    requires forall j | 0 <= j < |ticks| :: Step(subdirectory, ticks[j]).next == Continue
    ensures Tally(Steps(subdirectory, ticks), IsScreenshot) == 2 * Presses(Keys(ticks), KeyScreenshot)
    decreases |ticks|
  {
    if ticks != [] {
      var rest := ticks[1..];
      assert Steps(subdirectory, ticks)[1..] == Steps(subdirectory, rest);
      assert Keys(ticks)[1..] == Keys(rest);
      assert forall j | 0 <= j < |rest| :: rest[j] == ticks[j + 1];
      ContinuedScreenshots(subdirectory, rest);
      StepNext(subdirectory, ticks[0]);
      StepScreenshotCount(subdirectory, ticks[0]);
    }
  }

  /**
    Every pass that completed wrote one frame to each video; a pass that
    threw wrote at most one more to each, and after a normal end the counts
    are exactly the completed passes.
  */
  lemma LoopVideoCounts(subdirectory: string, ticks: seq<Tick>)
    ensures var r := Loop(subdirectory, ticks);
      var c := Completed(Steps(subdirectory, ticks));
      && c <= Count(r.trace, IsColorVideoWrite) <= c + 1
      && c <= Count(r.trace, IsDepthVideoWrite) <= c + 1
      && (r.outcome != Exited(-1) ==> Count(r.trace, IsColorVideoWrite) == c && Count(r.trace, IsDepthVideoWrite) == c)
  {
    var its := Steps(subdirectory, ticks);
    forall j | 0 <= j < |its|
      ensures CountsOnce(its[j], IsColorVideoWrite) && CountsOnce(its[j], IsDepthVideoWrite)
    {
      StepNext(subdirectory, ticks[j]);
      StepVideoCounts(subdirectory, ticks[j]);
    }
    CountNone(Teardown(), IsColorVideoWrite);
    CountNone(Teardown(), IsDepthVideoWrite);
    ChainOnce(its, IsColorVideoWrite);
    ChainOnce(its, IsDepthVideoWrite);
  }

  /** The same for the two frame PNG files of each pass. */
  lemma LoopPngCounts(subdirectory: string, ticks: seq<Tick>)
    ensures var r := Loop(subdirectory, ticks);
      var c := Completed(Steps(subdirectory, ticks));
      && c <= Count(r.trace, IsRgbPng) <= c + 1
      && c <= Count(r.trace, IsDepthPng) <= c + 1
      && (r.outcome != Exited(-1) ==> Count(r.trace, IsRgbPng) == c && Count(r.trace, IsDepthPng) == c)
  {
    var its := Steps(subdirectory, ticks);
    forall j | 0 <= j < |its|
      ensures CountsOnce(its[j], IsRgbPng) && CountsOnce(its[j], IsDepthPng)
    {
      StepNext(subdirectory, ticks[j]);
      StepPngCounts(subdirectory, ticks[j]);
    }
    CountNone(Teardown(), IsRgbPng);
    CountNone(Teardown(), IsDepthPng);
    ChainOnce(its, IsRgbPng);
    ChainOnce(its, IsDepthPng);
  }

  /** Two screenshot files per `s` among the passes that went on, and none otherwise. */
  lemma LoopScreenshots(subdirectory: string, ticks: seq<Tick>)
    ensures Count(Loop(subdirectory, ticks).trace, IsScreenshot)
      == 2 * Presses(Keys(ticks[..Stop(Steps(subdirectory, ticks))]), KeyScreenshot)
  {
    var its := Steps(subdirectory, ticks);
    var k := Stop(its);
    StepsPrefix(subdirectory, ticks, k);
    assert forall j | 0 <= j < k :: ticks[..k][j] == ticks[j] && its[j] == Step(subdirectory, ticks[j]);
    ContinuedScreenshots(subdirectory, ticks[..k]);
    ChainCount(its, IsScreenshot);
    CountNone(Teardown(), IsScreenshot);
    if k < |ticks| {
      StepNext(subdirectory, ticks[k]);
      StepScreenshotCount(subdirectory, ticks[k]);
    }
  }

  /** The sensor is released only after a normal end of the loop: the four release calls, last. */
  lemma LoopReleases(subdirectory: string, ticks: seq<Tick>)
    ensures var r := Loop(subdirectory, ticks);
      && Count(r.trace, IsRelease) == (if r.outcome == Exited(0) then 4 else 0)
      && (r.outcome == Exited(0) ==> |r.trace| >= 4 && r.trace[|r.trace| - 4..] == Teardown())
  {
    var its := Steps(subdirectory, ticks);
    forall j | 0 <= j < |its| ensures Count(its[j].acts, IsRelease) == 0 {
      StepReleases(subdirectory, ticks[j]);
    }
    ChainReleases(its);
  }

  // ---------------------------------------------------------------------------
  // The whole program

  /** The run directory was created and every start-up stage passed. */
  predicate StartsUp(dirCreated: bool, sensor: SensorWorld) {
    dirCreated && SensorFailure(sensor) == None
  }

  /** Calls satisfying p, for a p that nothing before the loop satisfies, are all made by the loop. */
  lemma MainCount(subdirectory: string, dirCreated: bool, sensor: SensorWorld, ticks: seq<Tick>, p: Action -> bool)
    requires forall a | a in Opening(subdirectory) + StartupReads(None) :: !p(a)
    ensures Count(Main(subdirectory, dirCreated, sensor, ticks).trace, p)
      == if StartsUp(dirCreated, sensor) then Count(Loop(subdirectory, ticks).trace, p) else 0
  {
    var r := Main(subdirectory, dirCreated, sensor, ticks);
    var opening := Opening(subdirectory) + StartupReads(None);
    if !dirCreated {
      CountNone(r.trace, p);
    } else if !StartsUp(dirCreated, sensor) {
      assert forall a | a in r.trace :: a in opening;
      CountNone(r.trace, p);
    } else {
      CountNone(opening, p);
      CountAppend(opening, Loop(subdirectory, ticks).trace, p);
    }
  }

  /**
    A failed start-up returns -1 before any frame is written and without
    releasing anything; a failed directory creation returns before the
    video writers are opened.
  */
  lemma StartupFailure(subdirectory: string, dirCreated: bool, sensor: SensorWorld, ticks: seq<Tick>)
    requires !StartsUp(dirCreated, sensor)
    ensures var r := Main(subdirectory, dirCreated, sensor, ticks);
      && r.outcome == Exited(-1)
      && Count(r.trace, IsWrite) == 0
      && Count(r.trace, IsRelease) == 0
      && (!dirCreated ==> r.trace == [MakeDirectory(subdirectory)])
  {
    MainCount(subdirectory, dirCreated, sensor, ticks, IsWrite);
    MainCount(subdirectory, dirCreated, sensor, ticks, IsRelease);
  }

  /**
    How main ends: -1 exactly when start-up fails or a pass throws, 0 exactly
    when a pass breaks or quits, and still recording only when every input
    went on.
  */
  lemma MainOutcome(subdirectory: string, dirCreated: bool, sensor: SensorWorld, ticks: seq<Tick>)
    ensures var r := Main(subdirectory, dirCreated, sensor, ticks);
      var last := Last(Steps(subdirectory, ticks));
      && (r.outcome == Exited(-1) <==> !StartsUp(dirCreated, sensor) || (last.Some? && last.value.next == Abort))
      && (r.outcome == Exited(0) <==> StartsUp(dirCreated, sensor) && last.Some? && last.value.next in {Break, Quit})
      && (r.outcome == Recording <==> StartsUp(dirCreated, sensor) && last == None)
  {
    ChainOutcome(Steps(subdirectory, ticks));
  }

  /** The release calls come only after a normal end of the loop, all four, in order, last. */
  lemma MainTeardown(subdirectory: string, dirCreated: bool, sensor: SensorWorld, ticks: seq<Tick>)
    ensures var r := Main(subdirectory, dirCreated, sensor, ticks);
      && Count(r.trace, IsRelease) == (if r.outcome == Exited(0) then 4 else 0)
      && (r.outcome == Exited(0) ==> |r.trace| >= 4 && r.trace[|r.trace| - 4..] == Teardown())
  {
    MainCount(subdirectory, dirCreated, sensor, ticks, IsRelease);
    if StartsUp(dirCreated, sensor) {
      var opening := Opening(subdirectory) + StartupReads(None);
      var l := Loop(subdirectory, ticks);
      LoopReleases(subdirectory, ticks);
      if l.outcome == Exited(0) {
        assert (opening + l.trace)[|opening + l.trace| - 4..] == l.trace[|l.trace| - 4..];
      }
    }
  }

  /** The passes that reached the end of the body, over a whole run. */
  function Iterations(subdirectory: string, dirCreated: bool, sensor: SensorWorld, ticks: seq<Tick>): nat {
    if StartsUp(dirCreated, sensor) then Completed(Steps(subdirectory, ticks)) else 0
  }

  /** Each completed pass wrote one frame to each video writer; a pass that threw adds at most one to each. */
  lemma MainVideoCounts(subdirectory: string, dirCreated: bool, sensor: SensorWorld, ticks: seq<Tick>)
    ensures var r := Main(subdirectory, dirCreated, sensor, ticks);
      var c := Iterations(subdirectory, dirCreated, sensor, ticks);
      && c <= Count(r.trace, IsColorVideoWrite) <= c + 1
      && c <= Count(r.trace, IsDepthVideoWrite) <= c + 1
      && (r.outcome != Exited(-1) ==> Count(r.trace, IsColorVideoWrite) == c && Count(r.trace, IsDepthVideoWrite) == c)
  {
    MainCount(subdirectory, dirCreated, sensor, ticks, IsColorVideoWrite);
    MainCount(subdirectory, dirCreated, sensor, ticks, IsDepthVideoWrite);
    LoopVideoCounts(subdirectory, ticks);
  }

  /** Each completed pass wrote its rgb and its depth PNG; a pass that threw adds at most one of each. */
  lemma MainPngCounts(subdirectory: string, dirCreated: bool, sensor: SensorWorld, ticks: seq<Tick>)
    ensures var r := Main(subdirectory, dirCreated, sensor, ticks);
      var c := Iterations(subdirectory, dirCreated, sensor, ticks);
      && c <= Count(r.trace, IsRgbPng) <= c + 1
      && c <= Count(r.trace, IsDepthPng) <= c + 1
      && (r.outcome != Exited(-1) ==> Count(r.trace, IsRgbPng) == c && Count(r.trace, IsDepthPng) == c)
  {
    MainCount(subdirectory, dirCreated, sensor, ticks, IsRgbPng);
    MainCount(subdirectory, dirCreated, sensor, ticks, IsDepthPng);
    LoopPngCounts(subdirectory, ticks);
  }

  /** Two screenshot files for every `s` read while the loop went on. */
  lemma MainScreenshots(subdirectory: string, dirCreated: bool, sensor: SensorWorld, ticks: seq<Tick>)
    requires StartsUp(dirCreated, sensor)
    ensures Count(Main(subdirectory, dirCreated, sensor, ticks).trace, IsScreenshot)
        == 2 * Presses(Keys(ticks[..Stop(Steps(subdirectory, ticks))]), KeyScreenshot)
  {
    MainCount(subdirectory, dirCreated, sensor, ticks, IsScreenshot);
    LoopScreenshots(subdirectory, ticks);
  }

  /** Once main has returned, inputs it did not reach change nothing. */
  lemma MainIgnoresLaterTicks(subdirectory: string, dirCreated: bool, sensor: SensorWorld,
                                  ticks: seq<Tick>, more: seq<Tick>)
    requires Main(subdirectory, dirCreated, sensor, ticks).outcome != Recording
    ensures Main(subdirectory, dirCreated, sensor, ticks + more)
         == Main(subdirectory, dirCreated, sensor, ticks)
  {
    if StartsUp(dirCreated, sensor) {
      var its := Steps(subdirectory, ticks);
      ChainOutcome(its);
      StepsAppend(subdirectory, ticks, more);
      ChainIgnoresLater(its, Steps(subdirectory, more));
    }
  }

  /** Whether either setVideoMode call succeeds makes no difference to the run. */
  lemma MainVideoModeIgnored(subdirectory: string, dirCreated: bool, sensor: SensorWorld, ticks: seq<Tick>,
                                 depthModeSet: bool, colorModeSet: bool)
    ensures Main(subdirectory, dirCreated, sensor.(depthModeSet := depthModeSet, colorModeSet := colorModeSet), ticks)
         == Main(subdirectory, dirCreated, sensor, ticks)
  {
    VideoModeIgnored(sensor, depthModeSet, colorModeSet);
  }
}

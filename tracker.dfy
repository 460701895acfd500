/**
  The main program of src/Tracker.cpp.  It reads four paths from its
  configuration, opens the two video writers at the configured video paths,
  starts the sensor exactly as the recorder does, and then, until a check
  fails or `q` is pressed: reads a colour and a depth frame, writes one frame
  to each video, and on `s` overwrites the two configured screenshot files.
  Then it releases the sensor and returns 0.

  It has no run directory, no timestamps and no `try` blocks.
*/
module Tracker {
  import opened Session

  /** The values read from the `config.ini` keys of the same names. */
  datatype Config = Config(
    screenshotColor: string,  // screenshot_color_dir
    screenshotDepth: string,  // screenshot_depth_dir
    videoColor: string,       // video_color_dir
    videoDepth: string)       // video_depth_dir

  /** The outside world as one loop pass sees it. */
  datatype Tick = Tick(checks: Reads, key: int)

  /** The screenshot pair of a pass on `s`: always the same two files. */
  function Screenshots(config: Config): seq<Action> {
    [SaveScreenshot(Configured(config.screenshotColor), ColorBgr), SaveScreenshot(Configured(config.screenshotDepth), DepthGray)]
  }

  /** One pass through the body of `while (recording)`. */
  function Step(config: Config, t: Tick): Iteration {
    var sensed := ReadActions(t.checks);
    if !ReadsOk(t.checks) then Iteration(sensed, Break)
    else
      var frames := sensed + [WriteVideo(Color, ColorBgr), WriteVideo(Depth, DepthBgr)];
      if KeyChar(t.key) == KeyScreenshot then Iteration(frames + Screenshots(config), Continue)
      else if KeyChar(t.key) == KeyQuit then Iteration(frames, Quit)
      else Iteration(frames, Continue)
  }

  /** The passes the inputs give, in order. */
  function Steps(config: Config, ticks: seq<Tick>): seq<Iteration> {
    seq(|ticks|, j requires 0 <= j < |ticks| => Step(config, ticks[j]))
  }

  function Keys(ticks: seq<Tick>): seq<int> {
    seq(|ticks|, j requires 0 <= j < |ticks| => ticks[j].key)
  }

  /** The two video writers, opened before the sensor is touched. */
  function Opening(config: Config): seq<Action> {
    [OpenVideo(config.videoColor, Color), OpenVideo(config.videoDepth, Depth)]
  }

  /** Everything main does after reading its configuration, and how it ends. */
  function TrackerRun(config: Config, sensor: SensorWorld, ticks: seq<Tick>): Run {
    var failure := SensorFailure(sensor);
    if failure.Some? then Run(Opening(config) + StartupReads(failure), Exited(-1))
    else Then(Opening(config) + StartupReads(None), Chain(Steps(config, ticks)))
  }

  /** The body of `while (recording)`: the three checks that `break`, the two video writes, the key dispatch. */
  method Iterate(config: Config, tick: Tick) returns (acts: seq<Action>, next: Next)
    ensures Iteration(acts, next) == Step(config, tick)
  {
    acts := [];
    if !tick.checks.colorValid {
      return acts, Break;
    }
    acts := acts + [ReadFrame(Color)];
    if !tick.checks.colorRead {
      return acts, Break;
    }
    acts := acts + [ReadFrame(Depth)];
    if !tick.checks.depthRead {
      return acts, Break;
    }
    acts := acts + [WriteVideo(Color, ColorBgr)];
    acts := acts + [WriteVideo(Depth, DepthBgr)];

    next := Continue;
    var key := KeyChar(tick.key);
    if key == KeyScreenshot {
      acts := acts + [SaveScreenshot(Configured(config.screenshotColor), ColorBgr)];
      acts := acts + [SaveScreenshot(Configured(config.screenshotDepth), DepthGray)];
    } else if key == KeyQuit {
      next := Quit;
    }
  }

  /** main, from the opening of the video writers on. */
  method Track(config: Config, sensor: SensorWorld, ticks: seq<Tick>) returns (outcome: Outcome, trace: seq<Action>)
    ensures Run(trace, outcome) == TrackerRun(config, sensor, ticks)
  {
    trace := [OpenVideo(config.videoColor, Color)];
    trace := trace + [OpenVideo(config.videoDepth, Depth)];
    var failure, startReads := StartSensor(sensor);
    trace := trace + startReads;
    if failure.Some? {
      return Exited(-1), trace;
    }
    var rest;
    outcome, rest := Acquire(config, ticks);
    trace := trace + rest;
  }

  /** `while (recording)` and, after it, the teardown and `return 0`. */
  method Acquire(config: Config, ticks: seq<Tick>) returns (outcome: Outcome, trace: seq<Action>)
    ensures Run(trace, outcome) == Chain(Steps(config, ticks))
  {
    ghost var its := Steps(config, ticks);
    trace := [];
    var recording := true;
    var i := 0;
    while recording
      invariant 0 <= i <= |ticks|
      invariant recording ==> Chain(its) == Then(trace, Chain(its[i..]))
      invariant !recording ==> Chain(its) == Run(trace + Teardown(), Exited(0))
      decreases |ticks| - i
    {
      if i == |ticks| {
        // the inputs end here while the program would go on tracking
        assert trace + [] == trace;
        return Recording, trace;
      }
      var acts, next := Iterate(config, ticks[i]);
      ChainPass(its, i, trace, acts, next);
      i := i + 1;
      trace := trace + acts;
      if next == Break {
        break;
      } else if next == Quit {
        recording := false;
      }
    }

    trace := trace + Teardown();
    outcome := Exited(0);
  }

  // ---------------------------------------------------------------------------
  // One pass

  /** A failed check breaks and `q` quits; nothing in the body returns -1. */
  lemma StepNext(config: Config, t: Tick)
    ensures Step(config, t).next == Break <==> !ReadsOk(t.checks)
    ensures Step(config, t).next == Quit <==> ReadsOk(t.checks) && KeyChar(t.key) == KeyQuit
    ensures Step(config, t).next != Abort
  {
  }

  /** Any key other than `s` and `q` (after narrowing to char) does what no key at all does. */
  lemma OtherKeysIgnored(config: Config, t: Tick)
    requires KeyChar(t.key) != KeyScreenshot && KeyChar(t.key) != KeyQuit
    ensures Step(config, t) == Step(config, t.(key := -1))
  {
  }

  /** A pass's calls satisfying p, for a p that no read satisfies. */
  lemma StepCount(config: Config, t: Tick, p: Action -> bool)
    requires !p(ReadFrame(Color)) && !p(ReadFrame(Depth))
    ensures Count(Step(config, t).acts, p)
      == if !ReadsOk(t.checks) then 0
         else Bit(p(WriteVideo(Color, ColorBgr))) + Bit(p(WriteVideo(Depth, DepthBgr)))
              + (if KeyChar(t.key) == KeyScreenshot then Bit(p(Screenshots(config)[0])) + Bit(p(Screenshots(config)[1])) else 0)
  {
    var sensed := ReadActions(t.checks);
    var video := [WriteVideo(Color, ColorBgr), WriteVideo(Depth, DepthBgr)];
    CountNone(sensed, p);
    if ReadsOk(t.checks) {
      CountPair(video[0], video[1], p);
      CountAppend(sensed, video, p);
      if KeyChar(t.key) == KeyScreenshot {
        CountPair(Screenshots(config)[0], Screenshots(config)[1], p);
        CountAppend(sensed + video, Screenshots(config), p);
      }
    }
  }

  /** A pass whose checks passed writes one frame to each video. */
  lemma StepVideoCounts(config: Config, t: Tick)
    ensures Count(Step(config, t).acts, IsColorVideoWrite) == Bit(ReadsOk(t.checks))
    ensures Count(Step(config, t).acts, IsDepthVideoWrite) == Bit(ReadsOk(t.checks))
  {
    StepCount(config, t, IsColorVideoWrite);
    StepCount(config, t, IsDepthVideoWrite);
  }

  /** A pass writes a screenshot pair exactly when its checks passed and the key was `s`. */
  lemma StepScreenshotCount(config: Config, t: Tick)
    ensures Count(Step(config, t).acts, IsScreenshot) == 2 * Bit(ReadsOk(t.checks) && KeyChar(t.key) == KeyScreenshot)
  {
    StepCount(config, t, IsScreenshot);
  }

  /** No pass releases the sensor. */
  lemma StepReleases(config: Config, t: Tick)
    ensures Count(Step(config, t).acts, IsRelease) == 0
  {
    CountNone(Step(config, t).acts, IsRelease);
  }

  /** A call that, if it writes a screenshot, writes one of the two configured files. */
  predicate ToConfigured(config: Config, a: Action) {
    a.SaveScreenshot? ==> a.file == Configured(config.screenshotColor) || a.file == Configured(config.screenshotDepth)
  }

  /** Every screenshot a pass writes goes to one of the two configured files. */
  lemma StepScreenshotPaths(config: Config, t: Tick)
    ensures forall a | a in Step(config, t).acts :: ToConfigured(config, a)
  {
  }

  // ---------------------------------------------------------------------------
  // The loop

  /** Passes that all went on write a screenshot pair per `s`. */
  lemma {:induction false} ContinuedScreenshots(config: Config, ticks: seq<Tick>)
    requires forall j | 0 <= j < |ticks| :: Step(config, ticks[j]).next == Continue
    ensures Tally(Steps(config, ticks), IsScreenshot) == 2 * Presses(Keys(ticks), KeyScreenshot)
    decreases |ticks|
  {
    if ticks != [] {
      var rest := ticks[1..];
      assert Steps(config, ticks)[1..] == Steps(config, rest);
      assert Keys(ticks)[1..] == Keys(rest);
      assert forall j | 0 <= j < |rest| :: rest[j] == ticks[j + 1];
      ContinuedScreenshots(config, rest);
      StepNext(config, ticks[0]);
      StepScreenshotCount(config, ticks[0]);
    }
  }

  /** The loop writes one frame to each video per pass that reached the end of the body, and no more. */
  lemma LoopVideoCounts(config: Config, ticks: seq<Tick>)
    ensures var its := Steps(config, ticks);
      && Count(Chain(its).trace, IsColorVideoWrite) == Completed(its)
      && Count(Chain(its).trace, IsDepthVideoWrite) == Completed(its)
  {
    var its := Steps(config, ticks);
    forall j | 0 <= j < |its|
      ensures CountsOnce(its[j], IsColorVideoWrite) && CountsOnce(its[j], IsDepthVideoWrite)
    {
      StepNext(config, ticks[j]);
      StepVideoCounts(config, ticks[j]);
    }
    CountNone(Teardown(), IsColorVideoWrite);
    CountNone(Teardown(), IsDepthVideoWrite);
    ChainOnce(its, IsColorVideoWrite);
    ChainOnce(its, IsDepthVideoWrite);
    ChainOutcome(its);
    if Stop(its) < |its| {
      StepNext(config, ticks[Stop(its)]);
    }
  }

  /** Two screenshot writes for every `s` read while the loop went on. */
  lemma LoopScreenshots(config: Config, ticks: seq<Tick>)
    ensures Count(Chain(Steps(config, ticks)).trace, IsScreenshot)
      == 2 * Presses(Keys(ticks[..Stop(Steps(config, ticks))]), KeyScreenshot)
  {
    var its := Steps(config, ticks);
    var k := Stop(its);
    assert its[..k] == Steps(config, ticks[..k]);
    assert forall j | 0 <= j < k :: ticks[..k][j] == ticks[j] && its[j] == Step(config, ticks[j]);
    ContinuedScreenshots(config, ticks[..k]);
    ChainCount(its, IsScreenshot);
    CountNone(Teardown(), IsScreenshot);
    if k < |ticks| {
      StepNext(config, ticks[k]);
      StepScreenshotCount(config, ticks[k]);
    }
  }

  /** Every screenshot the loop writes goes to one of the two configured files. */
  lemma {:induction false} ActsScreenshotPaths(config: Config, ticks: seq<Tick>)
    ensures forall a | a in Acts(Steps(config, ticks)) :: ToConfigured(config, a)
    decreases |ticks|
  {
    if ticks != [] {
      assert Steps(config, ticks)[1..] == Steps(config, ticks[1..]);
      ActsScreenshotPaths(config, ticks[1..]);
      StepScreenshotPaths(config, ticks[0]);
    }
  }

  // ---------------------------------------------------------------------------
  // The whole program

  /** Passes that reached the end of the body: in this program, every pass whose checks passed. */
  function Iterations(sensor: SensorWorld, config: Config, ticks: seq<Tick>): nat {
    if SensorFailure(sensor) == None then Completed(Steps(config, ticks)) else 0
  }

  /** Calls satisfying p, for a p that nothing before the loop satisfies, are all made by the loop. */
  lemma TrackerCount(config: Config, sensor: SensorWorld, ticks: seq<Tick>, p: Action -> bool)
    requires forall a | a in Opening(config) + StartupReads(None) :: !p(a)
    ensures Count(TrackerRun(config, sensor, ticks).trace, p)
      == if SensorFailure(sensor) == None then Count(Chain(Steps(config, ticks)).trace, p) else 0
  {
    var r := TrackerRun(config, sensor, ticks);
    var opening := Opening(config) + StartupReads(None);
    if SensorFailure(sensor).Some? {
      assert forall a | a in r.trace :: a in opening;
      CountNone(r.trace, p);
    } else {
      CountNone(opening, p);
      CountAppend(opening, Chain(Steps(config, ticks)).trace, p);
    }
  }

  /** A failed start-up returns -1 with the video writers opened and nothing written or released. */
  lemma StartupFailure(config: Config, sensor: SensorWorld, ticks: seq<Tick>)
    requires SensorFailure(sensor).Some?
    ensures var r := TrackerRun(config, sensor, ticks);
      && r.outcome == Exited(-1)
      && r.trace[..2] == Opening(config)
      && Count(r.trace, IsWrite) == 0
      && Count(r.trace, IsRelease) == 0
  {
    var r := TrackerRun(config, sensor, ticks);
    CountNone(r.trace, IsWrite);
    CountNone(r.trace, IsRelease);
  }

  /**
    Once started, the program never returns -1: it returns 0 after the
    teardown exactly when a check fails or `q` is pressed.
  */
  lemma TrackerOutcome(config: Config, sensor: SensorWorld, ticks: seq<Tick>)
    requires SensorFailure(sensor) == None
    ensures var r := TrackerRun(config, sensor, ticks);
      var last := Last(Steps(config, ticks));
      && r.outcome != Exited(-1)
      && (r.outcome == Exited(0) <==> last.Some?)
  {
    var its := Steps(config, ticks);
    ChainOutcome(its);
    if Last(its).Some? {
      StepNext(config, ticks[Stop(its)]);
    }
  }

  /** The release calls come only after a normal end of the loop, all four, in order, last. */
  lemma TrackerTeardown(config: Config, sensor: SensorWorld, ticks: seq<Tick>)
    ensures var r := TrackerRun(config, sensor, ticks);
      && Count(r.trace, IsRelease) == (if r.outcome == Exited(0) then 4 else 0)
      && (r.outcome == Exited(0) ==> |r.trace| >= 4 && r.trace[|r.trace| - 4..] == Teardown())
  {
    var r := TrackerRun(config, sensor, ticks);
    if SensorFailure(sensor).Some? {
      CountNone(r.trace, IsRelease);
    } else {
      TrackerCount(config, sensor, ticks, IsRelease);
      var its := Steps(config, ticks);
      forall j | 0 <= j < |its| ensures Count(its[j].acts, IsRelease) == 0 {
        StepReleases(config, ticks[j]);
      }
      ChainReleases(its);
      if r.outcome == Exited(0) {
        assert r.trace[|r.trace| - 4..] == Chain(its).trace[|Chain(its).trace| - 4..];
      }
    }
  }

  /** The number of frames written to each video equals the number of passes that reached the end of the body. */
  lemma TrackerVideoCounts(config: Config, sensor: SensorWorld, ticks: seq<Tick>)
    ensures var r := TrackerRun(config, sensor, ticks);
      && Count(r.trace, IsColorVideoWrite) == Iterations(sensor, config, ticks)
      && Count(r.trace, IsDepthVideoWrite) == Iterations(sensor, config, ticks)
  {
    TrackerCount(config, sensor, ticks, IsColorVideoWrite);
    TrackerCount(config, sensor, ticks, IsDepthVideoWrite);
    LoopVideoCounts(config, ticks);
  }

  /** Two screenshot writes for every `s` read while the loop went on. */
  lemma TrackerScreenshots(config: Config, sensor: SensorWorld, ticks: seq<Tick>)
    requires SensorFailure(sensor) == None
    ensures Count(TrackerRun(config, sensor, ticks).trace, IsScreenshot)
      == 2 * Presses(Keys(ticks[..Stop(Steps(config, ticks))]), KeyScreenshot)
  {
    TrackerCount(config, sensor, ticks, IsScreenshot);
    LoopScreenshots(config, ticks);
  }

  /** The files a run writes screenshots to. */
  function ScreenshotFiles(trace: seq<Action>): set<string> {
    set a | a in trace && a.SaveScreenshot? :: FilePath(a.file)
  }

  /** Every screenshot a run writes goes to one of the two configured files. */
  lemma RunScreenshotPaths(config: Config, sensor: SensorWorld, ticks: seq<Tick>)
    ensures forall a | a in TrackerRun(config, sensor, ticks).trace :: ToConfigured(config, a)
  {
    if SensorFailure(sensor) == None {
      var its := Steps(config, ticks);
      var k := Stop(its);
      ChainShape(its);
      assert its[..k] == Steps(config, ticks[..k]);
      ActsScreenshotPaths(config, ticks[..k]);
      if k < |its| {
        StepScreenshotPaths(config, ticks[k]);
      }
    }
  }

  /** However often `s` is pressed, a run writes screenshots to at most the two configured files. */
  lemma ScreenshotsOverwrite(config: Config, sensor: SensorWorld, ticks: seq<Tick>)
    ensures ScreenshotFiles(TrackerRun(config, sensor, ticks).trace) <= {config.screenshotColor, config.screenshotDepth}
    ensures |ScreenshotFiles(TrackerRun(config, sensor, ticks).trace)| <= 2
  {
    var files := ScreenshotFiles(TrackerRun(config, sensor, ticks).trace);
    var two := {config.screenshotColor, config.screenshotDepth};
    RunScreenshotPaths(config, sensor, ticks);
    assert files <= two;
    SubsetCard(files, two);
  }

  lemma SubsetCard(a: set<string>, b: set<string>)
    requires a <= b
    ensures |a| <= |b|
  {
    if a != {} {
      var x :| x in a;
      SubsetCard(a - {x}, b - {x});
    }
  }

  /** Once main has returned, inputs it did not reach change nothing. */
  lemma TrackerIgnoresLaterTicks(config: Config, sensor: SensorWorld, ticks: seq<Tick>, more: seq<Tick>)
    requires TrackerRun(config, sensor, ticks).outcome != Recording
    ensures TrackerRun(config, sensor, ticks + more) == TrackerRun(config, sensor, ticks)
  {
    if SensorFailure(sensor) == None {
      var its := Steps(config, ticks);
      ChainOutcome(its);
      assert Steps(config, ticks + more) == its + Steps(config, more);
      ChainIgnoresLater(its, Steps(config, more));
    }
  }
}

/**
  What src/recorder.cpp and src/Tracker.cpp share around their OpenNI and
  OpenCV calls.  The calls themselves are not modelled: each one's success is
  an input, and what the program does to the outside world (the directory,
  the two video writers, image files, the sensor streams) is recorded as a
  trace of actions, one per call to the directory, the video writers,
  imwrite, the stream reads and the releases, in the order they are made.
*/
module Session {
  import opened Naming

  datatype Option<T> = None | Some(value: T)

  /** The two video writers, and which stream a read is on. */
  datatype Channel = Color | Depth

  /** The three images each iteration derives from the raw frames. */
  datatype Picture =
    | ColorBgr   // the colour frame converted RGB to BGR
    | DepthGray  // the depth frame scaled to 8 bits
    | DepthBgr   // the scaled depth frame replicated to three channels

  /**
    The file an imwrite call is given.  The tracker passes a path read from
    its configuration; the recorder builds the name from the run directory,
    the kind of image and the time of the frame (see Naming.ImagePath).
  */
  datatype ImageFile =
    | Configured(path: string)
    | Stamped(kind: ImageKind, subdirectory: string, clock: Tm, usec: int)

  /** The path imwrite receives. */
  function FilePath(f: ImageFile): string {
    match f
    case Configured(path) => path
    case Stamped(kind, subdirectory, clock, usec) => ImagePath(kind, subdirectory, FrameTimestamp(clock, usec))
  }

  /** A name built from a well-formed clock reading and microseconds within a second. */
  predicate ValidStamp(f: ImageFile) {
    f.Stamped? && WellFormed(f.clock) && 0 <= f.usec <= 999999
  }

  /** Two image files of one run directory have the same path only when they are the same file. */
  lemma StampedFilesDistinct(f1: ImageFile, f2: ImageFile)
    requires ValidStamp(f1) && ValidStamp(f2) && f1.subdirectory == f2.subdirectory
    ensures FilePath(f1) == FilePath(f2) <==> f1 == f2
  {
    FrameFilesDistinct(f1.kind, f1.clock, f1.usec, f2.kind, f2.clock, f2.usec, f1.subdirectory);
  }

  datatype Action =
    | MakeDirectory(path: string)
    | OpenVideo(path: string, channel: Channel)
    | ReadFrame(channel: Channel)
    | WriteVideo(channel: Channel, picture: Picture)
    | SavePng(file: ImageFile, picture: Picture)         // imwrite with PNG compression level 0
    | SaveScreenshot(file: ImageFile, picture: Picture)  // imwrite with default parameters
    | DestroyDepth
    | DestroyColor
    | CloseDevice
    | Shutdown

  /** How main ends; Recording when the inputs end while the loop is still running. */
  datatype Outcome = Exited(code: int) | Recording

  datatype Run = Run(trace: seq<Action>, outcome: Outcome)

  /** The release sequence after the acquisition loop, in program order. */
  function Teardown(): (t: seq<Action>)
    ensures |t| == 4 && forall a | a in t :: IsRelease(a)
  {
    [DestroyDepth, DestroyColor, CloseDevice, Shutdown]
  }

  // ---------------------------------------------------------------------------
  // Sensor start-up

  /** The start-up steps that end the program with -1 when they fail, in program order. */
  datatype Stage =
    | Initialize
    | OpenDevice
    | CreateDepthStream
    | CreateColorStream
    | ReadFirstColor
    | ReadFirstDepth

  function Rank(st: Stage): nat {
    match st
    case Initialize => 0
    case OpenDevice => 1
    case CreateDepthStream => 2
    case CreateColorStream => 3
    case ReadFirstColor => 4
    case ReadFirstDepth => 5
  }

  /** The result of each OpenNI start-up call. */
  datatype SensorWorld = SensorWorld(
    initialized: bool,      // OpenNI::initialize() == STATUS_OK
    deviceOpened: bool,     // device.open(ANY_DEVICE) == STATUS_OK
    depthCreated: bool,     // depth_stream.create(device, SENSOR_DEPTH) == STATUS_OK
    depthModeSet: bool,     // depth_stream.setVideoMode(mode) == STATUS_OK
    hasColorSensor: bool,   // device.hasSensor(SENSOR_COLOR)
    colorCreated: bool,     // color_stream.create(device, SENSOR_COLOR) == STATUS_OK
    colorModeSet: bool,     // color_stream.setVideoMode(mode) == STATUS_OK
    firstColorRead: bool,   // the first color_stream.readFrame == STATUS_OK
    firstDepthRead: bool)   // the first depth_stream.readFrame == STATUS_OK

  /** Whether a stage lets start-up go on; without a colour sensor no colour stream is created. */
  predicate Passes(w: SensorWorld, st: Stage) {
    match st
    case Initialize => w.initialized
    case OpenDevice => w.deviceOpened
    case CreateDepthStream => w.depthCreated
    case CreateColorStream => !w.hasColorSensor || w.colorCreated
    case ReadFirstColor => w.firstColorRead
    case ReadFirstDepth => w.firstDepthRead
  }

  /** The stage start-up stops at, if any, as the sequence of checks decides it. */
  function SensorFailure(w: SensorWorld): Option<Stage> {
    if !w.initialized then Some(Initialize)
    else if !w.deviceOpened then Some(OpenDevice)
    else if !w.depthCreated then Some(CreateDepthStream)
    else if w.hasColorSensor && !w.colorCreated then Some(CreateColorStream)
    else if !w.firstColorRead then Some(ReadFirstColor)
    else if !w.firstDepthRead then Some(ReadFirstDepth)
    else None
  }

  /** The reads start-up issues before it stops at `failure`. */
  function StartupReads(failure: Option<Stage>): seq<Action> {
    match failure
    case None => [ReadFrame(Color), ReadFrame(Depth)]
    case Some(ReadFirstDepth) => [ReadFrame(Color), ReadFrame(Depth)]
    case Some(ReadFirstColor) => [ReadFrame(Color)]
    case Some(_) => []
  }

  /**
    The start-up sequence both programs run after opening the video writers:
    initialize, open the device, create the depth stream, create the colour
    stream when there is a colour sensor, start both, read one frame of each.
    A failed setVideoMode only prints a message.
  */
  method StartSensor(w: SensorWorld) returns (failure: Option<Stage>, trace: seq<Action>)
    ensures failure == SensorFailure(w)
    ensures trace == StartupReads(failure)
  {
    trace := [];
    if !w.initialized {
      return Some(Initialize), trace;
    }
    if !w.deviceOpened {
      return Some(OpenDevice), trace;
    }
    if w.depthCreated {
      if !w.depthModeSet {
        // "Can't apply VideoMode", and start-up continues
      }
    } else {
      return Some(CreateDepthStream), trace;
    }
    if w.hasColorSensor {
      if w.colorCreated {
        if !w.colorModeSet {
          // "Can't apply VideoMode", and start-up continues
        }
      } else {
        return Some(CreateColorStream), trace;
      }
    }
    trace := trace + [ReadFrame(Color)];
    if !w.firstColorRead {
      return Some(ReadFirstColor), trace;
    }
    trace := trace + [ReadFrame(Depth)];
    if !w.firstDepthRead {
      return Some(ReadFirstDepth), trace;
    }
    failure := None;
  }

  /** Start-up stops at a stage exactly when that stage fails and every earlier one passed. */
  lemma SensorFailureIsFirstFailing(w: SensorWorld, st: Stage)
    ensures SensorFailure(w) == Some(st)
        <==> !Passes(w, st) && forall e: Stage | Rank(e) < Rank(st) :: Passes(w, e)
  {
    if !Passes(w, st) && forall e: Stage | Rank(e) < Rank(st) :: Passes(w, e) {
      assert Passes(w, Initialize) || st == Initialize;
      assert Passes(w, OpenDevice) || Rank(st) <= 1;
      assert Passes(w, CreateDepthStream) || Rank(st) <= 2;
      assert Passes(w, CreateColorStream) || Rank(st) <= 3;
      assert Passes(w, ReadFirstColor) || Rank(st) <= 4;
    }
  }

  /** Start-up goes through exactly when every stage passes. */
  lemma SensorStartsWhenAllPass(w: SensorWorld)
    ensures SensorFailure(w) == None <==> forall st: Stage :: Passes(w, st)
  {
    if SensorFailure(w) != None {
      assert !Passes(w, SensorFailure(w).value);
    }
  }

  /** A failed setVideoMode on either stream changes nothing about start-up. */
  lemma VideoModeIgnored(w: SensorWorld, depthModeSet: bool, colorModeSet: bool)
    ensures SensorFailure(w.(depthModeSet := depthModeSet, colorModeSet := colorModeSet)) == SensorFailure(w)
  {
  }

  // ---------------------------------------------------------------------------
  // The checks at the top of every loop iteration

  /** The results of the three checks that can end the loop. */
  datatype Reads = Reads(
    colorValid: bool,  // color_stream.isValid()
    colorRead: bool,   // color_stream.readFrame(...) == STATUS_OK
    depthRead: bool)   // depth_stream.readFrame(...) == STATUS_OK

  predicate ReadsOk(r: Reads) {
    r.colorValid && r.colorRead && r.depthRead
  }

  /** The reads an iteration issues: validity first, then colour, then depth, stopping at the first failure. */
  function ReadActions(r: Reads): (acts: seq<Action>)
    ensures ReadFrame(Color) in acts <==> r.colorValid
    ensures ReadFrame(Depth) in acts <==> r.colorValid && r.colorRead
    ensures |acts| <= 2 && forall k | 0 <= k < |acts| :: acts[k] == [ReadFrame(Color), ReadFrame(Depth)][k]
  {
    if !r.colorValid then []
    else if !r.colorRead then [ReadFrame(Color)]
    else [ReadFrame(Color), ReadFrame(Depth)]
  }

  // ---------------------------------------------------------------------------
  // Keys

  /**
    `char key = cv::waitKey(10)`: the int code is narrowed to a signed 8-bit
    char, so only its low byte matters (-1, no key pressed, stays -1).
  */
  function KeyChar(code: int): (c: int)
    ensures -128 <= c < 128
    ensures (c - code) % 256 == 0
  {
    var b := code % 256;
    if b >= 128 then b - 256 else b
  }

  const KeyScreenshot: int := 's' as int
  const KeyQuit: int := 'q' as int

  // ---------------------------------------------------------------------------
  // Counting actions

  function Count(s: seq<Action>, p: Action -> bool): nat {
    if s == [] then 0 else Count(s[..|s| - 1], p) + (if p(s[|s| - 1]) then 1 else 0)
  }

  lemma {:induction false} CountAppend(a: seq<Action>, b: seq<Action>, p: Action -> bool)
    ensures Count(a + b, p) == Count(a, p) + Count(b, p)
    decreases |b|
  {
    if b == [] {
      assert a + b == a;
    } else {
      assert (a + b)[..|a + b| - 1] == a + b[..|b| - 1];
      CountAppend(a, b[..|b| - 1], p);
    }
  }

  lemma CountNone(s: seq<Action>, p: Action -> bool)
    requires forall a | a in s :: !p(a)
    ensures Count(s, p) == 0
  {
    if s != [] {
      assert forall a | a in s[..|s| - 1] :: a in s;
      CountNone(s[..|s| - 1], p);
    }
  }

  lemma CountAll(s: seq<Action>, p: Action -> bool)
    requires forall a | a in s :: p(a)
    ensures Count(s, p) == |s|
  {
    if s != [] {
      assert forall a | a in s[..|s| - 1] :: a in s;
      CountAll(s[..|s| - 1], p);
    }
  }

  // ---------------------------------------------------------------------------
  // The acquisition loop `while (recording)` both programs run

  /** How control leaves one pass through the loop body. */
  datatype Next =
    | Continue  // back to the top of the loop
    | Break     // a read check failed: `break`
    | Quit      // `q`: `recording = false`
    | Abort     // a caught std::runtime_error: `return -1`

  /** The calls one pass makes, and how it leaves the body. */
  datatype Iteration = Iteration(acts: seq<Action>, next: Next)

  function Then(prefix: seq<Action>, r: Run): Run {
    Run(prefix + r.trace, r.outcome)
  }

  lemma ThenAssoc(a: seq<Action>, b: seq<Action>, r: Run)
    ensures Then(a, Then(b, r)) == Then(a + b, r)
  {
    assert a + (b + r.trace) == (a + b) + r.trace;
  }

  /** The run after one pass, given the run of the passes after it. */
  function Follow(it: Iteration, later: Run): Run {
    match it.next
    case Continue => Then(it.acts, later)
    case Abort => Run(it.acts, Exited(-1))
    case _ => Run(it.acts + Teardown(), Exited(0))
  }

  /**
    The loop over the passes the inputs give, followed, when it ends by
    `break` or `q`, by the teardown and `return 0`.
  */
  function Chain(its: seq<Iteration>): Run
    decreases |its|
  {
    if its == [] then Run([], Recording) else Follow(its[0], Chain(its[1..]))
  }

  /** One more pass of the loop: how the run so far and the i-th pass determine the rest. */
  lemma ChainPass(its: seq<Iteration>, i: int, trace: seq<Action>, acts: seq<Action>, next: Next)
    requires 0 <= i < |its| && its[i] == Iteration(acts, next)
    requires Chain(its) == Then(trace, Chain(its[i..]))
    ensures next == Continue ==> Chain(its) == Then(trace + acts, Chain(its[i + 1..]))
    ensures next == Abort ==> Chain(its) == Run(trace + acts, Exited(-1))
    ensures next == Break || next == Quit ==> Chain(its) == Run(trace + acts + Teardown(), Exited(0))
  {
    assert its[i..][1..] == its[i + 1..];
    var later := Chain(its[i + 1..]);
    assert Chain(its[i..]) == Follow(Iteration(acts, next), later);
    if next == Continue {
      ThenAssoc(trace, acts, later);
    } else if next != Abort {
      assert trace + (acts + Teardown()) == trace + acts + Teardown();
    }
  }

  /** The index of the first pass that leaves the loop, or |its| when none does. */
  function Stop(its: seq<Iteration>): (k: nat)
    ensures k <= |its|
    ensures forall j | 0 <= j < k :: its[j].next == Continue
    ensures k < |its| ==> its[k].next != Continue
    decreases |its|
  {
    if its == [] || its[0].next != Continue then 0 else 1 + Stop(its[1..])
  }

  /** The pass that leaves the loop, if the inputs reach one. */
  function Last(its: seq<Iteration>): Option<Iteration> {
    if Stop(its) == |its| then None else Some(its[Stop(its)])
  }

  /** The calls of passes made one after another. */
  function Acts(its: seq<Iteration>): seq<Action>
    decreases |its|
  {
    if its == [] then [] else its[0].acts + Acts(its[1..])
  }

  /** How the loop ends with the pass that leaves it. */
  function Ending(last: Option<Iteration>): Run {
    match last
    case None => Run([], Recording)
    case Some(it) => if it.next == Abort then Run(it.acts, Exited(-1)) else Run(it.acts + Teardown(), Exited(0))
  }

  /** Passes that reached the end of the body: those that went on, and a last one that quit. */
  function Completed(its: seq<Iteration>): nat {
    Stop(its) + if Last(its).Some? && Last(its).value.next == Quit then 1 else 0
  }

  /** The number of calls satisfying p over all the passes. */
  function Tally(its: seq<Iteration>, p: Action -> bool): nat
    decreases |its|
  {
    if its == [] then 0 else Count(its[0].acts, p) + Tally(its[1..], p)
  }

  /**
    The loop makes the passes that go on one after another and then ends as
    the first one that does not says: -1 without teardown after a throw, the
    teardown and 0 after a failed check or `q`.
  */
  lemma {:induction false} ChainShape(its: seq<Iteration>)
    ensures Chain(its) == Then(Acts(its[..Stop(its)]), Ending(Last(its)))
    decreases |its|
  {
    var k := Stop(its);
    if its == [] {
    } else if its[0].next != Continue {
      assert its[..k] == [];
    } else {
      var rest := its[1..];
      ChainShape(rest);
      assert rest[..k - 1] == its[..k][1..];
      assert Last(its) == Last(rest) by {
        if k < |its| {
          assert rest[k - 1] == its[k];
        }
      }
      ThenAssoc(its[0].acts, Acts(rest[..k - 1]), Ending(Last(rest)));
    }
  }

  /** Inputs after the pass that leaves the loop are never consumed. */
  lemma {:induction false} ChainIgnoresLater(its: seq<Iteration>, more: seq<Iteration>)
    requires Stop(its) < |its|
    ensures Chain(its + more) == Chain(its)
    decreases |its|
  {
    assert (its + more)[0] == its[0];
    if its[0].next == Continue {
      assert (its + more)[1..] == its[1..] + more;
      ChainIgnoresLater(its[1..], more);
    }
  }

  /** The loop returns 0 exactly when a pass leaves it by `break` or `q`, and -1 exactly after a throw. */
  lemma ChainOutcome(its: seq<Iteration>)
    ensures Chain(its).outcome == Recording <==> Last(its) == None
    ensures Chain(its).outcome == Exited(0) <==> Last(its).Some? && Last(its).value.next in {Break, Quit}
    ensures Chain(its).outcome == Exited(-1) <==> Last(its).Some? && Last(its).value.next == Abort
  {
    ChainShape(its);
  }

  lemma {:induction false} ActsTally(its: seq<Iteration>, p: Action -> bool)
    ensures Count(Acts(its), p) == Tally(its, p)
    decreases |its|
  {
    if its != [] {
      ActsTally(its[1..], p);
      CountAppend(its[0].acts, Acts(its[1..]), p);
    }
  }

  /** The calls satisfying p in a loop run: those of the passes that went on, of the last pass, and of the teardown. */
  lemma ChainCount(its: seq<Iteration>, p: Action -> bool)
    ensures Count(Chain(its).trace, p)
      == Tally(its[..Stop(its)], p)
       + match Last(its)
         case None => 0
         case Some(it) => Count(it.acts, p) + if it.next == Abort then 0 else Count(Teardown(), p)
  {
    ChainShape(its);
    ActsTally(its[..Stop(its)], p);
    var e := Ending(Last(its));
    CountAppend(Acts(its[..Stop(its)]), e.trace, p);
    if Last(its).Some? {
      CountAppend(Last(its).value.acts, Teardown(), p);
    }
  }

  // ---------------------------------------------------------------------------
  // Kinds of calls, and keys

  predicate IsColorVideoWrite(a: Action) { a.WriteVideo? && a.channel == Color }
  predicate IsDepthVideoWrite(a: Action) { a.WriteVideo? && a.channel == Depth }
  predicate IsRgbPng(a: Action) { a.SavePng? && a.picture == ColorBgr }
  predicate IsDepthPng(a: Action) { a.SavePng? && a.picture == DepthBgr }
  predicate IsScreenshot(a: Action) { a.SaveScreenshot? }
  predicate IsImageWrite(a: Action) { a.SavePng? || a.SaveScreenshot? }
  /** A write of frame data to a video or an image file. */
  predicate IsWrite(a: Action) { a.WriteVideo? || a.SavePng? || a.SaveScreenshot? }

  /** One of the calls that release the sensor. */
  predicate IsRelease(a: Action) { a.DestroyDepth? || a.DestroyColor? || a.CloseDevice? || a.Shutdown? }

  function Bit(b: bool): nat {
    if b then 1 else 0
  }

  /** How many of the key codes narrow to c. */
  function Presses(keys: seq<int>, c: int): nat
    decreases |keys|
  {
    if keys == [] then 0 else Bit(KeyChar(keys[0]) == c) + Presses(keys[1..], c)
  }

  lemma CountOne(a: Action, p: Action -> bool)
    ensures Count([a], p) == Bit(p(a))
  {
    assert [a][..0] == [];
  }

  lemma CountPair(a: Action, b: Action, p: Action -> bool)
    ensures Count([a, b], p) == Bit(p(a)) + Bit(p(b))
  {
    assert [a, b] == [a] + [b];
    CountAppend([a], [b], p);
    CountOne(a, p);
    CountOne(b, p);
  }

  // ---------------------------------------------------------------------------
  // Calls made once per pass

  /**
    A kind of call a pass makes once when it reaches the end of the body, not
    at all when a check breaks, and at most once when it throws.
  */
  predicate CountsOnce(it: Iteration, p: Action -> bool) {
    match it.next
    case Break => Count(it.acts, p) == 0
    case Abort => Count(it.acts, p) <= 1
    case _ => Count(it.acts, p) == 1
  }

  lemma {:induction false} TallyOnce(its: seq<Iteration>, p: Action -> bool)
    requires forall j | 0 <= j < |its| :: Count(its[j].acts, p) == 1
    ensures Tally(its, p) == |its|
    decreases |its|
  {
    if its != [] {
      assert forall j | 0 <= j < |its[1..]| :: its[1..][j] == its[j + 1];
      TallyOnce(its[1..], p);
    }
  }

  lemma {:induction false} TallyNone(its: seq<Iteration>, p: Action -> bool)
    requires forall j | 0 <= j < |its| :: Count(its[j].acts, p) == 0
    ensures Tally(its, p) == 0
    decreases |its|
  {
    if its != [] {
      assert forall j | 0 <= j < |its[1..]| :: its[1..][j] == its[j + 1];
      TallyNone(its[1..], p);
    }
  }

  /**
    A call made once per pass that reaches the end of the body, and never by
    the teardown, is made exactly once per completed pass, plus at most one
    more by a pass that throws.
  */
  lemma ChainOnce(its: seq<Iteration>, p: Action -> bool)
    requires forall j | 0 <= j < |its| :: CountsOnce(its[j], p)
    requires Count(Teardown(), p) == 0
    ensures var n := Count(Chain(its).trace, p);
      && Completed(its) <= n <= Completed(its) + 1
      && (Chain(its).outcome != Exited(-1) ==> n == Completed(its))
  {
    var k := Stop(its);
    ChainCount(its, p);
    ChainOutcome(its);
    assert forall j | 0 <= j < k :: its[..k][j] == its[j];
    TallyOnce(its[..k], p);
    if k < |its| {
      assert CountsOnce(its[k], p);
    }
  }

  /** The sensor is released only by the teardown after a normal end of the loop, four calls, last. */
  lemma ChainReleases(its: seq<Iteration>)
    requires forall j | 0 <= j < |its| :: Count(its[j].acts, IsRelease) == 0
    ensures var r := Chain(its);
      && Count(r.trace, IsRelease) == (if r.outcome == Exited(0) then 4 else 0)
      && (r.outcome == Exited(0) ==> |r.trace| >= 4 && r.trace[|r.trace| - 4..] == Teardown())
  {
    var k := Stop(its);
    ChainCount(its, IsRelease);
    ChainOutcome(its);
    ChainShape(its);
    CountAll(Teardown(), IsRelease);
    assert forall j | 0 <= j < k :: its[..k][j] == its[j];
    TallyNone(its[..k], IsRelease);
  }
}

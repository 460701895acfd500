# openni2-recorder: the recorder and tracker main programs, modelled in Dafny

The repository has two capture programs built on OpenNI 2 and OpenCV:

- `src/recorder.cpp` creates a per-run directory named after the start time (`YYYY-MM-DD_HH-MM-SS`). It opens two video writers in that directory, then creates and starts the depth and the colour streams of the sensor. Then, until a stream check fails or `q` is pressed, it reads a colour and a depth frame and writes one frame to each video. It also writes both frames as PNG files named after a per-frame timestamp (`YYYYMMDDTHHMMSS.ffffff`). On `s` it writes a screenshot pair with the same timestamp. A `std::runtime_error` from the video or PNG block ends the program with -1. A normal end releases the sensor (destroy depth, destroy colour, close device, shutdown) and returns 0.
- `src/Tracker.cpp` opens two video writers at paths from its configuration and starts the sensor in the same way. Each pass writes one frame to each video and, on `s`, a screenshot pair to two configured paths, so every `s` overwrites the same two files. It has no run directory, no timestamps, no per-frame PNG files and no `try` blocks.

The model has five modules:

- `Format` (format.dfy): what the programs rely on from C++ streams and strings. That is `os << n` for an int and `std::setfill('0') << std::setw(w)`. It also defines the lexicographic (character-wise) order in which the generated names sort, and a fixed-width digit layout to reason with.
- `Naming` (naming.dfy): the run-directory name, the frame timestamp and the four image names of `src/recorder.cpp`, as pure functions of the clock fields. Its lemmas cover:
  - their length and layout;
  - that string order is chronological order;
  - that the names are injective.
- `Session` (session.dfy): what both programs share. That covers:
  - the trace of calls to the directory, the video writers, `imwrite`, the stream reads and the sensor releases;
  - the six start-up stages and the method that runs them;
  - the three read checks at the top of each pass;
  - the narrowing of the `waitKey` code to `char`;
  - the loop `while (recording)` with its teardown, over any sequence of passes (`Chain`), with counting lemmas.
- `Recorder` (recorder.dfy): `main` of `src/recorder.cpp`, as imperative methods (`Record`, `Acquire`, `Iterate`, `Write`). Each is proved equal to a specification function (`RecorderRun`, `Loop`, `Step`, `Written`). The lemmas about those functions state what the program promises.
- `Tracker` (tracker.dfy): `main` of `src/Tracker.cpp`, in the same style (`Track`, `Acquire`, `Iterate`).

The outside world is an input:

- the result of creating the directory;
- a `SensorWorld` record with the result of every OpenNI start-up call;
- for each pass of the loop, a `Tick` with:
  - the three read results;
  - the clock reading (`struct tm` fields and `tv_usec`);
  - whether, and where, each `try` block threw;
  - the int `waitKey` returned.

A run is the trace, in order, of the calls that create the directory, open a video writer, read a frame, write a video frame, write an image file (`imwrite`) or release the sensor, together with how `main` ends. Calls that only decide a branch (OpenNI initialization, `open`, `hasSensor`, `create`, `setVideoMode`, `isValid`, `waitKey`) contribute their results as inputs and add no action; `start()`, `imshow` and the rest are not recorded. It ends with `Exited(code)`, or with `Recording` when the inputs run out while the loop would go on.

Three behaviours of the code are worth stating outright:

- A `std::runtime_error` from the PNG block returns -1, just as one from the video block does (`src/recorder.cpp:239-260`).
- A failed read mid-loop `break`s, runs the teardown and returns 0 in both programs (`src/recorder.cpp:289`, `src/Tracker.cpp:206`).
- The per-frame depth PNG is the three-channel `frame_depth_color` (`src/recorder.cpp:254`), as is the depth video frame. Only the screenshot gets the single-channel `frame_depth`.

## Model

| member | source | states |
|---|---|---|
| Format.PadLeft | src/recorder.cpp:57-58 | `setw(w)` with a fill gives a text of length `w` when the text is shorter, made of fill characters followed by the text; a text of length `w` or more is returned unchanged |
| Format.UnsignedDigits | src/recorder.cpp:55 | `os << n` for a non-negative int writes only decimal digits |
| Format.UnsignedRoundTrip | src/recorder.cpp:55 | reading back the digits `os << n` writes gives `n` |
| Format.FixedDigitsRoundTrip | src/recorder.cpp:221-235 | a w-digit zero-padded field of a number below 10^w reads back as that number |
| Format.FixedDigitsInjective | src/recorder.cpp:221-235 | two numbers below 10^w have the same w-digit field exactly when they are equal |
| Format.PaddedIsFixed | src/recorder.cpp:57-58 | `setfill('0') << setw(w) << n` for `0 <= n < 10^w` is exactly the w-digit field of `n` |
| Format.DecimalIsFixed | src/recorder.cpp:55 | a year with exactly four digits is written as its four-digit field |
| Format.UnsignedIsFixed | src/recorder.cpp:55 | `os << n` writes the shortest field that holds `n`: it fits, and one digit fewer would not |
| Format.FixedDigitsOrder | src/recorder.cpp:221-235 | zero-padded fields of equal width compare as strings exactly as their numbers compare |
| Format.LexAppend | src/recorder.cpp:221-235 | in the lexicographic order of the names, two strings starting with blocks of equal length compare by the blocks first and then by the rest |
| Naming.RunDirBlocks | src/recorder.cpp:55-70 | for in-range fields the run-directory name is the four-digit year and the two-digit month, day, hour, minute and second, joined by `-`, `-`, `_`, `-`, `-` |
| Naming.RunDirNameLayout | src/recorder.cpp:55-70 | for a four-digit year the name has length 19, separators at 4, 7, 10, 13 and 16, and digits everywhere else |
| Naming.TimestampAppends | src/recorder.cpp:221-236 | for in-range fields the timestamp is the fixed-width year, month, day, `T`, hour, minute, second, `.`, then six microsecond digits, in that order |
| Naming.TimestampLayout | src/recorder.cpp:221-236 | for a four-digit year and microseconds in [0, 999999] the timestamp has length 22, `T` at 8, `.` at 15, and digits everywhere else |
| Naming.TimestampBlocks | src/recorder.cpp:221-236 | the timestamp equals its blocks grouped from the right, the form the order proof walks |
| Naming.TimeBlocksOrder | src/recorder.cpp:227-235 | the `HHMMSS.ffffff` part compares as hour, then minute, then second, then microseconds |
| Naming.DayBlocksOrder | src/recorder.cpp:224-235 | from the day on, the text compares as the day and then the time of day |
| Naming.MonthBlocksOrder | src/recorder.cpp:222-235 | from the month on, the text compares as the month and then the rest |
| Naming.YearBlocksOrder | src/recorder.cpp:221-235 | the whole text compares as the year and then the rest |
| Naming.StampBlocksOrder | src/recorder.cpp:221-235 | the blocks compare as the clock readings do, field by field |
| Naming.TimestampOrder | src/recorder.cpp:221-236 | two in-range timestamps compare as strings exactly as their (year, month, day, hour, minute, second, microsecond) tuples compare |
| Naming.TimestampInjective | src/recorder.cpp:221-236 | two in-range clock readings give the same timestamp exactly when they are the same reading |
| Naming.ImagePathInjective | src/recorder.cpp:253-273 | in one directory, two of the four image names are equal exactly when they are of the same kind and carry the same timestamp: the four names of a frame are pairwise distinct, and frames collide only on equal timestamps |
| Naming.FrameFilesDistinct | src/recorder.cpp:215-273 | the image names of two in-range clock readings are equal exactly when the kind and the reading are the same |
| Session.StampedFilesDistinct | src/recorder.cpp:253-273 | two image files recorded in one run directory with in-range clock readings have the same path exactly when they are the same file |
| Session.Teardown | src/recorder.cpp:284-287 | the teardown is four calls, all of them releases |
| Session.StartSensor | src/recorder.cpp:89-177 | the start-up stages run in program order; the method stops at the stage `SensorFailure` names and issues exactly the initial reads made up to there |
| Session.SensorFailureIsFirstFailing | src/recorder.cpp:89-177 | start-up stops at a stage exactly when that stage fails and every earlier stage passed |
| Session.SensorStartsWhenAllPass | src/recorder.cpp:89-177 | start-up goes through exactly when every stage passes |
| Session.VideoModeIgnored | src/recorder.cpp:105-139 | whether `setVideoMode` succeeds on either stream changes nothing about start-up |
| Session.ReadActions | src/recorder.cpp:185-201 | a colour read happens exactly when the stream is valid, a depth read exactly when the stream is valid and the colour read succeeded, and the reads come colour first, depth second |
| Session.KeyChar | src/recorder.cpp:268 | `char key = waitKey(10)` keeps the signed low byte: the result is in [-128, 128) and congruent to the code mod 256 |
| Session.ChainPass | src/recorder.cpp:182-289 | one more pass: given the trace so far, a pass that goes on leaves the rest to later passes, a throw ends with -1, and a `break` or `q` ends with the teardown and 0 |
| Session.Stop | src/recorder.cpp:182-281 | the index of the first pass that does not go on: every pass before it went on |
| Session.ChainShape | src/recorder.cpp:182-289 | the loop's trace is the calls of the passes that went on, then the last pass's calls, then the teardown unless that pass threw |
| Session.ChainIgnoresLater | src/recorder.cpp:182-281 | inputs after the pass that leaves the loop are never consumed |
| Session.ChainOutcome | src/recorder.cpp:182-289 | the loop ends with 0 exactly after a `break` or `q`, with -1 exactly after a throw, and is still recording exactly when no pass left it |
| Session.ChainCount | src/recorder.cpp:182-289 | the calls of a kind in the loop's trace are those of the passes that went on, of the last pass, and of the teardown after a normal end |
| Session.ChainOnce | src/recorder.cpp:182-289 | a call each completed pass makes once, a breaking pass never, and a throwing pass at most once, is made between `Completed` and `Completed + 1` times, and exactly `Completed` times unless the run ends with -1 |
| Session.ChainReleases | src/recorder.cpp:182-289 | when no pass releases the sensor, the loop releases it four times after a normal end and never otherwise, and the teardown is the end of the trace |
| Recorder.Iterate | src/recorder.cpp:185-280 | the body of `while (recording)` makes exactly the calls, and leaves the body exactly as, `Step` gives |
| Recorder.Write | src/recorder.cpp:239-280 | the two `try` blocks and the key dispatch make exactly the calls, and leave the body exactly as, `Written` gives |
| Recorder.Acquire | src/recorder.cpp:181-289 | the loop, and the teardown with `return 0` after it, produce exactly the run `Loop` gives |
| Recorder.Record | src/recorder.cpp:71-289 | `main` from the run directory on produces exactly the run `RecorderRun` gives |
| Recorder.StepNext | src/recorder.cpp:185-280 | a pass breaks exactly when a read check fails, returns -1 exactly when the checks pass and a block throws, quits exactly when it completes with `q`, and goes on otherwise |
| Recorder.StepWrites | src/recorder.cpp:191-273 | a completed pass reads colour then depth, writes one frame to the colour and then to the depth video, then the rgb and the depth PNG, then on `s` the screenshot pair |
| Recorder.StepFiles | src/recorder.cpp:215-273 | every image a pass writes is named after that pass's own clock reading, in the run directory |
| Recorder.StepFilesDistinct | src/recorder.cpp:253-273 | for any clock reading, the image files one pass writes have pairwise different paths |
| Recorder.OtherKeysIgnored | src/recorder.cpp:268-280 | a key other than `s` and `q` makes the pass behave as if no key was pressed |
| Recorder.KeyLowByte | src/recorder.cpp:268 | key codes with the same low byte behave alike |
| Recorder.WrittenCount | src/recorder.cpp:239-273 | the calls of a kind a pass makes after its reads: the first video write; the second unless the first threw; the two PNGs unless the video block threw, the second only if the first did not throw; the screenshot pair on `s` when nothing threw |
| Recorder.StepReleases | src/recorder.cpp:182-281 | no pass releases the sensor |
| Recorder.StepVideoCounts | src/recorder.cpp:239-248 | a pass whose checks passed writes one colour video frame, and one depth video frame unless the first write threw |
| Recorder.StepPngCounts | src/recorder.cpp:251-260 | a pass writes the rgb PNG exactly when its checks passed and the video block did not throw, and the depth PNG only when the rgb PNG did not throw either |
| Recorder.StepScreenshotCount | src/recorder.cpp:268-275 | a pass writes two screenshots exactly when it completed with `s`, and none otherwise |
| Recorder.ContinuedScreenshots | src/recorder.cpp:268-275 | passes that all went on write two screenshots per `s` among their keys |
| Recorder.LoopVideoCounts | src/recorder.cpp:239-248 | each video gets one frame per completed pass, at most one more from a pass that threw, and exactly one per completed pass after a normal end |
| Recorder.LoopPngCounts | src/recorder.cpp:251-260 | the same for the rgb and the depth PNG files |
| Recorder.LoopScreenshots | src/recorder.cpp:268-275 | the loop writes two screenshots per `s` among the passes before the one that leaves it |
| Recorder.LoopReleases | src/recorder.cpp:284-289 | the loop releases the sensor four times after a normal end and never otherwise, the teardown last |
| Recorder.StartupFailure | src/recorder.cpp:73-177 | a failed directory creation or start-up stage returns -1 with no frame written and nothing released; a failed directory creation returns before the video writers are opened |
| Recorder.MainOutcome | src/recorder.cpp:73-289 | `main` returns -1 exactly when start-up fails or a pass throws, returns 0 exactly when a pass breaks or quits, and is still recording exactly when every input went on |
| Recorder.MainTeardown | src/recorder.cpp:284-289 | the four release calls come exactly when `main` returns 0, in order, at the end of the trace |
| Recorder.MainVideoCounts | src/recorder.cpp:239-248 | over a whole run, each video gets one frame per completed pass, at most one more, and exactly that many unless the run returned -1 |
| Recorder.MainPngCounts | src/recorder.cpp:251-260 | the same for the rgb and the depth PNG files |
| Recorder.MainScreenshots | src/recorder.cpp:268-275 | after a successful start-up, the run writes two screenshots per `s` read while the loop went on |
| Recorder.MainIgnoresLaterTicks | src/recorder.cpp:182-289 | once `main` has returned, inputs it did not reach change nothing |
| Recorder.MainVideoModeIgnored | src/recorder.cpp:113-139 | whether either `setVideoMode` succeeds makes no difference to the run |
| Tracker.Iterate | src/Tracker.cpp:146-197 | the body of `while (recording)` makes exactly the calls, and leaves the body exactly as, `Step` gives |
| Tracker.Acquire | src/Tracker.cpp:142-206 | the loop, and the teardown with `return 0` after it, produce exactly the run `Chain(Steps(...))` gives |
| Tracker.Track | src/Tracker.cpp:44-206 | `main` from the video writers on produces exactly the run `TrackerRun` gives |
| Tracker.StepNext | src/Tracker.cpp:146-197 | a pass breaks exactly when a read check fails, quits exactly when its checks passed and the key is `q`, and never returns -1 |
| Tracker.OtherKeysIgnored | src/Tracker.cpp:185-197 | a key other than `s` and `q` makes the pass behave as if no key was pressed |
| Tracker.StepCount | src/Tracker.cpp:176-191 | the calls of a kind a pass makes: none when a check breaks; otherwise the two video writes, and on `s` the two screenshots |
| Tracker.StepVideoCounts | src/Tracker.cpp:176-177 | a pass whose checks passed writes one frame to each video, and none otherwise |
| Tracker.StepScreenshotCount | src/Tracker.cpp:185-192 | a pass writes two screenshots exactly when its checks passed and the key is `s` |
| Tracker.StepReleases | src/Tracker.cpp:143-198 | no pass releases the sensor |
| Tracker.StepScreenshotPaths | src/Tracker.cpp:188-190 | every screenshot a pass writes goes to one of the two configured paths |
| Tracker.ContinuedScreenshots | src/Tracker.cpp:185-192 | passes that all went on write two screenshots per `s` among their keys |
| Tracker.LoopVideoCounts | src/Tracker.cpp:176-177 | the loop writes exactly one frame to each video per pass that reached the end of the body |
| Tracker.LoopScreenshots | src/Tracker.cpp:188-191 | the loop writes two screenshots per `s` among the passes before the one that leaves it |
| Tracker.ActsScreenshotPaths | src/Tracker.cpp:188-190 | every screenshot written by a sequence of passes goes to one of the two configured paths |
| Tracker.StartupFailure | src/Tracker.cpp:50-138 | a failed start-up stage returns -1 after opening the two video writers, with no frame written and nothing released |
| Tracker.TrackerOutcome | src/Tracker.cpp:142-206 | after a successful start-up the program never returns -1; it returns 0 exactly when a pass breaks or quits |
| Tracker.TrackerTeardown | src/Tracker.cpp:201-206 | the four release calls come exactly when `main` returns 0, in order, at the end of the trace |
| Tracker.TrackerVideoCounts | src/Tracker.cpp:176-177 | each video writer receives exactly one frame per pass that reached the end of the body, over a whole run |
| Tracker.TrackerScreenshots | src/Tracker.cpp:188-191 | after a successful start-up, the run writes two screenshots per `s` read while the loop went on |
| Tracker.RunScreenshotPaths | src/Tracker.cpp:188-190 | every screenshot a run writes goes to one of the two configured paths |
| Tracker.ScreenshotsOverwrite | src/Tracker.cpp:38-39 | however often `s` is pressed, the screenshot files of a run are among the two configured paths, so there are at most two |
| Tracker.TrackerIgnoresLaterTicks | src/Tracker.cpp:142-206 | once `main` has returned, inputs it did not reach change nothing |

## Left out

- Recorder.Write: a PNG or screenshot call records its file as the kind of image, the run directory and the pass's clock reading, not as the concatenated string. `Session.FilePath` turns that into the string the source builds at `src/recorder.cpp:236` and `253-273`, and Naming proves that string's layout, order and distinctness. So the method does not build the string character by character.
- OpenNI calls `initialize`, `open`, `hasSensor`, `create`, `setVideoMode`, `readFrame` and `isValid`: only their success or failure is modelled, as inputs.
- OpenNI calls `readFrame`, `destroy`, `close` and `shutdown`: each is also one action in the trace (`ReadFrame`, `DestroyDepth`, `DestroyColor`, `CloseDevice`, `Shutdown`), with no effect beyond that. The source checks no result of the last three.
- `start()` of both streams and `getMaxPixelValue` do not appear in the trace. Neither does the image registration (`src/recorder.cpp:142-145`, `src/Tracker.cpp:103-106`). None of them can end the program.
- OpenCV pixel work is not modelled: the `cv::Mat` views, `cvtColor`, and `convertTo` with the floating-point scale `255. / max_depth`. The trace only names which of the three derived images a write receives.
- Video and PNG encoding, and the PNG compression parameter: a write is recorded as an action. A `VideoWriter` that failed to open is not detected by the source and not modelled.
- `imshow` is not modelled. The key `waitKey` returns is an input.
- Standard output and standard error messages (diagnostics, the help text, "Screenshot saved.") are not modelled.
- `config.ini` parsing and `std::stoi` of width and height are not modelled. The recorder's `directory` and the tracker's four paths are parameters.
- The result of `boost::filesystem::create_directory` is an input.
- `time`, `localtime` and `gettimeofday` are not modelled: the clock fields and `tv_usec` are parameters. The layout and order lemmas assume a four-digit year, fields within their `struct tm` ranges, and `tv_usec` in [0, 999999].
- Integers are unbounded, which agrees with the source for the ranges the clock produces.
- Exceptions other than a `std::runtime_error` in the recorder's two `try` blocks are not modelled. That covers:
  - a throw from the screenshot writes;
  - a throw from any write of the tracker;
  - an OpenCV error reported as `cv::Exception`, which the `catch (std::runtime_error&)` clauses do not catch.

  Each of these would end the process without the teardown.
- The loop runs over a finite sequence of inputs. A run whose inputs end while the loop would go on ends as `Recording`, standing for a program still running.
- A character is assumed to be a signed 8-bit type for the key narrowing, as on the usual Linux targets.
- The `new`ed video writers are never deleted by the source. Memory is not modelled.

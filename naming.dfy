/**
  The names src/recorder.cpp gives to what it stores: the per-run directory
  (`YYYY-MM-DD_HH-MM-SS`), the per-frame timestamp (`YYYYMMDDTHHMMSS.ffffff`)
  and the PNG files named after it.  The clock is read by the program; here its
  broken-down fields (a C `struct tm`) and the microseconds of `gettimeofday`
  are parameters.
*/
module Naming {
  import opened Format

  /** The fields of a C `struct tm` that are printed: years since 1900, months from 0. */
  datatype Tm = Tm(year: int, mon: int, mday: int, hour: int, min: int, sec: int)

  /** What `localtime` produces when the year has four digits. */
  predicate WellFormed(t: Tm) {
    && 1000 <= t.year + 1900 <= 9999
    && 0 <= t.mon <= 11
    && 1 <= t.mday <= 31
    && 0 <= t.hour <= 23
    && 0 <= t.min <= 59
    && 0 <= t.sec <= 60
  }

  /** The directory name built once at start-up. */
  function RunDirName(t: Tm): string {
    Decimal(t.year + 1900) + "-" + Padded(t.mon + 1, 2) + "-" + Padded(t.mday, 2)
    + "_" + Padded(t.hour, 2) + "-" + Padded(t.min, 2) + "-" + Padded(t.sec, 2)
  }

  /** `directory + "/" + <run directory name>`, the folder everything is stored in. */
  function Subdirectory(directory: string, t: Tm): string {
    directory + "/" + RunDirName(t)
  }

  /** The timestamp built once per acquired frame; `usec` is `tv_usec`. */
  function FrameTimestamp(t: Tm, usec: int): string {
    Decimal(t.year + 1900) + Padded(t.mon + 1, 2) + Padded(t.mday, 2) + "T"
    + Padded(t.hour, 2) + Padded(t.min, 2) + Padded(t.sec, 2) + "." + Padded(usec, 6)
  }

  /** Which of the four per-frame image files a name is for. */
  datatype ImageKind = FrameRgb | FrameDepth | ScreenshotRgb | ScreenshotDepth

  /** The file name `imwrite` receives for an image of that kind. */
  function ImagePath(kind: ImageKind, subdirectory: string, timestamp: string): string {
    match kind
    case FrameRgb => subdirectory + "/frame_" + timestamp + "_rgb.png"
    case FrameDepth => subdirectory + "/frame_" + timestamp + "_depth.png"
    case ScreenshotRgb => subdirectory + "/screenshot_" + timestamp + "_rgb.png"
    case ScreenshotDepth => subdirectory + "/screenshot_" + timestamp + "_depth.png"
  }

  /** The two video files opened in the run directory. */
  function ColorVideoPath(subdirectory: string): string {
    subdirectory + "/" + "video_color.avi"
  }

  function DepthVideoPath(subdirectory: string): string {
    subdirectory + "/" + "video_depth.avi"
  }

  /** Frame times in chronological order: the printed fields compared one after another. */
  predicate StampBefore(a: Tm, ua: int, b: Tm, ub: int) {
    a.year < b.year || (a.year == b.year &&
    (a.mon < b.mon || (a.mon == b.mon &&
    (a.mday < b.mday || (a.mday == b.mday &&
    (a.hour < b.hour || (a.hour == b.hour &&
    (a.min < b.min || (a.min == b.min &&
    (a.sec < b.sec || (a.sec == b.sec && ua < ub)))))))))))
  }

  // ---------------------------------------------------------------------------
  // Layout of the run directory name

  /** The run directory name as fixed-width digit blocks and separators. */
  function RunDirFields(t: Tm): string
    requires WellFormed(t)
  {
    FixedDigits(t.year + 1900, 4) + "-" + FixedDigits(t.mon + 1, 2) + "-" + FixedDigits(t.mday, 2)
    + "_" + FixedDigits(t.hour, 2) + "-" + FixedDigits(t.min, 2) + "-" + FixedDigits(t.sec, 2)
  }

  lemma RunDirBlocks(t: Tm)
    requires WellFormed(t)
    ensures RunDirName(t) == RunDirFields(t)
  {
    Pow10Values();
    var y, mo, d := Decimal(t.year + 1900), Padded(t.mon + 1, 2), Padded(t.mday, 2);
    var h, mi, se := Padded(t.hour, 2), Padded(t.min, 2), Padded(t.sec, 2);
    assert RunDirName(t) == y + "-" + mo + "-" + d + "_" + h + "-" + mi + "-" + se;
    DecimalIsFixed(t.year + 1900, 4);
    PaddedIsFixed(t.mon + 1, 2);
    PaddedIsFixed(t.mday, 2);
    PaddedIsFixed(t.hour, 2);
    PaddedIsFixed(t.min, 2);
    PaddedIsFixed(t.sec, 2);
  }

  /** For a four-digit year: 19 characters, separators at fixed places, digits elsewhere. */
  lemma RunDirNameLayout(t: Tm)
    requires WellFormed(t)
    ensures var s := RunDirName(t);
      && |s| == 19
      && s[4] == '-' && s[7] == '-' && s[10] == '_' && s[13] == '-' && s[16] == '-'
      && DigitsExcept(s, {4, 7, 10, 13, 16})
  {
    RunDirBlocks(t);
    RunDirFieldsLayout(t);
  }

  lemma RunDirFieldsLayout(t: Tm)
    requires WellFormed(t)
    ensures var s := RunDirFields(t);
      && |s| == 19
      && s[4] == '-' && s[7] == '-' && s[10] == '_' && s[13] == '-' && s[16] == '-'
      && DigitsExcept(s, {4, 7, 10, 13, 16})
  {
    var seps := {4, 7, 10, 13, 16};
    var s0 := FixedDigits(t.year + 1900, 4);
    FixedDigitsDigits(t.year + 1900, 4);
    AppendSeparator(s0, '-', seps);
    var s1 := s0 + "-";
    FixedDigitsDigits(t.mon + 1, 2);
    AppendDigits(s1, FixedDigits(t.mon + 1, 2), seps);
    var s2 := s1 + FixedDigits(t.mon + 1, 2);
    AppendSeparator(s2, '-', seps);
    var s3 := s2 + "-";
    FixedDigitsDigits(t.mday, 2);
    AppendDigits(s3, FixedDigits(t.mday, 2), seps);
    var s4 := s3 + FixedDigits(t.mday, 2);
    AppendSeparator(s4, '_', seps);
    var s5 := s4 + "_";
    FixedDigitsDigits(t.hour, 2);
    AppendDigits(s5, FixedDigits(t.hour, 2), seps);
    var s6 := s5 + FixedDigits(t.hour, 2);
    AppendSeparator(s6, '-', seps);
    var s7 := s6 + "-";
    FixedDigitsDigits(t.min, 2);
    AppendDigits(s7, FixedDigits(t.min, 2), seps);
    var s8 := s7 + FixedDigits(t.min, 2);
    AppendSeparator(s8, '-', seps);
    var s9 := s8 + "-";
    FixedDigitsDigits(t.sec, 2);
    AppendDigits(s9, FixedDigits(t.sec, 2), seps);
  }

  // ---------------------------------------------------------------------------
  // Layout and order of the frame timestamp

  /** The timestamp as fixed-width digit blocks and separators, left to right. */
  function StampFields(t: Tm, usec: int): string
    requires WellFormed(t) && 0 <= usec
  {
    FixedDigits(t.year + 1900, 4) + FixedDigits(t.mon + 1, 2) + FixedDigits(t.mday, 2) + "T"
    + FixedDigits(t.hour, 2) + FixedDigits(t.min, 2) + FixedDigits(t.sec, 2) + "." + FixedDigits(usec, 6)
  }

  lemma TimestampAppends(t: Tm, usec: int)
    requires WellFormed(t) && 0 <= usec <= 999999
    ensures FrameTimestamp(t, usec) == StampFields(t, usec)
  {
    Pow10Values();
    var y, mo, d := Decimal(t.year + 1900), Padded(t.mon + 1, 2), Padded(t.mday, 2);
    var h, mi, se, us := Padded(t.hour, 2), Padded(t.min, 2), Padded(t.sec, 2), Padded(usec, 6);
    assert FrameTimestamp(t, usec) == y + mo + d + "T" + h + mi + se + "." + us;
    DecimalIsFixed(t.year + 1900, 4);
    PaddedIsFixed(t.mon + 1, 2);
    PaddedIsFixed(t.mday, 2);
    PaddedIsFixed(t.hour, 2);
    PaddedIsFixed(t.min, 2);
    PaddedIsFixed(t.sec, 2);
    PaddedIsFixed(usec, 6);
  }

  /** For a four-digit year and microseconds below 10^6: 22 characters, `T` at 8, `.` at 15, digits elsewhere. */
  lemma TimestampLayout(t: Tm, usec: int)
    requires WellFormed(t) && 0 <= usec <= 999999
    ensures var s := FrameTimestamp(t, usec);
      && |s| == 22
      && s[8] == 'T' && s[15] == '.'
      && DigitsExcept(s, {8, 15})
  {
    TimestampAppends(t, usec);
    StampFieldsLayout(t, usec);
  }

  lemma StampFieldsLayout(t: Tm, usec: int)
    requires WellFormed(t) && 0 <= usec <= 999999
    ensures var s := StampFields(t, usec);
      && |s| == 22
      && s[8] == 'T' && s[15] == '.'
      && DigitsExcept(s, {8, 15})
  {
    var seps := {8, 15};
    var s0 := FixedDigits(t.year + 1900, 4);
    FixedDigitsDigits(t.year + 1900, 4);
    FixedDigitsDigits(t.mon + 1, 2);
    AppendDigits(s0, FixedDigits(t.mon + 1, 2), seps);
    var s1 := s0 + FixedDigits(t.mon + 1, 2);
    FixedDigitsDigits(t.mday, 2);
    AppendDigits(s1, FixedDigits(t.mday, 2), seps);
    var s2 := s1 + FixedDigits(t.mday, 2);
    AppendSeparator(s2, 'T', seps);
    var s3 := s2 + "T";
    FixedDigitsDigits(t.hour, 2);
    AppendDigits(s3, FixedDigits(t.hour, 2), seps);
    var s4 := s3 + FixedDigits(t.hour, 2);
    FixedDigitsDigits(t.min, 2);
    AppendDigits(s4, FixedDigits(t.min, 2), seps);
    var s5 := s4 + FixedDigits(t.min, 2);
    FixedDigitsDigits(t.sec, 2);
    AppendDigits(s5, FixedDigits(t.sec, 2), seps);
    var s6 := s5 + FixedDigits(t.sec, 2);
    AppendSeparator(s6, '.', seps);
    var s7 := s6 + ".";
    FixedDigitsDigits(usec, 6);
    AppendDigits(s7, FixedDigits(usec, 6), seps);
  }

  /** `HHMMSS.ffffff` as fixed-width blocks, grouped from the right. */
  function TimeBlocks(t: Tm, usec: int): string
    requires WellFormed(t) && 0 <= usec
  {
    FixedDigits(t.hour, 2) + (FixedDigits(t.min, 2) + (FixedDigits(t.sec, 2) + ("." + FixedDigits(usec, 6))))
  }

  /** `DDTHHMMSS.ffffff`, `MMDDTHHMMSS.ffffff` and the whole timestamp, as fixed-width blocks grouped from the right. */
  function DayBlocks(t: Tm, usec: int): string
    requires WellFormed(t) && 0 <= usec
  {
    FixedDigits(t.mday, 2) + ("T" + TimeBlocks(t, usec))
  }

  function MonthBlocks(t: Tm, usec: int): string
    requires WellFormed(t) && 0 <= usec
  {
    FixedDigits(t.mon + 1, 2) + DayBlocks(t, usec)
  }

  function StampBlocks(t: Tm, usec: int): string
    requires WellFormed(t) && 0 <= usec
  {
    FixedDigits(t.year + 1900, 4) + MonthBlocks(t, usec)
  }

  lemma TimestampBlocks(t: Tm, usec: int)
    requires WellFormed(t) && 0 <= usec <= 999999
    ensures FrameTimestamp(t, usec) == StampBlocks(t, usec)
  {
    TimestampAppends(t, usec);
    RegroupBlocks(t, usec);
  }

  /** The left-to-right blocks regrouped from the right. */
  lemma RegroupBlocks(t: Tm, usec: int)
    requires WellFormed(t) && 0 <= usec
    ensures StampFields(t, usec) == StampBlocks(t, usec)
  {
    var y, mo, d := FixedDigits(t.year + 1900, 4), FixedDigits(t.mon + 1, 2), FixedDigits(t.mday, 2);
    var h, mi, se, us := FixedDigits(t.hour, 2), FixedDigits(t.min, 2), FixedDigits(t.sec, 2), FixedDigits(usec, 6);
    var r8 := "." + us;
    var r7 := se + r8;
    var r6 := mi + r7;
    var r5 := h + r6;
    var r4 := "T" + r5;
    var r3 := d + r4;
    var r2 := mo + r3;
    AppendAssoc(y + mo + d + "T" + h + mi + se, ".", us);
    AppendAssoc(y + mo + d + "T" + h + mi, se, r8);
    AppendAssoc(y + mo + d + "T" + h, mi, r7);
    AppendAssoc(y + mo + d + "T", h, r6);
    AppendAssoc(y + mo + d, "T", r5);
    AppendAssoc(y + mo, d, r4);
    AppendAssoc(y, mo, r3);
  }

  lemma AppendAssoc(a: string, b: string, c: string)
    ensures a + b + c == a + (b + c)
  {
  }

  /** One step of the comparison: a leading fixed-width number block decides unless equal. */
  lemma NumberBlockStep(n: nat, m: nat, w: nat, r1: string, r2: string)
    requires n < Pow10(w) && m < Pow10(w)
    ensures LexLess(FixedDigits(n, w) + r1, FixedDigits(m, w) + r2)
        <==> n < m || (n == m && LexLess(r1, r2))
  {
    LexAppend(FixedDigits(n, w), r1, FixedDigits(m, w), r2);
    FixedDigitsOrder(n, m, w);
    FixedDigitsInjective(n, m, w);
  }

  /** A separator both strings share does not affect the comparison. */
  lemma SeparatorStep(c: char, r1: string, r2: string)
    ensures LexLess([c] + r1, [c] + r2) <==> LexLess(r1, r2)
  {
    LexAppend([c], r1, [c], r2);
    LexIrreflexive([c]);
  }

  /** The time-of-day part compares as the hour, minute, second and microsecond do, in that order. */
  lemma TimeBlocksOrder(a: Tm, ua: int, b: Tm, ub: int)
    requires WellFormed(a) && 0 <= ua <= 999999
    requires WellFormed(b) && 0 <= ub <= 999999
    ensures LexLess(TimeBlocks(a, ua), TimeBlocks(b, ub))
        <==> a.hour < b.hour || (a.hour == b.hour &&
             (a.min < b.min || (a.min == b.min &&
             (a.sec < b.sec || (a.sec == b.sec && ua < ub)))))
  {
    Pow10Values();
    var ua6, ub6 := FixedDigits(ua, 6), FixedDigits(ub, 6);
    var a7, b7 := "." + ua6, "." + ub6;
    var a6, b6 := FixedDigits(a.sec, 2) + a7, FixedDigits(b.sec, 2) + b7;
    var a5, b5 := FixedDigits(a.min, 2) + a6, FixedDigits(b.min, 2) + b6;
    SeparatorStep('.', ua6, ub6);
    FixedDigitsOrder(ua, ub, 6);
    NumberBlockStep(a.sec, b.sec, 2, a7, b7);
    NumberBlockStep(a.min, b.min, 2, a6, b6);
    NumberBlockStep(a.hour, b.hour, 2, a5, b5);
  }

  /** From the day on, the blocks compare as the day and then the time of day do. */
  lemma DayBlocksOrder(a: Tm, ua: int, b: Tm, ub: int)
    requires WellFormed(a) && 0 <= ua <= 999999
    requires WellFormed(b) && 0 <= ub <= 999999
    ensures LexLess(DayBlocks(a, ua), DayBlocks(b, ub))
        <==> a.mday < b.mday || (a.mday == b.mday && LexLess(TimeBlocks(a, ua), TimeBlocks(b, ub)))
  {
    Pow10Values();
    NumberBlockStep(a.mday, b.mday, 2, "T" + TimeBlocks(a, ua), "T" + TimeBlocks(b, ub));
    SeparatorStep('T', TimeBlocks(a, ua), TimeBlocks(b, ub));
  }

  lemma MonthBlocksOrder(a: Tm, ua: int, b: Tm, ub: int)
    requires WellFormed(a) && 0 <= ua <= 999999
    requires WellFormed(b) && 0 <= ub <= 999999
    ensures LexLess(MonthBlocks(a, ua), MonthBlocks(b, ub))
        <==> a.mon < b.mon || (a.mon == b.mon && LexLess(DayBlocks(a, ua), DayBlocks(b, ub)))
  {
    Pow10Values();
    NumberBlockStep(a.mon + 1, b.mon + 1, 2, DayBlocks(a, ua), DayBlocks(b, ub));
  }

  lemma YearBlocksOrder(a: Tm, ua: int, b: Tm, ub: int)
    requires WellFormed(a) && 0 <= ua <= 999999
    requires WellFormed(b) && 0 <= ub <= 999999
    ensures LexLess(StampBlocks(a, ua), StampBlocks(b, ub))
        <==> a.year < b.year || (a.year == b.year && LexLess(MonthBlocks(a, ua), MonthBlocks(b, ub)))
  {
    Pow10Values();
    NumberBlockStep(a.year + 1900, b.year + 1900, 4, MonthBlocks(a, ua), MonthBlocks(b, ub));
  }

  /** The blocks compare as the times they print. */
  lemma StampBlocksOrder(a: Tm, ua: int, b: Tm, ub: int)
    requires WellFormed(a) && 0 <= ua <= 999999
    requires WellFormed(b) && 0 <= ub <= 999999
    ensures LexLess(StampBlocks(a, ua), StampBlocks(b, ub)) <==> StampBefore(a, ua, b, ub)
  {
    YearBlocksOrder(a, ua, b, ub);
    MonthBlocksOrder(a, ua, b, ub);
    DayBlocksOrder(a, ua, b, ub);
    TimeBlocksOrder(a, ua, b, ub);
  }

  /**
    Comparing two well-formed timestamps as strings orders them as the times
    they print: string order is chronological order.
  */
  lemma TimestampOrder(a: Tm, ua: int, b: Tm, ub: int)
    requires WellFormed(a) && 0 <= ua <= 999999
    requires WellFormed(b) && 0 <= ub <= 999999
    ensures LexLess(FrameTimestamp(a, ua), FrameTimestamp(b, ub)) <==> StampBefore(a, ua, b, ub)
  {
    TimestampBlocks(a, ua);
    TimestampBlocks(b, ub);
    StampBlocksOrder(a, ua, b, ub);
  }

  /** Two well-formed frame times give the same timestamp only when they are the same time. */
  lemma TimestampInjective(a: Tm, ua: int, b: Tm, ub: int)
    requires WellFormed(a) && 0 <= ua <= 999999
    requires WellFormed(b) && 0 <= ub <= 999999
    ensures FrameTimestamp(a, ua) == FrameTimestamp(b, ub) <==> a == b && ua == ub
  {
    if FrameTimestamp(a, ua) == FrameTimestamp(b, ub) {
      LexIrreflexive(FrameTimestamp(a, ua));
      TimestampOrder(a, ua, b, ub);
      TimestampOrder(b, ub, a, ua);
    }
  }

  // ---------------------------------------------------------------------------
  // Distinctness of the image file names

  function Prefix(kind: ImageKind): string {
    if kind == FrameRgb || kind == FrameDepth then "/frame_" else "/screenshot_"
  }

  function Suffix(kind: ImageKind): string {
    if kind == FrameRgb || kind == ScreenshotRgb then "_rgb.png" else "_depth.png"
  }

  lemma ImagePathParts(kind: ImageKind, subdirectory: string, timestamp: string)
    ensures ImagePath(kind, subdirectory, timestamp) == subdirectory + Prefix(kind) + timestamp + Suffix(kind)
  {
  }

  /**
    Two image names in one run directory are equal exactly when they are for
    the same kind of image and the same timestamp: the four names of one frame
    are pairwise distinct, and frames collide only on equal timestamps.
  */
  lemma ImagePathInjective(k1: ImageKind, ts1: string, k2: ImageKind, ts2: string, subdirectory: string)
    ensures ImagePath(k1, subdirectory, ts1) == ImagePath(k2, subdirectory, ts2) <==> k1 == k2 && ts1 == ts2
  {
    ImagePathParts(k1, subdirectory, ts1);
    ImagePathParts(k2, subdirectory, ts2);
    if Prefix(k1) != Prefix(k2) {
      SecondCharDiffers(subdirectory, Prefix(k1), ts1 + Suffix(k1), Prefix(k2), ts2 + Suffix(k2));
      AppendAssoc(subdirectory + Prefix(k1), ts1, Suffix(k1));
      AppendAssoc(subdirectory + Prefix(k2), ts2, Suffix(k2));
    } else if Suffix(k1) != Suffix(k2) {
      EighthLastDiffers(subdirectory + Prefix(k1) + ts1, Suffix(k1), subdirectory + Prefix(k2) + ts2, Suffix(k2));
    } else {
      Cancel(subdirectory + Prefix(k1), ts1, ts2, Suffix(k1));
    }
  }

  lemma SecondCharDiffers(a: string, p1: string, r1: string, p2: string, r2: string)
    requires |p1| > 1 && |p2| > 1 && p1[1] != p2[1]
    ensures a + p1 + r1 != a + p2 + r2
  {
    assert (a + p1 + r1)[|a| + 1] == p1[1];
    assert (a + p2 + r2)[|a| + 1] == p2[1];
  }

  lemma EighthLastDiffers(x1: string, s1: string, x2: string, s2: string)
    requires |s1| >= 8 && |s2| >= 8 && s1[|s1| - 8] != s2[|s2| - 8]
    ensures x1 + s1 != x2 + s2
  {
    if |x1 + s1| == |x2 + s2| {
      assert (x1 + s1)[|x1 + s1| - 8] == s1[|s1| - 8];
      assert (x2 + s2)[|x2 + s2| - 8] == s2[|s2| - 8];
    }
  }

  lemma Cancel(p: string, t1: string, t2: string, q: string)
    ensures p + t1 + q == p + t2 + q <==> t1 == t2
  {
    if p + t1 + q == p + t2 + q {
      assert t1 == (p + t1 + q)[|p|..|p| + |t1|];
      assert t2 == (p + t2 + q)[|p|..|p| + |t2|];
    }
  }

  /** The file names of two well-formed frame times collide only for the same kind and the same time. */
  lemma FrameFilesDistinct(k1: ImageKind, a: Tm, ua: int, k2: ImageKind, b: Tm, ub: int, subdirectory: string)
    requires WellFormed(a) && 0 <= ua <= 999999
    requires WellFormed(b) && 0 <= ub <= 999999
    ensures ImagePath(k1, subdirectory, FrameTimestamp(a, ua)) == ImagePath(k2, subdirectory, FrameTimestamp(b, ub))
        <==> k1 == k2 && a == b && ua == ub
  {
    ImagePathInjective(k1, FrameTimestamp(a, ua), k2, FrameTimestamp(b, ub), subdirectory);
    TimestampInjective(a, ua, b, ub);
  }
}

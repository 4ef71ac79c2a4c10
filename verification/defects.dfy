/** The defects of find_line_position as written, each shown on a concrete
    log next to what the repaired locator does with the same input. The
    logs are built from their lines, and the lemmas take the log as a
    parameter equal to its constant, so that the verifier reasons about
    the layout of the lines rather than about every byte at once. */
module Defects {
  import opened Bytes
  import opened Dates
  import opened Stdio
  import opened Realignment
  import opened Search
  import opened Scan
  import opened Locate
  import opened Lines
  import Corrected

  const Day1: seq<Byte> := "2024-01-01"
  const Day2: seq<Byte> := "2024-01-02"
  const Day3: seq<Byte> := "2024-01-03"

  /** Bytes that are neither a newline nor NUL. */
  predicate Plain(b: seq<Byte>) {
    forall i :: 0 <= i < |b| ==> b[i] != NL && b[i] != NUL
  }

  /** The pieces the logs below are made of. */
  lemma PiecesArePlain()
    ensures |Day1| == KeyWidth && Plain(Day1)
    ensures |Day2| == KeyWidth && Plain(Day2)
    ensures |Day3| == KeyWidth && Plain(Day3)
    ensures Plain(Day2[1..]) && Plain(Day1 + " x")
    ensures Plain("a") && Plain("b") && Plain("ab")
  {
  }

  /** The days sort in calendar order. */
  lemma DayOrder()
    ensures Lt(Day1, Day2) && !Lt(Day2, Day1)
    ensures Lt(Day2, Day3) && !Lt(Day3, Day2)
  {
  }

  /** Two byte strings that differ first in their first byte. */
  lemma LtFirstByte(a: seq<Byte>, b: seq<Byte>)
    requires |a| > 0 && |b| > 0 && a[0] < b[0]
    ensures Lt(a, b)
  {
  }

  // ---------------------------------------------------------------------
  // Line 79: the line start found is one byte too far.

  /** Two lines, one per day. */
  const TwoDays: seq<Byte> := Day1 + [NL] + Day2 + [NL]

  /** On the two-day log the first midpoint, 10, is the first newline, so
      the chunk is read from 12 instead of 11 and its key "024-01-02\n"
      sorts before the target; `low` jumps to the end of the file and the
      linear scan finds nothing. The locator reports the second day missing
      although its line starts at 11 (see OffByOneRepaired). */
  lemma OffByOneMissesLine(file: seq<Byte>, seekEnd: nat, target: seq<Byte>, fuel: nat)
    requires Seekable(file, seekEnd) && file == TwoDays && target == Day2 && fuel >= 1
    ensures FindLinePosition(file, seekEnd, target, true, fuel) == Returns(Uint64Max)
  {
    OffByOneRun(file, seekEnd, fuel);
    ExitAtEndIsSentinel(file, seekEnd, target, true, fuel);
  }

  /** The binary search on the two-day log leaves after one iteration with
      `low` at the end of the file. */
  lemma OffByOneRun(file: seq<Byte>, seekEnd: nat, fuel: nat)
    requires Seekable(file, seekEnd) && file == TwoDays && fuel >= 1
    ensures |file| == 22
    ensures Run(file, seekEnd, Day2, true, Initial(file), fuel) == Exited(22)
  {
    OffByOneFirstStep(file, seekEnd);
    OffByOneRunGiven(file, seekEnd, fuel);
  }

  /** The loop on a 22-byte log whose first iteration empties the
      window. */
  lemma OffByOneRunGiven(file: seq<Byte>, seekEnd: nat, fuel: nat)
    requires Seekable(file, seekEnd) && |file| == 22 && fuel >= 1
    requires Step(file, seekEnd, Day2, true, State(0, 21, 0)) == Next(State(22, 21, 22))
    ensures Run(file, seekEnd, Day2, true, Initial(file), fuel) == Exited(22)
  {
    assert Initial(file) == State(0, 21, 0);
    RunLeaves(file, seekEnd, Day2, true, State(0, 21, 0), State(22, 21, 22), fuel);
  }

  /** The first iteration on the two-day log. */
  lemma OffByOneFirstStep(file: seq<Byte>, seekEnd: nat)
    requires Seekable(file, seekEnd) && file == TwoDays
    ensures |file| == 22
    ensures Step(file, seekEnd, Day2, true, State(0, 21, 0)) == Next(State(22, 21, 22))
  {
    PiecesArePlain();
    OffByOneRealign(file, seekEnd);
    var chunk := Day2[1..] + [NL];
    OffByOneChunk(file);
    KeyOfPrefix(chunk, chunk, []);
    LtFirstByte(chunk, Day2);
  }

  /** Realigning the first midpoint, the newline at 10, gives 12. */
  lemma OffByOneRealign(file: seq<Byte>, seekEnd: nat)
    requires Seekable(file, seekEnd) && file == TwoDays
    ensures |file| == 22
    ensures Realign(file, seekEnd, 10, 0) == LineStart(12)
  {
    PiecesArePlain();
    assert file[10] == NL;
    assert BackScan(file, 10) == Newline(10);
  }

  /** The chunk read from 12 is the second line without its first byte. */
  lemma OffByOneChunk(file: seq<Byte>)
    requires file == TwoDays
    ensures Fgets(file, 12) == Some(Chunk(12, Day2[1..] + [NL], 22))
  {
    PiecesArePlain();
    var pre := Day1 + [NL] + [Day2[0]];
    assert file == pre + Day2[1..] + [NL] + [];
    FgetsOfParts(file, pre, Day2[1..], []);
  }

  /** The repaired locator on the two-day log finds the second day at 11,
      the first line with its key: the first probe lands in the first line
      and moves `low` to 11, the second lands in the second line and moves
      `high` below it. */
  lemma OffByOneRepaired(file: seq<Byte>, target: seq<Byte>)
    requires file == TwoDays && target == Day2
    ensures Corrected.Locate(file, target, true) == At(11)
    ensures Corrected.FirstWithKey(file, target, 11)
  {
    TwoDaysLines(file);
    DayOrder();
    LtIrreflexive(target);
    assert Corrected.Narrow(file, target, true, 0, 21) == Corrected.Window(11, 21);
    assert Corrected.Narrow(file, target, true, 11, 21) == Corrected.Window(11, 10);
    assert Corrected.SearchFrom(file, target, true, 0, 21) == 11;
  }

  /** The two lines of the two-day log. */
  lemma TwoDaysLines(file: seq<Byte>)
    requires file == TwoDays
    ensures |file| == 22
    ensures LineStartOf(file, 10) == 0 && LineEnd(file, 0) == 11 && Key(file, 0) == Day1
    ensures IsLineStart(file, 11) && LineStartOf(file, 16) == 11 && LineEnd(file, 11) == 22
    ensures Key(file, 11) == Day2
    ensures forall t :: 0 < t < 11 ==> !IsLineStart(file, t)
  {
    PiecesArePlain();
    assert file == [] + Day1 + [NL] + (Day2 + [NL]);
    DatedLine(file, [], Day1, Day2 + [NL]);
    assert file == (Day1 + [NL]) + Day2 + [NL] + [];
    DatedLine(file, Day1 + [NL], Day2, []);
    forall t | 0 < t < 11 ensures !IsLineStart(file, t) {
      NoLineStartInside(file, 0, t);
    }
  }

  /** A line that is just a date: it is keyed by the date and holds every
      offset of it. */
  lemma DatedLine(file: seq<Byte>, pre: seq<Byte>, day: seq<Byte>, post: seq<Byte>)
    requires file == pre + day + [NL] + post
    requires pre == [] || pre[|pre| - 1] == NL
    requires |day| == KeyWidth && Plain(day)
    ensures IsLineStart(file, |pre|) && LineEnd(file, |pre|) == |pre| + KeyWidth + 1
    ensures Key(file, |pre|) == day
    ensures forall mid :: |pre| <= mid <= |pre| + KeyWidth ==> LineStartOf(file, mid) == |pre|
  {
    LineOfParts(file, pre, day, post);
    KeyOfPrefix(day + [NL], day, [NL]);
  }

  // ---------------------------------------------------------------------
  // Line 88: a chunk without a key leaves the window as it was.

  /** Two dated lines around a line without a key. */
  const Interrupted: seq<Byte> := Day1 + [NL] + "ab" + [NL] + Day2 + [NL]

  /** On this log the first midpoint, 12, realigns to 12 (two bytes past
      the newline at 10) and the chunk read there is "b\n", which has no
      key; the window stays `[0, 24]` and every later iteration repeats the
      first, whatever the target and the mode. The locator never
      returns. */
  lemma KeylessLineStalls(file: seq<Byte>, seekEnd: nat, target: seq<Byte>, findStart: bool, fuel: nat)
    requires Seekable(file, seekEnd) && file == Interrupted
    ensures FindLinePosition(file, seekEnd, target, findStart, fuel) == Unfinished
  {
    StallFirstStep(file, seekEnd, target, findStart);
    RepeatsAfterFirstStep(file, seekEnd, target, findStart, State(0, 24, 14), fuel);
  }

  /** The first iteration on the interrupted log leads to a state that
      leads back to itself. */
  lemma StallFirstStep(file: seq<Byte>, seekEnd: nat, target: seq<Byte>, findStart: bool)
    requires Seekable(file, seekEnd) && file == Interrupted
    ensures ValidFile(file) && Initial(file) == State(0, 24, 0)
    ensures Step(file, seekEnd, target, findStart, Initial(file)) == Next(State(0, 24, 14))
    ensures Step(file, seekEnd, target, findStart, State(0, 24, 14)) == Next(State(0, 24, 14))
  {
    StallFacts(file, seekEnd);
    EmptyKeyStalls(file, seekEnd, target, findStart, State(0, 24, 0), 0);
  }

  /** The first iteration on the interrupted log reads a keyless chunk. */
  lemma StallFacts(file: seq<Byte>, seekEnd: nat)
    requires Seekable(file, seekEnd) && file == Interrupted
    ensures |file| == 25 && Mid(0, 24) == 12
    ensures Realign(file, seekEnd, 12, 0) == LineStart(12)
    ensures Fgets(file, 12) == Some(Chunk(12, "b" + [NL], 14))
    ensures DateFromLine("b" + [NL]) == []
  {
    StallRealign(file, seekEnd);
    PiecesArePlain();
    var pre := Day1 + [NL] + "a";
    assert file == pre + "b" + [NL] + (Day2 + [NL]);
    FgetsOfParts(file, pre, "b", Day2 + [NL]);
  }

  /** The midpoint 12 of the interrupted log realigns to itself. */
  lemma StallRealign(file: seq<Byte>, seekEnd: nat)
    requires Seekable(file, seekEnd) && file == Interrupted
    ensures Realign(file, seekEnd, 12, 0) == LineStart(12)
  {
    PiecesArePlain();
    assert file[10] == NL && file[11] != NL && file[12] != NL;
    assert BackScan(file, 12) == Newline(10);
  }

  /** The repaired locator steps past the keyless line and finds the second
      day where its line starts, at 14. */
  lemma KeylessLineRepaired(file: seq<Byte>, target: seq<Byte>)
    requires file == Interrupted && target == Day2
    ensures Corrected.Locate(file, target, true) == At(14)
  {
    InterruptedLines(file);
    LtIrreflexive(target);
    assert Corrected.Narrow(file, target, true, 0, 24) == Corrected.Window(14, 24);
    assert Corrected.Narrow(file, target, true, 14, 24) == Corrected.Window(14, 13);
    assert Corrected.SearchFrom(file, target, true, 0, 24) == 14;
  }

  /** The lines of the interrupted log that the repaired search probes. */
  lemma InterruptedLines(file: seq<Byte>)
    requires file == Interrupted
    ensures |file| == 25
    ensures LineStartOf(file, 12) == 11 && LineEnd(file, 11) == 14 && Key(file, 11) == []
    ensures LineStartOf(file, 19) == 14 && IsLineStart(file, 14) && LineEnd(file, 14) == 25
    ensures Key(file, 14) == Day2
  {
    InterruptedKeyless(file);
    InterruptedLastLine(file);
  }

  /** The middle line of the interrupted log has no key. */
  lemma InterruptedKeyless(file: seq<Byte>)
    requires file == Interrupted
    ensures LineStartOf(file, 12) == 11 && LineEnd(file, 11) == 14 && Key(file, 11) == []
  {
    PiecesArePlain();
    assert file == (Day1 + [NL]) + "ab" + [NL] + (Day2 + [NL]);
    LineOfParts(file, Day1 + [NL], "ab", Day2 + [NL]);
  }

  /** The last line of the interrupted log holds the second day. */
  lemma InterruptedLastLine(file: seq<Byte>)
    requires file == Interrupted
    ensures |file| == 25
    ensures LineStartOf(file, 19) == 14 && IsLineStart(file, 14) && LineEnd(file, 14) == 25
    ensures Key(file, 14) == Day2
  {
    PiecesArePlain();
    assert file == (Day1 + [NL] + "ab" + [NL]) + Day2 + [NL] + [];
    DatedLine(file, Day1 + [NL] + "ab" + [NL], Day2, []);
  }

  /** A log whose dated lines are sorted, with a keyless line after the
      first. */
  const Hidden: seq<Byte> := Day2 + [NL] + "ab" + [NL] + Day3 + [NL]

  /** Stepping past a keyless line restores progress but not correctness:
      on this log the repaired search moves `low` past the keyless line at
      11, which also puts the matching line at 0 behind it, and the scan from
      14 meets the third day first. The line at 0 holds the target, yet the
      repaired locator reports none and nothing is copied. */
  lemma KeylessLineHidesMatch(file: seq<Byte>, target: seq<Byte>)
    requires file == Hidden && target == Day2
    ensures IsLineStart(file, 0) && Key(file, 0) == target
    ensures Corrected.Locate(file, target, true) == Exhausted
    ensures Corrected.Extract(file, target) == []
  {
    HiddenLines(file);
    HiddenSearch(file, target);
    DayOrder();
  }

  /** The repaired start search on the hidden-match log steps past the
      keyless line and stops below the third day, at 14. */
  lemma HiddenSearch(file: seq<Byte>, target: seq<Byte>)
    requires file == Hidden && target == Day2
    ensures |file| == 25 && Corrected.SearchFrom(file, target, true, 0, 24) == 14
  {
    HiddenFirstNarrow(file, target);
    HiddenSecondNarrow(file, target);
  }

  /** The first probe lands in the keyless line and moves `low` past it. */
  lemma HiddenFirstNarrow(file: seq<Byte>, target: seq<Byte>)
    requires file == Hidden && target == Day2
    ensures |file| == 25 && Corrected.LowOk(file, 14)
    ensures Corrected.Narrow(file, target, true, 0, 24) == Corrected.Window(14, 24)
  {
    HiddenKeyless(file);
    HiddenLastLine(file);
  }

  /** The second probe lands in the line of the third day and moves `high`
      below it. */
  lemma HiddenSecondNarrow(file: seq<Byte>, target: seq<Byte>)
    requires file == Hidden && target == Day2
    ensures |file| == 25 && Corrected.LowOk(file, 14)
    ensures Corrected.Narrow(file, target, true, 14, 24) == Corrected.Window(14, 13)
  {
    HiddenLastLine(file);
    DayOrder();
  }

  /** The lines of the hidden-match log that the repaired search probes. */
  lemma HiddenLines(file: seq<Byte>)
    requires file == Hidden
    ensures |file| == 25 && IsLineStart(file, 0) && Key(file, 0) == Day2
    ensures LineStartOf(file, 12) == 11 && LineEnd(file, 11) == 14 && Key(file, 11) == []
    ensures LineStartOf(file, 19) == 14 && IsLineStart(file, 14) && LineEnd(file, 14) == 25
    ensures Key(file, 14) == Day3
  {
    HiddenFirstLine(file);
    HiddenKeyless(file);
    HiddenLastLine(file);
  }

  /** The first line of the hidden-match log holds the second day. */
  lemma HiddenFirstLine(file: seq<Byte>)
    requires file == Hidden
    ensures IsLineStart(file, 0) && Key(file, 0) == Day2
  {
    PiecesArePlain();
    assert file == [] + Day2 + [NL] + ("ab" + [NL] + Day3 + [NL]);
    DatedLine(file, [], Day2, "ab" + [NL] + Day3 + [NL]);
  }

  /** The middle line of the hidden-match log has no key. */
  lemma HiddenKeyless(file: seq<Byte>)
    requires file == Hidden
    ensures LineStartOf(file, 12) == 11 && LineEnd(file, 11) == 14 && Key(file, 11) == []
  {
    PiecesArePlain();
    assert file == (Day2 + [NL]) + "ab" + [NL] + (Day3 + [NL]);
    LineOfParts(file, Day2 + [NL], "ab", Day3 + [NL]);
  }

  /** The last line of the hidden-match log holds the third day. */
  lemma HiddenLastLine(file: seq<Byte>)
    requires file == Hidden
    ensures |file| == 25
    ensures LineStartOf(file, 19) == 14 && IsLineStart(file, 14) && LineEnd(file, 14) == 25
    ensures Key(file, 14) == Day3
  {
    PiecesArePlain();
    assert file == (Day2 + [NL] + "ab" + [NL]) + Day3 + [NL] + [];
    DatedLine(file, Day2 + [NL] + "ab" + [NL], Day3, []);
  }

  // ---------------------------------------------------------------------
  // Lines 95 and 101: `line_start - 1` wraps at offset 0.

  /** A log of one line of odd length. */
  const OneLine: seq<Byte> := Day1 + " x" + [NL]

  /** Looking for the start of its day, the first iteration reads the line
      from 0, its key is the target, and `high = 0 - 1` wraps to
      UINT64_MAX. The next midpoint is 2^63 - 1, far past the end. Whether
      the seek there succeeds or fails and leaves the cursor at 13, the
      walk comes down to 11, finds no newline and realigns to 0 again, so
      the same iteration repeats forever and the locator never returns, on
      every file system. */
  lemma WrapNeverEnds(file: seq<Byte>, seekEnd: nat, target: seq<Byte>, fuel: nat)
    requires Seekable(file, seekEnd) && file == OneLine && target == Day1
    ensures FindLinePosition(file, seekEnd, target, true, fuel) == Unfinished
  {
    WrapFirstStep(file, seekEnd, target);
    WrapSecondStep(file, seekEnd, target);
    RepeatsAfterFirstStep(file, seekEnd, target, true, State(0, Uint64Max, 13), fuel);
  }

  /** The line is the whole of the one-line log, and its key is the first
      day. */
  lemma OneLineChunk(file: seq<Byte>)
    requires file == OneLine
    ensures |file| == 13
    ensures Fgets(file, 0) == Some(Chunk(0, file, 13))
    ensures DateFromLine(file) == Day1
    ensures forall j :: 0 <= j < 12 ==> file[j] != NL
  {
    PiecesArePlain();
    assert file == [] + (Day1 + " x") + [NL] + [];
    FgetsOfParts(file, [], Day1 + " x", []);
    KeyOfPrefix(file, Day1, " x" + [NL]);
  }

  /** The first iteration on the one-line log wraps `high`. */
  lemma WrapFirstStep(file: seq<Byte>, seekEnd: nat, target: seq<Byte>)
    requires Seekable(file, seekEnd) && file == OneLine && target == Day1
    ensures ValidFile(file) && Initial(file) == State(0, 12, 0)
    ensures Step(file, seekEnd, target, true, Initial(file)) == Next(State(0, Uint64Max, 13))
  {
    OneLineChunk(file);
    assert BackScan(file, 6) == NoNewline;
    LtIrreflexive(target);
  }

  /** From the wrapped window the iteration leads back to itself. */
  lemma WrapSecondStep(file: seq<Byte>, seekEnd: nat, target: seq<Byte>)
    requires Seekable(file, seekEnd) && file == OneLine && target == Day1
    ensures Inv(file, State(0, Uint64Max, 13))
    ensures Step(file, seekEnd, target, true, State(0, Uint64Max, 13)) == Next(State(0, Uint64Max, 13))
  {
    OneLineChunk(file);
    var mid := Mid(0, Uint64Max);
    HalfOfUint64Max();
    var c := SeekSet(seekEnd, 13, mid);
    BackScanPastEnd(file, c);
    if c == mid {
      LandingAtGap(13, mid, 0x3FFF_FFFF_FFFF_FFF9);
    } else {
      LandingAtGap(13, 13, 0);
    }
    assert BackScan(file, 11) == NoNewline;
    assert Realign(file, seekEnd, mid, 13) == LineStart(0);
    LtIrreflexive(target);
  }

  /** The repaired locator finds the day at 0: its window closes below
      offset 0 instead of wrapping. */
  lemma WrapRepaired(file: seq<Byte>, target: seq<Byte>)
    requires file == OneLine && target == Day1
    ensures Corrected.Locate(file, target, true) == At(0)
  {
    OneLineAsLine(file);
    LtIrreflexive(target);
    assert Corrected.Narrow(file, target, true, 0, 12) == Corrected.Window(0, -1);
    assert Corrected.SearchFrom(file, target, true, 0, 12) == 0;
  }

  /** The one-line log as a line. */
  lemma OneLineAsLine(file: seq<Byte>)
    requires file == OneLine
    ensures |file| == 13
    ensures LineStartOf(file, 6) == 0 && LineEnd(file, 0) == 13
    ensures Key(file, 0) == Day1
  {
    PiecesArePlain();
    assert file == [] + (Day1 + " x") + [NL] + [];
    LineOfParts(file, [], Day1 + " x", []);
    KeyOfPrefix(file, Day1, " x" + [NL]);
  }

  // ---------------------------------------------------------------------
  // Line 60: `file_size - 1` wraps for an empty file.

  /** On an empty file `high` starts at UINT64_MAX, so the loop runs with
      midpoint 2^63 - 1, whatever the target and the mode. Where the file
      system can seek to that offset, the backward walk from there comes
      down to offset 1, where the two-byte seek back fails and the same
      pass repeats forever. Where it cannot, the cursor stays at 0, the
      walk ends at once, fgets fails and the locator returns its "not
      found" answer. */
  lemma EmptyFileHangs(seekEnd: nat, target: seq<Byte>, findStart: bool, fuel: nat)
    requires Seekable([], seekEnd) && fuel >= 1
    ensures FindLinePosition([], seekEnd, target, findStart, fuel) ==
      if seekEnd == TwoTo63 then Loops else Returns(if findStart then Uint64Max else 0)
  {
    var mid := Mid(0, Uint64Max);
    HalfOfUint64Max();
    if seekEnd == TwoTo63 {
      BackScanPastEnd([], mid);
      assert Realign([], seekEnd, mid, 0) == Hangs;
      assert Step([], seekEnd, target, findStart, Initial([])) == Hang;
    } else {
      assert Realign([], seekEnd, mid, 0) == LineStart(0);
      assert Step([], seekEnd, target, findStart, Initial([])) == Break;
    }
  }

  /** The repaired locator on an empty file reads nothing: no start, and
      the end at offset 0. */
  lemma EmptyFileRepaired(target: seq<Byte>)
    ensures Corrected.Locate([], target, true) == Exhausted
    ensures Corrected.FindEnd([], target) == 0
    ensures Corrected.Extract([], target) == []
  {
  }

  /** The midpoint of the widest window. */
  lemma HalfOfUint64Max()
    ensures Mid(0, Uint64Max) == TwoTo63 - 1 == 2 * 0x3FFF_FFFF_FFFF_FFFF + 1
  {
  }

  /** A walk an even distance past the end lands two bytes below it. */
  lemma LandingAtGap(n: nat, p: nat, k: nat)
    requires n >= 2 && p == n + 2 * k
    ensures Landing(n, p) == n - 2
  {
  }

  // ---------------------------------------------------------------------
  // Line 79 on a log of three days, the case the tool is written for.

  /** What follows the date on every line of the three-day log. */
  const Note: seq<Byte> := " a" + [NL]

  /** The lines of the three-day log, one per day. */
  const Entry1: seq<Byte> := Day1 + Note
  const Entry2: seq<Byte> := Day2 + Note
  const Entry3: seq<Byte> := Day3 + Note

  /** Six 13-byte lines: two of the first day, three of the second and one
      of the third. */
  const ThreeDays: seq<Byte> := Entry1 + Entry1 + Entry2 + Entry2 + Entry2 + Entry3

  /** Looking for the start of the second day, the first midpoint 38 is the
      newline that ends the second line, so the chunk is read from 40; its
      key "024-01-02 " sorts before the target and `low` becomes 52. The
      second midpoint 64 is again a newline, the chunk from 66 has the key
      "024-01-03 " and `low` becomes 78, the end of the file. The scan from
      there reads nothing, so on every file system the locator reports the
      day missing although its first line starts at 26 (see
      ThreeDaysRepaired). */
  lemma ThreeDaysMissesStart(file: seq<Byte>, seekEnd: nat, target: seq<Byte>, fuel: nat)
    requires Seekable(file, seekEnd) && file == ThreeDays && target == Day2 && fuel >= 2
    ensures FindLinePosition(file, seekEnd, target, true, fuel) == Returns(Uint64Max)
  {
    ThreeDaysFirstStep(file, seekEnd);
    ThreeDaysSecondStep(file, seekEnd);
    ThreeDaysRunGiven(file, seekEnd, fuel);
    ExitAtEndIsSentinel(file, seekEnd, target, true, fuel);
  }

  /** The loop on a 78-byte log whose second iteration empties the
      window. */
  lemma ThreeDaysRunGiven(file: seq<Byte>, seekEnd: nat, fuel: nat)
    requires Seekable(file, seekEnd) && |file| == 78 && fuel >= 2
    requires Step(file, seekEnd, Day2, true, State(0, 77, 0)) == Next(State(52, 77, 52))
    requires Step(file, seekEnd, Day2, true, State(52, 77, 52)) == Next(State(78, 77, 78))
    ensures Run(file, seekEnd, Day2, true, Initial(file), fuel) == Exited(78)
  {
    assert Initial(file) == State(0, 77, 0);
    RunLeaves(file, seekEnd, Day2, true, State(52, 77, 52), State(78, 77, 78), fuel - 1);
  }

  /** The first iteration on the three-day log. */
  lemma ThreeDaysFirstStep(file: seq<Byte>, seekEnd: nat)
    requires Seekable(file, seekEnd) && file == ThreeDays
    ensures |file| == 78
    ensures Step(file, seekEnd, Day2, true, State(0, 77, 0)) == Next(State(52, 77, 52))
  {
    PiecesArePlain();
    Regroup(file, Entry1, Entry1, Entry2, Entry2, Entry2, Entry3);
    ProbeAtNewline(file, seekEnd, Entry1 + Entry1, Day2, Day2, Entry2 + Entry3, 0);
    LtFirstByte(Day2[1..] + " ", Day2);
  }

  /** The second iteration on the three-day log. */
  lemma ThreeDaysSecondStep(file: seq<Byte>, seekEnd: nat)
    requires Seekable(file, seekEnd) && file == ThreeDays
    ensures |file| == 78
    ensures Step(file, seekEnd, Day2, true, State(52, 77, 52)) == Next(State(78, 77, 78))
  {
    PiecesArePlain();
    Regroup(file, Entry1, Entry1, Entry2, Entry2, Entry2, Entry3);
    ProbeAtNewline(file, seekEnd, Entry1 + Entry1 + Entry2 + Entry2, Day2, Day3, [], 52);
    LtFirstByte(Day3[1..] + " ", Day2);
  }

  /** A midpoint on the newline that ends a line of the three-day shape,
      followed by another: the walk stops at once, the cursor lands one
      byte into the next line, and the chunk read there is that line
      without its first byte, keyed by the rest of its date and a space. */
  lemma ProbeAtNewline(file: seq<Byte>, seekEnd: nat, before: seq<Byte>, prev: seq<Byte>, day: seq<Byte>, post: seq<Byte>, cursor: nat)
    requires Seekable(file, seekEnd) && file == before + (prev + Note) + (day + Note) + post
    requires |prev| == KeyWidth && |day| == KeyWidth && Plain(day)
    ensures Realign(file, seekEnd, |before| + 12, cursor) == LineStart(|before| + 14)
    ensures Fgets(file, |before| + 14) == Some(Chunk(|before| + 14, day[1..] + " a" + [NL], |before| + 26))
    ensures DateFromLine(day[1..] + " a" + [NL]) == day[1..] + " "
  {
    var p := |before| + 12;
    assert file[p] == NL;
    assert BackScan(file, p) == Newline(p);
    var body := day[1..] + " a";
    var pre := before + (prev + Note) + [day[0]];
    assert file == pre + body + [NL] + post;
    FgetsOfParts(file, pre, body, post);
    KeyOfPrefix(body + [NL], day[1..] + " ", "a" + [NL]);
  }

  /** The repaired locator on the three-day log: the start is the first
      line of the second day at 26, the end the line of the third day at
      65, and what is copied is the three lines of the second day. */
  lemma ThreeDaysRepaired(file: seq<Byte>, target: seq<Byte>)
    requires file == ThreeDays && target == Day2
    ensures Corrected.Locate(file, target, true) == At(26)
    ensures Corrected.FindEnd(file, target) == 65
    ensures Corrected.Extract(file, target) == Day2 + Note + Day2 + Note + Day2 + Note
  {
    ThreeDaysStartRepaired(file, target);
    ThreeDaysEndRepaired(file, target);
    ThreeDaysMiddle(file);
  }

  /** The bytes from 26 to 65 are the three lines of the second day. */
  lemma ThreeDaysMiddle(file: seq<Byte>)
    requires file == ThreeDays
    ensures |file| == 78 && file[26..65] == Day2 + Note + Day2 + Note + Day2 + Note
  {
    var mid := Day2 + Note + Day2 + Note + Day2 + Note;
    assert file == (Day1 + Note + Day1 + Note) + mid + (Day3 + Note);
    SliceOfParts(file, Day1 + Note + Day1 + Note, mid, Day3 + Note);
  }

  /** The middle part of a sequence made of three. */
  lemma SliceOfParts(file: seq<Byte>, pre: seq<Byte>, mid: seq<Byte>, post: seq<Byte>)
    requires file == pre + mid + post
    ensures file[|pre|..|pre| + |mid|] == mid
  {
  }

  /** The repaired start search on the three-day log: the probes land in
      the lines at 26, 0 and 13, and the scan accepts the line at 26. */
  lemma ThreeDaysStartRepaired(file: seq<Byte>, target: seq<Byte>)
    requires file == ThreeDays && target == Day2
    ensures Corrected.Locate(file, target, true) == At(26)
  {
    ThreeDaysFirstLine(file);
    ThreeDaysSecondLine(file);
    ThreeDaysThirdLine(file);
    DayOrder();
    LtIrreflexive(target);
    assert Corrected.Narrow(file, target, true, 0, 77) == Corrected.Window(0, 25);
    assert Corrected.Narrow(file, target, true, 0, 25) == Corrected.Window(13, 25);
    assert Corrected.Narrow(file, target, true, 13, 25) == Corrected.Window(26, 25);
    assert Corrected.SearchFrom(file, target, true, 0, 77) == 26;
  }

  /** The repaired end search on the three-day log: the probes land in the
      lines at 26, 52 and 65, and the scan accepts the line at 65. */
  lemma ThreeDaysEndRepaired(file: seq<Byte>, target: seq<Byte>)
    requires file == ThreeDays && target == Day2
    ensures Corrected.FindEnd(file, target) == 65
  {
    ThreeDaysThirdLine(file);
    ThreeDaysFifthLine(file);
    ThreeDaysLastLine(file);
    DayOrder();
    LtIrreflexive(target);
    assert Corrected.Narrow(file, target, false, 0, 77) == Corrected.Window(39, 77);
    assert Corrected.Narrow(file, target, false, 39, 77) == Corrected.Window(65, 77);
    assert Corrected.Narrow(file, target, false, 65, 77) == Corrected.Window(65, 64);
    assert Corrected.SearchFrom(file, target, false, 0, 77) == 65;
  }

  /** The first line of the three-day log. */
  lemma ThreeDaysFirstLine(file: seq<Byte>)
    requires file == ThreeDays
    ensures LineStartOf(file, 12) == 0 && LineEnd(file, 0) == 13 && Key(file, 0) == Day1
  {
    PiecesArePlain();
    Regroup(file, Entry1, Entry1, Entry2, Entry2, Entry2, Entry3);
    NotedLine(file, [], Day1, Entry1 + Entry2 + Entry2 + Entry2 + Entry3);
  }

  /** The second line of the three-day log. */
  lemma ThreeDaysSecondLine(file: seq<Byte>)
    requires file == ThreeDays
    ensures LineStartOf(file, 19) == 13 && LineEnd(file, 13) == 26 && Key(file, 13) == Day1
  {
    PiecesArePlain();
    Regroup(file, Entry1, Entry1, Entry2, Entry2, Entry2, Entry3);
    NotedLine(file, Entry1, Day1, Entry2 + Entry2 + Entry2 + Entry3);
  }

  /** The third line of the three-day log, the first of the second day. */
  lemma ThreeDaysThirdLine(file: seq<Byte>)
    requires file == ThreeDays
    ensures |file| == 78 && IsLineStart(file, 26)
    ensures LineStartOf(file, 38) == 26 && LineEnd(file, 26) == 39 && Key(file, 26) == Day2
  {
    PiecesArePlain();
    Regroup(file, Entry1, Entry1, Entry2, Entry2, Entry2, Entry3);
    NotedLine(file, Entry1 + Entry1, Day2, Entry2 + Entry2 + Entry3);
  }

  /** The fifth line of the three-day log, the last of the second day. */
  lemma ThreeDaysFifthLine(file: seq<Byte>)
    requires file == ThreeDays
    ensures LineStartOf(file, 58) == 52 && LineEnd(file, 52) == 65 && Key(file, 52) == Day2
  {
    PiecesArePlain();
    Regroup(file, Entry1, Entry1, Entry2, Entry2, Entry2, Entry3);
    NotedLine(file, Entry1 + Entry1 + Entry2 + Entry2, Day2, Entry3);
  }

  /** The last line of the three-day log, of the third day. */
  lemma ThreeDaysLastLine(file: seq<Byte>)
    requires file == ThreeDays
    ensures LineStartOf(file, 71) == 65 && IsLineStart(file, 65) && Key(file, 65) == Day3
  {
    PiecesArePlain();
    Regroup(file, Entry1, Entry1, Entry2, Entry2, Entry2, Entry3);
    NotedLine(file, Entry1 + Entry1 + Entry2 + Entry2 + Entry2, Day3, []);
  }

  /** A log of six lines seen around each of them. */
  lemma Regroup(file: seq<Byte>, a: seq<Byte>, b: seq<Byte>, c: seq<Byte>, d: seq<Byte>, e: seq<Byte>, f: seq<Byte>)
    requires file == a + b + c + d + e + f
    ensures file == [] + a + (b + c + d + e + f)
    ensures file == a + b + (c + d + e + f)
    ensures file == (a + b) + c + (d + e + f)
    ensures file == (a + b) + c + d + (e + f)
    ensures file == (a + b + c + d) + e + f + []
    ensures file == (a + b + c + d) + e + f
    ensures file == (a + b + c + d + e) + f + []
  {
  }

  /** A line of the three-day shape: it is keyed by its date and holds
      every offset of it. */
  lemma NotedLine(file: seq<Byte>, pre: seq<Byte>, day: seq<Byte>, post: seq<Byte>)
    requires file == pre + (day + Note) + post
    requires pre == [] || pre[|pre| - 1] == NL
    requires |day| == KeyWidth && Plain(day)
    ensures IsLineStart(file, |pre|) && LineEnd(file, |pre|) == |pre| + 13
    ensures Key(file, |pre|) == day
    ensures forall mid :: |pre| <= mid <= |pre| + 12 ==> LineStartOf(file, mid) == |pre|
  {
    var body := day + " a";
    assert file == pre + body + [NL] + post;
    LineOfParts(file, pre, body, post);
    KeyOfPrefix(body + [NL], day, Note);
  }
}

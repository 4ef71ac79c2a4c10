/** The locator as it is evidently meant to work, with the defects of the
    written code repaired: realignment to the true start of the line that
    holds the midpoint, whole lines read, signed window bounds (so neither
    `line_start - 1` at offset 0 nor `file_size - 1` on an empty file
    wraps), and a line without a key moving `low` past it. This version
    terminates on every file, and on a well-formed sorted log it returns
    exactly the boundaries the locator promises. */
module Corrected {
  import opened Bytes
  import opened Dates
  import opened Lines
  import opened Search
  import opened Scan

  /** `low` is where the search may stand: a line start or the end of the
      file. */
  predicate LowOk(file: seq<Byte>, low: nat) {
    low <= |file| && (low == |file| || IsLineStart(file, low))
  }

  /** The search window `[low, high]`; `high` is signed, so it can drop to
      -1 instead of wrapping. */
  datatype Window = Window(low: nat, high: int)

  /** One repaired iteration on a non-empty window: realign the midpoint to
      the start of its line, read the whole line, and move `low` past it
      (no key, or a key before the target) or `high` below it. */
  function Narrow(file: seq<Byte>, target: seq<Byte>, findStart: bool, low: nat, high: int): (w: Window)
    requires LowOk(file, low) && low <= high < |file|
    ensures LowOk(file, w.low) && w.high < |file|
    ensures low <= w.low && w.high <= high && w.high - w.low < high - low
  {
    var mid := low + (high - low) / 2;
    var ls := LineStartOf(file, mid);
    LineStartOfContains(file, mid);
    LineEndStartsLine(file, ls);
    var key := Key(file, ls);
    if key == [] || Before(key, target, findStart) then Window(LineEnd(file, ls), high)
    else Window(low, ls - 1)
  }

  /** The repaired binary search: narrow until the window is empty. */
  function SearchFrom(file: seq<Byte>, target: seq<Byte>, findStart: bool, low: nat, high: int): (r: nat)
    requires LowOk(file, low) && high < |file|
    ensures LowOk(file, r) && low <= r
    decreases if high < low then 0 else high - low + 1
  {
    if high < low then low
    else
      var w := Narrow(file, target, findStart, low, high);
      SearchFrom(file, target, findStart, w.low, w.high)
  }

  /** Every line before `low` has a key that sorts before the target. */
  ghost predicate BeforeBelow(file: seq<Byte>, target: seq<Byte>, findStart: bool, low: int) {
    forall s :: IsLineStart(file, s) && s < low ==> Before(Key(file, s), target, findStart)
  }

  /** No line after `high` has a key that sorts before the target. */
  ghost predicate NotBeforeAbove(file: seq<Byte>, target: seq<Byte>, findStart: bool, high: int) {
    forall s :: IsLineStart(file, s) && s > high ==> !Before(Key(file, s), target, findStart)
  }

  /** In a sorted log, sorting before the target is inherited by earlier
      lines. */
  lemma BeforeDownward(file: seq<Byte>, target: seq<Byte>, findStart: bool, s: nat, t: nat)
    requires Sorted(file) && IsLineStart(file, s) && IsLineStart(file, t) && s <= t
    requires Before(Key(file, t), target, findStart)
    ensures Before(Key(file, s), target, findStart)
  {
    if s < t {
      if findStart {
        LeLtTransitive(Key(file, s), Key(file, t), target);
      } else {
        LeTransitive(Key(file, s), Key(file, t), target);
      }
    }
  }

  /** On a well-formed sorted log the repaired search ends exactly at the
      boundary: every line before the result sorts before the target and
      no line from it on does. */
  lemma {:induction false} SearchFromPartitions(file: seq<Byte>, target: seq<Byte>, findStart: bool, low: nat, high: int)
    requires LowOk(file, low) && high < |file|
    requires WellFormed(file) && Sorted(file)
    requires BeforeBelow(file, target, findStart, low)
    requires NotBeforeAbove(file, target, findStart, high)
    ensures BeforeBelow(file, target, findStart, SearchFrom(file, target, findStart, low, high))
    ensures NotBeforeAbove(file, target, findStart, SearchFrom(file, target, findStart, low, high) - 1)
    decreases if high < low then 0 else high - low + 1
  {
    if high >= low {
      var w := Narrow(file, target, findStart, low, high);
      NarrowKeeps(file, target, findStart, low, high);
      SearchFromPartitions(file, target, findStart, w.low, w.high);
    }
  }

  /** One repaired iteration keeps both halves of the partition. */
  lemma NarrowKeeps(file: seq<Byte>, target: seq<Byte>, findStart: bool, low: nat, high: int)
    requires LowOk(file, low) && low <= high < |file|
    requires WellFormed(file) && Sorted(file)
    requires BeforeBelow(file, target, findStart, low)
    requires NotBeforeAbove(file, target, findStart, high)
    ensures var w := Narrow(file, target, findStart, low, high);
      BeforeBelow(file, target, findStart, w.low) && NotBeforeAbove(file, target, findStart, w.high)
  {
    var mid := low + (high - low) / 2;
    var ls := LineStartOf(file, mid);
    LineStartOfContains(file, mid);
    if Before(Key(file, ls), target, findStart) {
      RaiseLow(file, target, findStart, low, ls);
    } else {
      LowerHigh(file, target, findStart, high, ls);
    }
  }

  /** Moving `low` past a line that sorts before the target keeps every line
      below `low` sorting before it. */
  lemma RaiseLow(file: seq<Byte>, target: seq<Byte>, findStart: bool, low: nat, ls: nat)
    requires Sorted(file) && IsLineStart(file, ls) && low <= ls
    requires BeforeBelow(file, target, findStart, low)
    requires Before(Key(file, ls), target, findStart)
    ensures BeforeBelow(file, target, findStart, LineEnd(file, ls))
  {
    forall s | IsLineStart(file, s) && s < LineEnd(file, ls)
      ensures Before(Key(file, s), target, findStart)
    {
      if s >= low {
        if s > ls { NoLineStartInside(file, ls, s); }
        BeforeDownward(file, target, findStart, s, ls);
      }
    }
  }

  /** Moving `high` below a line that does not sort before the target keeps
      every line above `high` from sorting before it. */
  lemma LowerHigh(file: seq<Byte>, target: seq<Byte>, findStart: bool, high: int, ls: nat)
    requires Sorted(file) && IsLineStart(file, ls)
    requires NotBeforeAbove(file, target, findStart, high)
    requires !Before(Key(file, ls), target, findStart)
    ensures NotBeforeAbove(file, target, findStart, ls - 1)
  {
    forall s | IsLineStart(file, s) && s > ls - 1
      ensures !Before(Key(file, s), target, findStart)
    {
      if s <= high && Before(Key(file, s), target, findStart) {
        BeforeDownward(file, target, findStart, ls, s);
      }
    }
  }

  /** The linear scan over whole lines from `pos`, with the branches of the
      written scan: skip a line without a key, return an accepted key's
      offset, stop empty-handed at a later date (start mode). */
  function ScanLines(file: seq<Byte>, target: seq<Byte>, findStart: bool, pos: nat): (r: ScanEnd)
    requires LowOk(file, pos)
    ensures r.At? ==> pos <= r.pos && IsLineStart(file, r.pos) && Accepts(Key(file, r.pos), target, findStart)
    decreases |file| - pos
  {
    if pos == |file| then Exhausted
    else
      var key := Key(file, pos);
      LineEndStartsLine(file, pos);
      if GoesOn(key, target, findStart) then ScanLines(file, target, findStart, LineEnd(file, pos))
      else if Accepts(key, target, findStart) then At(pos)
      else Exhausted
  }

  /** The repaired find_line_position: the search over the whole file, then
      the scan from where it ended. */
  function Locate(file: seq<Byte>, target: seq<Byte>, findStart: bool): (r: ScanEnd)
    ensures r.At? ==> IsLineStart(file, r.pos) && Accepts(Key(file, r.pos), target, findStart)
  {
    ScanLines(file, target, findStart, SearchFrom(file, target, findStart, 0, |file| - 1))
  }

  /** The end offset: the first line after the target's date, or the file
      size when there is none. */
  function FindEnd(file: seq<Byte>, target: seq<Byte>): (e: nat)
    ensures e <= |file|
    ensures e < |file| ==> IsLineStart(file, e) && Lt(target, Key(file, e))
  {
    match Locate(file, target, false)
    case At(p) => p
    case Exhausted => |file|
  }

  /** `p` is the first line whose key is the target. */
  ghost predicate FirstWithKey(file: seq<Byte>, target: seq<Byte>, p: nat) {
    && IsLineStart(file, p) && Key(file, p) == target
    && forall s :: IsLineStart(file, s) && s < p ==> Key(file, s) != target
  }

  /** No line's key is the target. */
  ghost predicate NoneWithKey(file: seq<Byte>, target: seq<Byte>) {
    forall s :: IsLineStart(file, s) ==> Key(file, s) != target
  }

  /** `e` is the boundary after the target's date: lines before it are not
      after the target, lines from it on are. */
  ghost predicate EndBoundary(file: seq<Byte>, target: seq<Byte>, e: nat) {
    && e <= |file|
    && (forall s :: IsLineStart(file, s) && s < e ==> !Lt(target, Key(file, s)))
    && (forall s :: IsLineStart(file, s) && s >= e ==> Lt(target, Key(file, s)))
  }

  /** The search from the whole file ends at the boundary. */
  lemma SearchWholeFile(file: seq<Byte>, target: seq<Byte>, findStart: bool)
    requires WellFormed(file) && Sorted(file)
    ensures BeforeBelow(file, target, findStart, SearchFrom(file, target, findStart, 0, |file| - 1))
    ensures NotBeforeAbove(file, target, findStart, SearchFrom(file, target, findStart, 0, |file| - 1) - 1)
  {
    SearchFromPartitions(file, target, findStart, 0, |file| - 1);
  }

  /** The start search on a well-formed sorted log finds the first line
      whose key is the target, and reports nothing only when no line has
      it. */
  lemma StartCorrect(file: seq<Byte>, target: seq<Byte>)
    requires WellFormed(file) && Sorted(file)
    ensures Locate(file, target, true).At? ==> FirstWithKey(file, target, Locate(file, target, true).pos)
    ensures Locate(file, target, true).Exhausted? ==> NoneWithKey(file, target)
  {
    SearchWholeFile(file, target, true);
    ScanAtStartBoundary(file, target, SearchFrom(file, target, true, 0, |file| - 1));
  }

  /** From the start boundary the scan finds the first line with the
      target's key, or reports it missing only when no line has it. */
  lemma ScanAtStartBoundary(file: seq<Byte>, target: seq<Byte>, r: nat)
    requires WellFormed(file) && Sorted(file) && LowOk(file, r)
    requires BeforeBelow(file, target, true, r) && NotBeforeAbove(file, target, true, r - 1)
    ensures ScanLines(file, target, true, r).At? ==> FirstWithKey(file, target, r) && ScanLines(file, target, true, r).pos == r
    ensures ScanLines(file, target, true, r).Exhausted? ==> NoneWithKey(file, target)
  {
    LtIrreflexive(target);
    if r < |file| {
      var k := Key(file, r);
      LtTrichotomy(k, target);
      if k != target {
        NoneFromAbove(file, target, r);
      }
    }
  }

  /** When the first line not below the target is above it, no line has
      the target's key. */
  lemma NoneFromAbove(file: seq<Byte>, target: seq<Byte>, r: nat)
    requires Sorted(file) && r < |file| && IsLineStart(file, r)
    requires BeforeBelow(file, target, true, r) && Lt(target, Key(file, r))
    ensures NoneWithKey(file, target)
  {
    LtIrreflexive(target);
    forall s | IsLineStart(file, s) ensures Key(file, s) != target {
      if s > r {
        LtLeTransitive(target, Key(file, r), Key(file, s));
      }
    }
  }

  /** The end search on a well-formed sorted log finds the boundary after
      the target's date: the first line after it, or the file size. */
  lemma EndCorrect(file: seq<Byte>, target: seq<Byte>)
    requires WellFormed(file) && Sorted(file)
    ensures EndBoundary(file, target, FindEnd(file, target))
  {
    SearchWholeFile(file, target, false);
    var r := SearchFrom(file, target, false, 0, |file| - 1);
    ScanAtEndBoundary(file, target, r);
    assert FindEnd(file, target) == r;
  }

  /** From the end boundary the scan stops at once: at the first line
      after the target's date, or at the end of the file. */
  lemma ScanAtEndBoundary(file: seq<Byte>, target: seq<Byte>, r: nat)
    requires WellFormed(file) && LowOk(file, r)
    requires NotBeforeAbove(file, target, false, r - 1)
    ensures ScanLines(file, target, false, r) == if r == |file| then Exhausted else At(r)
  {
  }

  /** main's intent: the bytes from the start offset to the end offset, or
      nothing when no line has the target's date. */
  function Extract(file: seq<Byte>, target: seq<Byte>): (out: seq<Byte>)
    ensures |out| <= |file|
  {
    match Locate(file, target, true)
    case Exhausted => []
    case At(p) => if p <= FindEnd(file, target) then file[p..FindEnd(file, target)] else []
  }

  /** On a well-formed sorted log the start offset comes no later than the
      end offset, and the lines between them are exactly the lines with the
      target's date; when there is no start, no line has that date. */
  lemma ExtractCorrect(file: seq<Byte>, target: seq<Byte>)
    requires WellFormed(file) && Sorted(file)
    ensures Locate(file, target, true).At? ==>
      var p := Locate(file, target, true).pos;
      var e := FindEnd(file, target);
      && p < e
      && Extract(file, target) == file[p..e]
      && forall s :: IsLineStart(file, s) ==> (p <= s < e <==> Key(file, s) == target)
    ensures Locate(file, target, true).Exhausted? ==>
      Extract(file, target) == [] && NoneWithKey(file, target)
  {
    StartCorrect(file, target);
    EndCorrect(file, target);
    var r := Locate(file, target, true);
    if r.At? {
      var e := FindEnd(file, target);
      LtIrreflexive(target);
      forall s | IsLineStart(file, s) ensures (r.pos <= s < e <==> Key(file, s) == target) {
        BetweenBoundaries(file, target, r.pos, e, s);
      }
    }
  }

  /** Between the first line with the target's key and the boundary after
      its date lie exactly the lines with that key. */
  lemma BetweenBoundaries(file: seq<Byte>, target: seq<Byte>, p: nat, e: nat, s: nat)
    requires Sorted(file) && FirstWithKey(file, target, p) && EndBoundary(file, target, e)
    requires IsLineStart(file, s)
    ensures p <= s < e <==> Key(file, s) == target
  {
    var k := Key(file, s);
    LtIrreflexive(target);
    LtTrichotomy(k, target);
    if p < s < e {
      LeIsLtOrEq(target, k);
    }
  }
}

/** find_line_position as written: the binary search from the initial
    window, then the linear scan from where it left `low`, then the
    sentinel of line 130. */
module Locate {
  import opened Bytes
  import opened Dates
  import opened Stdio
  import opened Search
  import opened Scan

  /** The value find_line_position returns; or the binary search never
      ends because the backward walk is stuck; or it had not ended within
      the fuel given. */
  datatype Outcome = Returns(offset: U64) | Loops | Unfinished

  /** Lines 60-130 with at most `fuel` binary-search iterations, on a file
      system that can seek to the offsets below `seekEnd`. Whenever it
      returns an offset other than the sentinels, that offset starts ten
      bytes equal to the target (start mode) or above it (end mode): as
      written, the locator can miss a boundary or never return, but it
      never returns an offset whose ten bytes do not match. The offset need
      not be a line start: a 255-byte chunk can begin inside a long line. */
  function FindLinePosition(file: seq<Byte>, seekEnd: nat, target: seq<Byte>, findStart: bool, fuel: nat): (r: Outcome)
    requires Seekable(file, seekEnd)
    ensures Sound(file, target, findStart, r)
  {
    AfterSearch(file, target, findStart, Run(file, seekEnd, target, findStart, Initial(file), fuel))
  }

  /** An answer that is a sentinel or the offset of ten bytes that equal
      the target (start mode) or exceed it (end mode). */
  predicate Sound(file: seq<Byte>, target: seq<Byte>, findStart: bool, r: Outcome) {
    r.Returns? ==>
      if findStart then
        r.offset == Uint64Max ||
        (r.offset + KeyWidth <= |file| && file[r.offset..r.offset + KeyWidth] == target)
      else
        r.offset == |file| ||
        (r.offset + KeyWidth <= |file| && Lt(target, file[r.offset..r.offset + KeyWidth]))
  }

  /** Lines 106-130, once the binary search has ended as `run` says: the
      linear scan from `low`, then UINT64_MAX (start mode) or the file size
      (end mode) when it finds nothing. */
  function AfterSearch(file: seq<Byte>, target: seq<Byte>, findStart: bool, run: RunEnd): (r: Outcome)
    requires ValidFile(file)
    requires run.Exited? ==> run.low <= |file|
    ensures Sound(file, target, findStart, r)
    ensures r.Returns? <==> run.Exited?
  {
    match run
    case Diverged => Loops
    case OutOfFuel => Unfinished
    case Exited(low) =>
      match LinearScan(file, target, findStart, low)
      case At(p) => AcceptedKeyInFile(file, target, findStart, p); Returns(p)
      case Exhausted => Returns(if findStart then Uint64Max else |file|)
  }

  /** A chunk whose key the scan accepts begins with that key. */
  lemma AcceptedKeyInFile(file: seq<Byte>, target: seq<Byte>, findStart: bool, p: nat)
    requires p < |file|
    requires Accepts(DateFromLine(Fgets(file, p).value.text), target, findStart)
    ensures p + KeyWidth <= |file|
    ensures findStart ==> file[p..p + KeyWidth] == target
    ensures !findStart ==> Lt(target, file[p..p + KeyWidth])
  {
    var c := Fgets(file, p).value;
    assert c.text[..KeyWidth] == file[p..p + KeyWidth];
  }

  /** A search that leaves `low` at the end of the file reports the
      sentinel: the scan from there reads nothing. */
  lemma ExitAtEndIsSentinel(file: seq<Byte>, seekEnd: nat, target: seq<Byte>, findStart: bool, fuel: nat)
    requires Seekable(file, seekEnd)
    requires Run(file, seekEnd, target, findStart, Initial(file), fuel) == Exited(|file|)
    ensures FindLinePosition(file, seekEnd, target, findStart, fuel) == Returns(if findStart then Uint64Max else |file|)
  {
    ScanPastEnd(file, target, findStart);
  }

  /** When the first iteration leads to a state that leads back to itself,
      the locator never returns. */
  lemma RepeatsAfterFirstStep(file: seq<Byte>, seekEnd: nat, target: seq<Byte>, findStart: bool, t: State, fuel: nat)
    requires Seekable(file, seekEnd)
    requires Step(file, seekEnd, target, findStart, Initial(file)) == Next(t)
    requires Inv(file, t) && t.low <= t.high && Step(file, seekEnd, target, findStart, t) == Next(t)
    ensures FindLinePosition(file, seekEnd, target, findStart, fuel) == Unfinished
  {
    if fuel > 0 {
      FixedPointNeverExits(file, seekEnd, target, findStart, t, fuel - 1);
    }
  }
}

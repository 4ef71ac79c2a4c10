/** The binary-search loop of find_line_position (lines 60-104) as written:
    one function for one iteration, and the loop driven by fuel because, as
    coded, it need not terminate. */
module Search {
  import opened Bytes
  import opened Dates
  import opened Stdio
  import opened Realignment

  /** The loop's variables: the window `[low, high]` and where the file
      cursor was left, which matters when a seek fails. */
  datatype State = State(low: U64, high: U64, cursor: nat)

  /** An iteration either continues with a new state, leaves the loop
      through the `break` of a failed fgets, or never finishes because the
      backward walk inside it is stuck. */
  datatype StepEnd = Next(next: State) | Break | Hang

  /** How the loop ends: it left with `low`, the walk inside an iteration
      never ended, or the fuel ran out before either happened. */
  datatype RunEnd = Exited(low: U64) | Diverged | OutOfFuel

  /** Line 60: `low = 0`, `high = file_size - 1` on uint64_t. The window
      is never empty, so the loop runs at least once: on an empty file
      `high` wraps to UINT64_MAX, and the window then reaches past the end
      of the file. */
  function Initial(file: seq<Byte>): (s: State)
    requires ValidFile(file)
    ensures Inv(file, s) && s.low <= s.high
    ensures s.high < |file| <==> |file| > 0
  {
    State(0, Dec64(|file|), 0)
  }

  /** Line 63: the midpoint of the window, computed without overflow. */
  function Mid(low: U64, high: U64): (mid: U64)
    requires low <= high
    ensures low <= mid <= high
    ensures mid - low <= high - mid <= mid - low + 1
  {
    low + (high - low) / 2
  }

  /** The comparison of lines 92 and 98 that moves `low`: `key < target`
      when looking for the start, `key <= target` when looking for the
      end. */
  predicate Before(key: seq<Byte>, target: seq<Byte>, findStart: bool) {
    if findStart then Lt(key, target) else Le(key, target)
  }

  /** The loop state the code keeps: `low` and the cursor never pass the
      end of the file. */
  predicate Inv(file: seq<Byte>, s: State) {
    s.low <= |file| && s.cursor <= |file|
  }

  /** Lines 63-103, one iteration with `low <= high`: realign the midpoint,
      read a chunk, and move a bound by the chunk's key. A chunk without a
      key leaves the window as it was (line 88). Otherwise `low` goes to
      just past the chunk exactly when the key sorts before the target;
      else `high` becomes `line_start - 1`, wrapping to UINT64_MAX when
      the chunk was read from offset 0. */
  function Step(file: seq<Byte>, seekEnd: nat, target: seq<Byte>, findStart: bool, s: State): (r: StepEnd)
    requires Seekable(file, seekEnd) && Inv(file, s) && s.low <= s.high
    ensures r.Next? ==> Inv(file, r.next)
    ensures r.Hang? <==> Realign(file, seekEnd, Mid(s.low, s.high), s.cursor).Hangs?
    ensures r.Break? <==> (
      var a := Realign(file, seekEnd, Mid(s.low, s.high), s.cursor);
      a.LineStart? && a.pos >= |file|)
    ensures r.Next? ==>
      var ls := Realign(file, seekEnd, Mid(s.low, s.high), s.cursor).pos;
      var c := Fgets(file, ls).value;
      var key := DateFromLine(c.text);
      && ls < |file|
      && r.next.cursor == c.next > ls
      && (key == [] ==> r.next.low == s.low && r.next.high == s.high)
      && (key != [] && Before(key, target, findStart) ==>
            r.next.low == c.next && r.next.high == s.high)
      && (key != [] && !Before(key, target, findStart) ==>
            r.next.low == s.low && r.next.high == Dec64(ls))
  {
    match Realign(file, seekEnd, Mid(s.low, s.high), s.cursor)
    case Hangs => Hang
    case LineStart(ls) =>
      match Fgets(file, ls)
      case None => Break
      case Some(c) =>
        var key := DateFromLine(c.text);
        if key == [] then Next(State(s.low, s.high, c.next))
        else if Before(key, target, findStart) then Next(State(c.next, s.high, c.next))
        else Next(State(s.low, Dec64(ls), c.next))
  }

  /** The while loop of lines 62-104 with at most `fuel` iterations. */
  function Run(file: seq<Byte>, seekEnd: nat, target: seq<Byte>, findStart: bool, s: State, fuel: nat): (r: RunEnd)
    requires Seekable(file, seekEnd) && Inv(file, s)
    ensures r.Exited? ==> r.low <= |file|
    decreases fuel
  {
    if s.low > s.high then Exited(s.low)
    else if fuel == 0 then OutOfFuel
    else
      match Step(file, seekEnd, target, findStart, s)
      case Break => Exited(s.low)
      case Hang => Diverged
      case Next(t) => Run(file, seekEnd, target, findStart, t, fuel - 1)
  }

  /** An iteration that leads back to its own state repeats forever: the
      loop never exits, whatever the fuel. */
  lemma {:induction false} FixedPointNeverExits(file: seq<Byte>, seekEnd: nat, target: seq<Byte>, findStart: bool, s: State, fuel: nat)
    requires Seekable(file, seekEnd) && Inv(file, s) && s.low <= s.high
    requires Step(file, seekEnd, target, findStart, s) == Next(s)
    ensures Run(file, seekEnd, target, findStart, s, fuel) == OutOfFuel
    decreases fuel
  {
    if fuel > 0 {
      FixedPointNeverExits(file, seekEnd, target, findStart, s, fuel - 1);
    }
  }

  /** Line 88: a chunk without a key leaves `low` and `high` as they were, so
      the next iteration computes the same midpoint; when the seek to it
      succeeds, that iteration repeats this one exactly, and the loop never
      exits. A failed read, in contrast, leaves the loop. */
  lemma EmptyKeyStalls(file: seq<Byte>, seekEnd: nat, target: seq<Byte>, findStart: bool, s: State, fuel: nat)
    requires Seekable(file, seekEnd) && Inv(file, s) && s.low <= s.high
    requires Mid(s.low, s.high) < seekEnd
    requires var a := Realign(file, seekEnd, Mid(s.low, s.high), s.cursor);
      && a.LineStart? && a.pos < |file|
      && DateFromLine(Fgets(file, a.pos).value.text) == []
    ensures var t := Step(file, seekEnd, target, findStart, s).next;
      && Step(file, seekEnd, target, findStart, t) == Next(t)
      && Run(file, seekEnd, target, findStart, t, fuel) == OutOfFuel
      && Run(file, seekEnd, target, findStart, s, fuel + 1) == OutOfFuel
  {
    var t := Step(file, seekEnd, target, findStart, s).next;
    var mid := Mid(s.low, s.high);
    assert Realign(file, seekEnd, mid, t.cursor) == Realign(file, seekEnd, mid, s.cursor);
    FixedPointNeverExits(file, seekEnd, target, findStart, t, fuel);
  }

  /** An iteration that empties the window ends the loop with its `low`. */
  lemma RunLeaves(file: seq<Byte>, seekEnd: nat, target: seq<Byte>, findStart: bool, s: State, t: State, fuel: nat)
    requires Seekable(file, seekEnd) && Inv(file, s) && s.low <= s.high && fuel > 0
    requires Step(file, seekEnd, target, findStart, s) == Next(t) && t.low > t.high
    ensures Run(file, seekEnd, target, findStart, s, fuel) == Exited(t.low)
  {
  }
}

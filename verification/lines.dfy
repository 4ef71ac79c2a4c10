/** The line structure of a log file, as the locator is meant to see it:
    where lines start and end, each line's date key, and what it means for
    the log to be well formed and sorted. */
module Lines {
  import opened Bytes
  import opened Dates

  /** Offset `s` begins a line: the first byte of the file, or a byte right
      after a newline (the end of the file begins no line). */
  predicate IsLineStart(file: seq<Byte>, s: int) {
    0 <= s < |file| && (s == 0 || file[s - 1] == NL)
  }

  /** The offset just past the line that begins at `s`: past its newline,
      or the end of the file for a last line without one. */
  function LineEnd(file: seq<Byte>, s: nat): (e: nat)
    requires s < |file|
    ensures s < e <= |file|
    ensures forall j :: s <= j < e - 1 ==> file[j] != NL
    ensures e == |file| || file[e - 1] == NL
    decreases |file| - s
  {
    if file[s] == NL then s + 1
    else if s + 1 == |file| then |file|
    else LineEnd(file, s + 1)
  }

  /** The start of the line that holds byte `mid`: what realignment is
      meant to compute. It looks back from `mid - 1` and includes byte 0. */
  function LineStartOf(file: seq<Byte>, mid: nat): (s: nat)
    requires mid < |file|
    ensures IsLineStart(file, s) && s <= mid
    ensures forall j :: s <= j < mid ==> file[j] != NL
  {
    if mid == 0 || file[mid - 1] == NL then mid else LineStartOf(file, mid - 1)
  }

  /** The bytes of the line that begins at `s`, newline included. */
  function LineAt(file: seq<Byte>, s: nat): seq<Byte>
    requires s < |file|
  {
    file[s..LineEnd(file, s)]
  }

  /** The date key of the line that begins at `s`. */
  function Key(file: seq<Byte>, s: nat): seq<Byte>
    requires s < |file|
  {
    DateFromLine(LineAt(file, s))
  }

  /** Every line carries a date key (ten bytes, none of them NUL). */
  ghost predicate WellFormed(file: seq<Byte>) {
    forall s :: IsLineStart(file, s) ==> Key(file, s) != []
  }

  /** Lines are in non-decreasing order of their keys. */
  ghost predicate Sorted(file: seq<Byte>) {
    forall s, t :: IsLineStart(file, s) && IsLineStart(file, t) && s < t ==>
      Le(Key(file, s), Key(file, t))
  }

  /** No line begins strictly inside another: the next line start after
      `s` is its end. */
  lemma NoLineStartInside(file: seq<Byte>, s: nat, t: int)
    requires s < |file| && s < t < LineEnd(file, s)
    ensures !IsLineStart(file, t)
  {
  }

  /** The end of a line is the start of the next one, or the end of the
      file. */
  lemma LineEndStartsLine(file: seq<Byte>, s: nat)
    requires s < |file|
    ensures LineEnd(file, s) == |file| || IsLineStart(file, LineEnd(file, s))
  {
  }

  /** The line found for `mid` is the last one that starts at or before it,
      and it runs past `mid`. */
  lemma LineStartOfContains(file: seq<Byte>, mid: nat)
    requires mid < |file|
    ensures forall t :: IsLineStart(file, t) && t <= mid ==> t <= LineStartOf(file, mid)
    ensures mid < LineEnd(file, LineStartOf(file, mid))
  {
  }

  /** A line's end is determined by its bytes: the first newline after its
      start, or the end of the file. */
  lemma LineEndIs(file: seq<Byte>, s: nat, e: nat)
    requires s < e <= |file|
    requires forall j :: s <= j < e - 1 ==> file[j] != NL
    requires e == |file| || file[e - 1] == NL
    ensures LineEnd(file, s) == e
  {
  }

  /** The start of the line holding `mid` is determined by its bytes: the
      line start at or below `mid` with no newline in between. */
  lemma LineStartOfIs(file: seq<Byte>, mid: nat, s: nat)
    requires mid < |file| && IsLineStart(file, s) && s <= mid
    requires forall j :: s <= j < mid ==> file[j] != NL
    ensures LineStartOf(file, mid) == s
  {
  }

  /** A log laid out as `pre`, then a line `body` and its newline, then
      `post`, where `pre` is empty or ends a line: the line starts right
      after `pre`, ends after its newline, and holds every offset of its
      bytes. */
  lemma LineOfParts(file: seq<Byte>, pre: seq<Byte>, body: seq<Byte>, post: seq<Byte>)
    requires file == pre + body + [NL] + post
    requires pre == [] || pre[|pre| - 1] == NL
    requires forall i :: 0 <= i < |body| ==> body[i] != NL
    ensures IsLineStart(file, |pre|)
    ensures LineEnd(file, |pre|) == |pre| + |body| + 1
    ensures LineAt(file, |pre|) == body + [NL]
    ensures forall mid :: |pre| <= mid <= |pre| + |body| ==> LineStartOf(file, mid) == |pre|
  {
    var s := |pre|;
    assert forall i :: 0 <= i < |body| ==> file[s + i] == body[i];
    assert file[s + |body|] == NL;
    LineEndIs(file, s, s + |body| + 1);
    assert file[s..s + |body| + 1] == body + [NL];
    forall mid | s <= mid <= s + |body| ensures LineStartOf(file, mid) == s {
      LineStartOfIs(file, mid, s);
    }
  }
}

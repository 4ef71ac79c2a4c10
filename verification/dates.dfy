/** The two pure helpers of the locator: the shape check on the requested
    date and the extraction of the 10-byte date key from a line buffer. */
module Dates {
  import opened Bytes

  /** Width of the `YYYY-MM-DD` date key. */
  const KeyWidth: nat := 10

  /** isdigit in the C locale. */
  predicate IsDigit(c: Byte) {
    '0' <= c <= '9'
  }

  /** The `YYYY-MM-DD` shape, position by position: ten bytes, a dash at
      indices 4 and 7, a decimal digit everywhere else. Nothing is checked
      about the values, so month 13 has the shape. */
  predicate DateShape(s: seq<Byte>) {
    && |s| == 10
    && IsDigit(s[0]) && IsDigit(s[1]) && IsDigit(s[2]) && IsDigit(s[3])
    && s[4] == '-'
    && IsDigit(s[5]) && IsDigit(s[6])
    && s[7] == '-'
    && IsDigit(s[8]) && IsDigit(s[9])
  }

  /** What the loop of validate_date demands of the byte at index `i`. */
  predicate PositionOk(s: seq<Byte>, i: nat)
    requires i < |s|
  {
    if i == 4 || i == 7 then s[i] == '-' else IsDigit(s[i])
  }

  /** The loop of validate_date from index `i` on: it stops with false at
      the first position that fails its test. */
  function ValidFrom(s: seq<Byte>, i: nat): (ok: bool)
    requires |s| == 10 && i <= 10
    ensures ok <==> forall j :: i <= j < 10 ==> PositionOk(s, j)
    decreases 10 - i
  {
    if i == 10 then true
    else if i == 4 || i == 7 then
      if s[i] != '-' then assert !PositionOk(s, i); false else ValidFrom(s, i + 1)
    else if !IsDigit(s[i]) then assert !PositionOk(s, i); false
    else ValidFrom(s, i + 1)
  }

  /** validate_date: the length test, then the per-position loop. */
  function ValidateDate(s: seq<Byte>): (ok: bool)
    ensures ok <==> DateShape(s)
  {
    if |s| != 10 then false
    else
      var ok := ValidFrom(s, 0);
      assert ok ==> (
        && PositionOk(s, 0) && PositionOk(s, 1) && PositionOk(s, 2)
        && PositionOk(s, 3) && PositionOk(s, 4) && PositionOk(s, 5)
        && PositionOk(s, 6) && PositionOk(s, 7) && PositionOk(s, 8)
        && PositionOk(s, 9));
      ok
  }

  /** The check is on shape only: a month of 13 passes, while a one-digit
      month, a missing dash and the empty string do not. */
  lemma ValidateDateExamples()
    ensures ValidateDate("2024-13-01")
    ensures ValidateDate("2024-01-05")
    ensures !ValidateDate("2024-1-05")
    ensures !ValidateDate("2024-01-5")
    ensures !ValidateDate("20240105")
    ensures !ValidateDate("")
  {
  }

  /** get_date_from_line: the empty string when strlen of the buffer is
      below ten, otherwise the buffer's first ten bytes. */
  function DateFromLine(line: seq<Byte>): (key: seq<Byte>)
    ensures key == [] <==> (|line| < KeyWidth || exists i :: 0 <= i < KeyWidth && line[i] == NUL)
    ensures key != [] ==> |key| == KeyWidth && key == line[..KeyWidth]
    ensures forall i :: 0 <= i < |key| ==> key[i] != NUL
  {
    if StrLen(line) < KeyWidth then [] else line[..KeyWidth]
  }

  /** The key only looks at the first ten bytes: two buffers that agree
      there have the same key. */
  lemma DateFromLinePrefix(a: seq<Byte>, b: seq<Byte>)
    requires |a| >= KeyWidth && |b| >= KeyWidth && a[..KeyWidth] == b[..KeyWidth]
    ensures DateFromLine(a) == DateFromLine(b)
  {
    assert forall i :: 0 <= i < KeyWidth ==> a[i] == a[..KeyWidth][i] == b[..KeyWidth][i] == b[i];
  }

  /** A buffer that starts with ten bytes none of which is NUL is keyed by
      them. */
  lemma KeyOfPrefix(line: seq<Byte>, key: seq<Byte>, rest: seq<Byte>)
    requires line == key + rest && |key| == KeyWidth
    requires forall i :: 0 <= i < KeyWidth ==> key[i] != NUL
    ensures DateFromLine(line) == key
  {
    assert line[..KeyWidth] == key;
  }
}

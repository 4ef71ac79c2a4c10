/** The realignment at the top of each binary-search iteration: seek to
    `mid`, walk backwards one byte at a time looking for a newline, then
    seek one byte past the position ftello reports after reading it. */
module Realignment {
  import opened Bytes
  import opened Stdio

  /** How the backward walk ends: it read a newline at index `at` (the
      cursor is then at `at + 1`), it brought the cursor down to offset 0
      without reading one, or it repeats the same pass forever because the
      cursor is at offset 1, past the end of the file, and the two-byte
      seek back fails. */
  datatype BackScanEnd = Newline(at: nat) | NoNewline | Stuck

  /** The do/while loop with the cursor at `p`: fgetc reads the byte under
      the cursor and advances it (at or past the end of the file it returns
      EOF and leaves the cursor), a newline breaks out, otherwise the cursor
      moves back two bytes unless that would go below offset 0, and the loop
      goes on while the cursor is above 0. Inside the file the walk reads
      bytes `p`, `p - 1`, ..., `1` and never byte 0. */
  function BackScan(file: seq<Byte>, p: nat): (r: BackScanEnd)
    ensures 0 < p < |file| ==> !r.Stuck?
    ensures 0 < p < |file| && r.Newline? ==>
      && 1 <= r.at <= p && file[r.at] == NL
      && forall j :: r.at < j <= p ==> file[j] != NL
    ensures 0 < p < |file| && r.NoNewline? ==>
      forall j :: 1 <= j <= p ==> file[j] != NL
    decreases if p == 0 then 2 else p
  {
    if p < |file| && file[p] == NL then Newline(p)
    else
      var afterRead := if p < |file| then p + 1 else p;
      var afterSeek := if afterRead >= 2 then afterRead - 2 else afterRead;
      if afterSeek == 0 then NoNewline
      else if afterSeek == p then Stuck
      else BackScan(file, afterSeek)
  }

  /** Where realignment leaves the cursor, which the code then takes as
      `line_start`; or the loop of the backward walk never ends. */
  datatype Aligned = LineStart(pos: nat) | Hangs

  /** Lines 64-83: seek to `mid` (from the current `cursor`), and when `mid`
      is not 0 walk back; on a newline seek to ftello + 1, otherwise to 0. */
  function Realign(file: seq<Byte>, seekEnd: nat, mid: U64, cursor: nat): Aligned {
    var c := SeekSet(seekEnd, cursor, mid);
    if mid == 0 then LineStart(c)
    else
      match BackScan(file, c)
      case Stuck => Hangs
      case NoNewline => LineStart(0)
      case Newline(q) => LineStart(SeekSet(seekEnd, q + 1, q + 2))
  }

  /** Realignment of an offset inside the file: 0 when `mid` is 0 or no
      newline occurs among bytes `1..mid`; otherwise two past the last
      newline `q` in that range, which is one byte past the start `q + 1` of
      the line after it, and may lie beyond `mid`. Only when the last byte
      of the file is that newline and the file has the largest size the
      file system allows can `q + 2` be out of reach, and then the seek
      fails and leaves the cursor at `q + 1`. */
  lemma RealignInFile(file: seq<Byte>, seekEnd: nat, mid: U64, cursor: nat)
    requires Seekable(file, seekEnd) && mid < |file|
    ensures var r := Realign(file, seekEnd, mid, cursor);
      && r.LineStart?
      && (mid == 0 ==> r.pos == 0)
      && (mid > 0 && (forall j :: 1 <= j <= mid ==> file[j] != NL) ==> r.pos == 0)
      && (forall q :: 1 <= q <= mid && file[q] == NL && (forall j :: q < j <= mid ==> file[j] != NL) ==>
            r.pos == if q + 2 < seekEnd then q + 2 else q + 1)
  {
    var r := Realign(file, seekEnd, mid, cursor);
    if mid > 0 {
      var b := BackScan(file, mid);
      forall q | 1 <= q <= mid && file[q] == NL && (forall j :: q < j <= mid ==> file[j] != NL)
        ensures r.pos == if q + 2 < seekEnd then q + 2 else q + 1
      {
        assert b.Newline?;
      }
    }
  }

  /** Past the end of the file fgetc keeps returning EOF, so the walk goes
      down two bytes per pass. In a file of at least two bytes it lands on
      the offset of the same parity just below the end and walks on from
      there; in a file of at most one byte it ends at 0 from an even offset
      and is stuck at 1 from an odd one. */
  lemma BackScanPastEnd(file: seq<Byte>, p: nat)
    requires p >= |file|
    ensures |file| <= 1 ==> BackScan(file, p) == if p % 2 == 1 then Stuck else NoNewline
    ensures |file| >= 2 ==>
      var land := Landing(|file|, p);
      BackScan(file, p) == if land == 0 then NoNewline else BackScan(file, land)
  {
    if |file| <= 1 {
      BackScanTinyFile(file, p);
    } else {
      BackScanLands(file, p);
    }
  }

  /** The walk in a file of at most one byte. */
  lemma {:induction false} BackScanTinyFile(file: seq<Byte>, p: nat)
    requires |file| <= 1 && p >= |file|
    ensures BackScan(file, p) == if p % 2 == 1 then Stuck else NoNewline
    decreases p
  {
    BackScanAtEof(file, p);
    if p >= 3 {
      BackScanTinyFile(file, p - 2);
    }
  }

  /** The walk past the end of a file of at least two bytes. */
  lemma {:induction false} BackScanLands(file: seq<Byte>, p: nat)
    requires |file| >= 2 && p >= |file|
    ensures var land := Landing(|file|, p);
      BackScan(file, p) == if land == 0 then NoNewline else BackScan(file, land)
    decreases p
  {
    BackScanAtEof(file, p);
    if p >= |file| + 2 {
      LandingStep(|file|, p);
      BackScanLands(file, p - 2);
    }
  }

  /** The offset below the end of a file of `n >= 2` bytes where the walk
      from `p` lands: the one of the same parity as `p`. */
  function Landing(n: nat, p: nat): (land: nat)
    requires n >= 2 && p >= n
    ensures n - 2 <= land < n && (p - land) % 2 == 0
  {
    if (p - n) % 2 == 0 then n - 2 else n - 1
  }

  /** Two bytes further up, the walk lands at the same place. */
  lemma LandingStep(n: nat, p: nat)
    requires n >= 2 && p >= n + 2
    ensures Landing(n, p) == Landing(n, p - 2)
  {
  }

  /** One pass of the walk at or past the end of the file. */
  lemma BackScanAtEof(file: seq<Byte>, p: nat)
    requires p >= |file|
    ensures BackScan(file, p) ==
      if p == 1 then Stuck
      else if p == 0 || p == 2 then NoNewline
      else BackScan(file, p - 2)
  {
  }
}

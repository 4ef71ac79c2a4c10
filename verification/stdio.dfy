/** The C stdio calls the locator makes, on a file held as an immutable
    byte sequence and a cursor that is a plain offset into it. */
module Stdio {
  import opened Bytes

  /** `char line[256]`: fgets stores at most 255 bytes and a NUL. */
  const BufferSize: nat := 256
  const ReadCap: nat := BufferSize - 1

  /** A file whose size st_size (an off_t, so below 2^63) can report. */
  predicate ValidFile(file: seq<Byte>) {
    |file| < TwoTo63
  }

  /** The offsets fseeko can reach in an open file are those below
      `seekEnd`. The file system decides it: it lies above the size of any
      file it stores, and at most at 2^63, where a uint64_t converted to
      off_t turns negative. It is 2^63 where the file system accepts every
      off_t offset, and lower where its maximum file size is smaller (on
      ext4, 16 TiB). */
  predicate Seekable(file: seq<Byte>, seekEnd: nat) {
    |file| < seekEnd <= TwoTo63
  }

  /** fseeko(file, v, SEEK_SET) with a uint64_t `v`: it moves the cursor to
      `v` when the file system can reach that offset, and otherwise fails
      and leaves the cursor where it was. */
  function SeekSet(seekEnd: nat, cursor: nat, v: nat): nat {
    if v < seekEnd then v else cursor
  }

  /** How many bytes fgets with room for `cap` bytes consumes from `s`:
      up to and including the first newline, at most `cap`, and no further
      than the end of the file. */
  function ReadLen(s: seq<Byte>, cap: nat): (n: nat)
    ensures n <= |s| && n <= cap
    ensures |s| > 0 && cap > 0 ==> n > 0
    ensures forall i :: 0 <= i < n - 1 ==> s[i] != NL
    ensures n == |s| || n == cap || (n > 0 && s[n - 1] == NL)
  {
    if |s| == 0 || cap == 0 then 0
    else if s[0] == NL then 1
    else 1 + ReadLen(s[1..], cap - 1)
  }

  /** The bytes one fgets call stored, where it started and where it left
      the cursor. */
  datatype Chunk = Chunk(start: nat, text: seq<Byte>, next: nat)

  /** fgets(line, 256, file) with the cursor at `pos`: fails at or past the
      end of the file, otherwise takes bytes up to and including the first
      newline, at most 255 of them, or to the end of the file. */
  function Fgets(file: seq<Byte>, pos: nat): (r: Option<Chunk>)
    ensures r.None? <==> pos >= |file|
    ensures r.Some? ==> var c := r.value;
      && c.start == pos < c.next <= |file|
      && c.next - pos <= ReadCap
      && c.text == file[pos..c.next]
      && (forall i :: pos <= i < c.next - 1 ==> file[i] != NL)
      && (c.next == |file| || c.next - pos == ReadCap || file[c.next - 1] == NL)
  {
    if pos >= |file| then None
    else
      var n := ReadLen(file[pos..], ReadCap);
      assert forall i :: pos <= i < pos + n - 1 ==> file[i] == file[pos..][i - pos];
      Some(Chunk(pos, file[pos..pos + n], pos + n))
  }

  /** What fgets returns is determined by the bytes: the chunk from `pos`
      through the first newline, cut at 255 bytes or the end of the file. */
  lemma FgetsIs(file: seq<Byte>, pos: nat, e: nat)
    requires pos < e <= |file| && e - pos <= ReadCap
    requires forall j :: pos <= j < e - 1 ==> file[j] != NL
    requires e == |file| || e - pos == ReadCap || file[e - 1] == NL
    ensures Fgets(file, pos) == Some(Chunk(pos, file[pos..e], e))
  {
  }

  /** fgets at the start of a short line `body` and its newline, laid out
      after `pre`, returns that line. */
  lemma FgetsOfParts(file: seq<Byte>, pre: seq<Byte>, body: seq<Byte>, post: seq<Byte>)
    requires file == pre + body + [NL] + post && |body| < ReadCap
    requires forall i :: 0 <= i < |body| ==> body[i] != NL
    ensures Fgets(file, |pre|) == Some(Chunk(|pre|, body + [NL], |pre| + |body| + 1))
  {
    var s := |pre|;
    assert forall i :: 0 <= i < |body| ==> file[s + i] == body[i];
    assert file[s + |body|] == NL;
    FgetsIs(file, s, s + |body| + 1);
    assert file[s..s + |body| + 1] == body + [NL];
  }

  datatype Option<T> = None | Some(value: T)
}

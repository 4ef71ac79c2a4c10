/** The linear correction scan of find_line_position (lines 106-127) as
    written: fgets over and over from `low`, skipping chunks without a key,
    until a chunk settles the answer or the reads fail. */
module Scan {
  import opened Bytes
  import opened Dates
  import opened Stdio

  /** The scan returns the offset of a chunk, or runs off the end of the
      file (or, in start mode, meets a later date first). */
  datatype ScanEnd = At(pos: nat) | Exhausted

  /** `c` is exactly what fgets returns when called at its start. */
  predicate ReadAt(file: seq<Byte>, c: Chunk) {
    Fgets(file, c.start) == Some(c)
  }

  /** The chunks that repeated fgets calls return from `pos` on, up to the
      first failing call: they tile `file[pos..]` in order. */
  function Chunks(file: seq<Byte>, pos: nat): (cs: seq<Chunk>)
    requires pos <= |file|
    ensures forall k :: 0 <= k < |cs| ==> pos <= cs[k].start < cs[k].next <= |file|
    ensures |cs| == 0 <==> pos == |file|
    ensures |cs| > 0 ==> cs[0].start == pos && cs[|cs| - 1].next == |file|
    ensures forall k :: 0 <= k < |cs| - 1 ==> cs[k + 1].start == cs[k].next
    ensures forall c :: c in cs ==> ReadAt(file, c)
    decreases |file| - pos
  {
    if pos == |file| then []
    else
      var c := Fgets(file, pos).value;
      [c] + Chunks(file, c.next)
  }

  /** The key of the chunk at index `k`. */
  function KeyAt(cs: seq<Chunk>, k: nat): seq<Byte>
    requires k < |cs|
  {
    DateFromLine(cs[k].text)
  }

  /** A key that lets the scan read on: none at all, one below the target
      (start mode), or one not above it (end mode). */
  predicate GoesOn(key: seq<Byte>, target: seq<Byte>, findStart: bool) {
    key == [] || (if findStart then Lt(key, target) else !Lt(target, key))
  }

  /** A key the scan returns the offset of: equal to the target (start
      mode) or above it (end mode). */
  predicate Accepts(key: seq<Byte>, target: seq<Byte>, findStart: bool) {
    key != [] && (if findStart then key == target else Lt(target, key))
  }

  /** The chunk at index `k` is where the scan stops with an answer: its key
      is accepted, and every earlier chunk let the scan read on. */
  predicate StopsAt(cs: seq<Chunk>, k: nat, target: seq<Byte>, findStart: bool)
    requires k < |cs|
  {
    && Accepts(KeyAt(cs, k), target, findStart)
    && forall j :: 0 <= j < k ==> GoesOn(KeyAt(cs, j), target, findStart)
  }

  /** `r` is the answer the chunk sequence `cs` calls for: the offset of a
      chunk where the scan stops, or nothing when no chunk is such a
      place. */
  predicate Describes(r: ScanEnd, cs: seq<Chunk>, target: seq<Byte>, findStart: bool) {
    && (r.At? ==> exists k :: 0 <= k < |cs| && cs[k].start == r.pos && StopsAt(cs, k, target, findStart))
    && (r.Exhausted? ==> forall k :: 0 <= k < |cs| ==> !StopsAt(cs, k, target, findStart))
  }

  /** Lines 106-127 from `pos`: a failed fgets ends the scan; a chunk
      without a key is skipped (line 114). In start mode a key equal to the
      target gives that chunk's offset and a greater key ends the scan; in
      end mode the first greater key gives its offset. */
  function LinearScan(file: seq<Byte>, target: seq<Byte>, findStart: bool, pos: nat): (r: ScanEnd)
    requires pos <= |file|
    ensures r.At? ==> pos <= r.pos < |file|
    ensures r.At? ==> Accepts(DateFromLine(Fgets(file, r.pos).value.text), target, findStart)
    decreases |file| - pos
  {
    match Fgets(file, pos)
    case None => Exhausted
    case Some(c) =>
      var key := DateFromLine(c.text);
      if key == [] then LinearScan(file, target, findStart, c.next)
      else if findStart then
        if key == target then At(pos)
        else if Lt(target, key) then Exhausted
        else LinearScan(file, target, findStart, c.next)
      else if Lt(target, key) then At(pos)
      else LinearScan(file, target, findStart, c.next)
  }

  /** One chunk of the scan: it reads on past a key that lets it, returns
      the offset of an accepted key, and otherwise stops empty-handed. */
  lemma LinearScanStep(file: seq<Byte>, target: seq<Byte>, findStart: bool, pos: nat)
    requires pos < |file|
    ensures var c := Fgets(file, pos).value;
      var key := DateFromLine(c.text);
      LinearScan(file, target, findStart, pos) ==
        if GoesOn(key, target, findStart) then LinearScan(file, target, findStart, c.next)
        else if Accepts(key, target, findStart) then At(pos)
        else Exhausted
  {
    var key := DateFromLine(Fgets(file, pos).value.text);
    if findStart && key != [] { LtTrichotomy(key, target); }
  }

  /** What the scan computes, in terms of the chunk sequence: it returns the
      offset of the chunk where it stops with an answer, and it reports
      nothing exactly when no chunk is such a place. */
  lemma {:induction false} LinearScanMeaning(file: seq<Byte>, target: seq<Byte>, findStart: bool, pos: nat)
    requires pos <= |file|
    ensures Describes(LinearScan(file, target, findStart, pos), Chunks(file, pos), target, findStart)
    decreases |file| - pos
  {
    if pos < |file| {
      var c := Fgets(file, pos).value;
      var key := DateFromLine(c.text);
      LinearScanStep(file, target, findStart, pos);
      if GoesOn(key, target, findStart) {
        LinearScanMeaning(file, target, findStart, c.next);
        ReadOnMeaning(file, target, findStart, pos);
      } else {
        StopMeaning(file, target, findStart, pos);
      }
    }
  }

  /** The scan reads past the first chunk: its answer is that of the scan
      from the next chunk, with every index one further on. */
  lemma ReadOnMeaning(file: seq<Byte>, target: seq<Byte>, findStart: bool, pos: nat)
    requires pos < |file|
    requires var c := Fgets(file, pos).value;
      && GoesOn(DateFromLine(c.text), target, findStart)
      && Describes(LinearScan(file, target, findStart, c.next), Chunks(file, c.next), target, findStart)
    requires LinearScan(file, target, findStart, pos) == LinearScan(file, target, findStart, Fgets(file, pos).value.next)
    ensures Describes(LinearScan(file, target, findStart, pos), Chunks(file, pos), target, findStart)
  {
    var c := Fgets(file, pos).value;
    var r := LinearScan(file, target, findStart, pos);
    var cs := Chunks(file, pos);
    var rest := Chunks(file, c.next);
    assert cs == [c] + rest;
    StopsAtShift(cs, rest, c, target, findStart);
    AcceptsExcludesGoesOn(DateFromLine(c.text), target, findStart);
    assert KeyAt(cs, 0) == DateFromLine(c.text);
    assert !StopsAt(cs, 0, target, findStart);
    if r.At? {
      var k :| 0 <= k < |rest| && rest[k].start == r.pos && StopsAt(rest, k, target, findStart);
      assert cs[k + 1] == rest[k];
    } else {
      forall k | 0 <= k < |cs| ensures !StopsAt(cs, k, target, findStart) {
        if k > 0 { assert !StopsAt(rest, k - 1, target, findStart); }
      }
    }
  }

  /** The scan stops at the first chunk: with its offset when the key is
      accepted, and then no chunk at all is a stopping place when it is
      not. */
  lemma StopMeaning(file: seq<Byte>, target: seq<Byte>, findStart: bool, pos: nat)
    requires pos < |file|
    requires var c := Fgets(file, pos).value;
      var key := DateFromLine(c.text);
      && !GoesOn(key, target, findStart)
      && LinearScan(file, target, findStart, pos) == if Accepts(key, target, findStart) then At(pos) else Exhausted
    ensures Describes(LinearScan(file, target, findStart, pos), Chunks(file, pos), target, findStart)
  {
    var c := Fgets(file, pos).value;
    var cs := Chunks(file, pos);
    assert cs[0] == c;
    assert KeyAt(cs, 0) == DateFromLine(c.text);
    if Accepts(DateFromLine(c.text), target, findStart) {
      assert cs[0].start == pos;
      assert StopsAt(cs, 0, target, findStart);
    } else {
      forall k | 0 <= k < |cs| ensures !StopsAt(cs, k, target, findStart) {
        if k > 0 { assert !GoesOn(KeyAt(cs, 0), target, findStart); }
      }
    }
  }

  /** No key both lets the scan read on and is accepted. */
  lemma AcceptsExcludesGoesOn(key: seq<Byte>, target: seq<Byte>, findStart: bool)
    ensures !(Accepts(key, target, findStart) && GoesOn(key, target, findStart))
  {
    if key != [] { LtTrichotomy(key, target); }
  }

  /** Behind a first chunk that lets the scan read on, the stopping places of
      the whole sequence are those of the rest, one index later. */
  lemma StopsAtShift(cs: seq<Chunk>, rest: seq<Chunk>, c: Chunk, target: seq<Byte>, findStart: bool)
    requires cs == [c] + rest
    requires GoesOn(DateFromLine(c.text), target, findStart)
    ensures forall k :: 0 <= k < |rest| ==> (StopsAt(cs, k + 1, target, findStart) <==> StopsAt(rest, k, target, findStart))
  {
    forall k | 0 <= k < |rest|
      ensures StopsAt(cs, k + 1, target, findStart) <==> StopsAt(rest, k, target, findStart)
    {
      assert KeyAt(cs, k + 1) == KeyAt(rest, k);
      assert forall j :: 0 <= j < k ==> KeyAt(cs, j + 1) == KeyAt(rest, j);
      if StopsAt(rest, k, target, findStart) {
        forall j | 0 <= j < k + 1
          ensures GoesOn(KeyAt(cs, j), target, findStart)
        {
          if j > 0 { assert KeyAt(cs, j) == KeyAt(rest, j - 1); }
        }
      }
    }
  }

  /** From the end of the file the scan reads nothing. */
  lemma ScanPastEnd(file: seq<Byte>, target: seq<Byte>, findStart: bool)
    ensures LinearScan(file, target, findStart, |file|) == Exhausted
  {
  }
}

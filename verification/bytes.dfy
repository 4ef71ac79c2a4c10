/** Bytes of the log file, the unsigned 64-bit integers the locator computes
    with, and the ordering std::string uses to compare date keys. */
module Bytes {

  /** One byte of the file as C++ reads it through fgetc/fgets. A character
      whose code is below 256 stands for the byte with that value, so log
      text can be written as string literals; comparing two of them compares
      them as unsigned char, which is what std::string comparison does. */
  type Byte = c: char | c as int < 256 witness '\0'

  const NL: Byte := '\n'
  const NUL: Byte := '\0'

  const TwoTo63: nat := 0x8000_0000_0000_0000
  const TwoTo64: nat := 0x1_0000_0000_0000_0000
  const Uint64Max: nat := TwoTo64 - 1

  /** uint64_t */
  type U64 = x: nat | x < TwoTo64

  /** `x - 1` evaluated on uint64_t: it wraps to UINT64_MAX at zero. */
  function Dec64(x: U64): U64 {
    if x == 0 then Uint64Max else x - 1
  }

  /** strlen: the number of bytes before the first NUL, or the whole
      buffer when it holds none. */
  function StrLen(s: seq<Byte>): (n: nat)
    ensures n <= |s|
    ensures forall i :: 0 <= i < n ==> s[i] != NUL
    ensures n < |s| ==> s[n] == NUL
  {
    if |s| == 0 || s[0] == NUL then 0 else 1 + StrLen(s[1..])
  }

  /** std::string `a < b`: byte-wise comparison of the common prefix, and
      on a tie the shorter string is the smaller. */
  function Lt(a: seq<Byte>, b: seq<Byte>): bool {
    if |a| == 0 then |b| > 0
    else if |b| == 0 then false
    else if a[0] != b[0] then a[0] < b[0]
    else Lt(a[1..], b[1..])
  }

  /** std::string `a <= b`, which the library defines as `!(b < a)`. */
  predicate Le(a: seq<Byte>, b: seq<Byte>) {
    !Lt(b, a)
  }

  /** `k` witnesses that `a` comes strictly before `b` in dictionary order:
      the two agree before `k`, and at `k` either `a` has ended while `b` has
      not, or both go on and `a` holds the smaller byte. */
  predicate LexBefore(a: seq<Byte>, b: seq<Byte>, k: nat) {
    && k <= |a| && k <= |b|
    && a[..k] == b[..k]
    && (if k == |a| then k < |b| else k < |b| && a[k] < b[k])
  }

  /** The recursive comparison is dictionary order. */
  lemma {:induction false} LtIsLexicographic(a: seq<Byte>, b: seq<Byte>)
    ensures Lt(a, b) <==> exists k: nat :: LexBefore(a, b, k)
  {
    if |a| == 0 {
      if |b| > 0 { assert LexBefore(a, b, 0); }
    } else if |b| == 0 {
    } else if a[0] != b[0] {
      if a[0] < b[0] { assert LexBefore(a, b, 0); }
      else {
        forall k: nat | LexBefore(a, b, k) ensures false {
        }
      }
    } else {
      LtIsLexicographic(a[1..], b[1..]);
      forall k: nat | LexBefore(a, b, k)
        ensures k > 0 && LexBefore(a[1..], b[1..], k - 1)
      {
        LexBeforeTail(a, b, k);
      }
      forall k: nat | LexBefore(a[1..], b[1..], k)
        ensures LexBefore(a, b, k + 1)
      {
        assert a[..k + 1] == [a[0]] + a[1..][..k];
        assert b[..k + 1] == [b[0]] + b[1..][..k];
      }
    }
  }

  /** Behind an equal first byte, dictionary order is that of the rest. */
  lemma LexBeforeTail(a: seq<Byte>, b: seq<Byte>, k: nat)
    requires |a| > 0 && |b| > 0 && a[0] == b[0] && LexBefore(a, b, k)
    ensures k > 0 && LexBefore(a[1..], b[1..], k - 1)
  {
    assert a[1..][..k - 1] == a[..k][1..];
    assert b[1..][..k - 1] == b[..k][1..];
  }

  lemma {:induction false} LtIrreflexive(a: seq<Byte>)
    ensures !Lt(a, a)
  {
    if |a| > 0 { LtIrreflexive(a[1..]); }
  }

  lemma {:induction false} LtTransitive(a: seq<Byte>, b: seq<Byte>, c: seq<Byte>)
    requires Lt(a, b) && Lt(b, c)
    ensures Lt(a, c)
  {
    if |a| > 0 && |b| > 0 && |c| > 0 && a[0] == b[0] && b[0] == c[0] {
      LtTransitive(a[1..], b[1..], c[1..]);
    }
  }

  /** Exactly one of `a < b`, `a == b`, `b < a` holds. */
  lemma {:induction false} LtTrichotomy(a: seq<Byte>, b: seq<Byte>)
    ensures Lt(a, b) || a == b || Lt(b, a)
    ensures !(Lt(a, b) && Lt(b, a))
    ensures a == b ==> !Lt(a, b)
  {
    if |a| > 0 && |b| > 0 && a[0] == b[0] {
      LtTrichotomy(a[1..], b[1..]);
      if a[1..] == b[1..] {
        assert a == [a[0]] + a[1..] && b == [b[0]] + b[1..];
      }
    }
    if a == b { LtIrreflexive(a); }
  }

  /** `a <= b` in the library's sense is "less than or equal". */
  lemma LeIsLtOrEq(a: seq<Byte>, b: seq<Byte>)
    ensures Le(a, b) <==> Lt(a, b) || a == b
  {
    LtTrichotomy(a, b);
  }

  /** A key that does not exceed one exceeded by `c` is below `c`. */
  lemma LeLtTransitive(a: seq<Byte>, b: seq<Byte>, c: seq<Byte>)
    requires Le(a, b) && Lt(b, c)
    ensures Lt(a, c)
  {
    LeIsLtOrEq(a, b);
    if Lt(a, b) { LtTransitive(a, b, c); }
  }

  lemma LtLeTransitive(a: seq<Byte>, b: seq<Byte>, c: seq<Byte>)
    requires Lt(a, b) && Le(b, c)
    ensures Lt(a, c)
  {
    LeIsLtOrEq(b, c);
    if Lt(b, c) { LtTransitive(a, b, c); }
  }

  lemma LeTransitive(a: seq<Byte>, b: seq<Byte>, c: seq<Byte>)
    requires Le(a, b) && Le(b, c)
    ensures Le(a, c)
  {
    LeIsLtOrEq(a, b);
    LeIsLtOrEq(b, c);
    LeIsLtOrEq(a, c);
    if Lt(a, b) && Lt(b, c) { LtTransitive(a, b, c); }
  }
}

/**
 * Rune counting as Go's `utf8.RuneCountInString` does it. Go's `fmt` measures
 * the width of a `%s` / `%-*s` argument in runes, so the padding of every
 * column printed by the key-value printer depends on this count. A byte that
 * does not begin a well-formed UTF-8 sequence counts as one rune of its own.
 */
module Utf8 {
  import opened Bytes

  predicate IsContinuation(b: byte) {
    0x80 <= b <= 0xBF
  }

  /** The size a well-formed sequence led by `c` has; 1 for ASCII and for bytes that lead none. */
  function LeadSize(c: byte): (n: nat)
    ensures 1 <= n <= 4
    ensures c < 0x80 ==> n == 1
  {
    if c < 0xC2 || c > 0xF4 then 1
    else if c < 0xE0 then 2
    else if c < 0xF0 then 3
    else 4
  }

  /** The range Go's decoder accepts for the byte that follows lead byte `c`. */
  function SecondLow(c: byte): byte {
    if c == 0xE0 then 0xA0 else if c == 0xF0 then 0x90 else 0x80
  }

  function SecondHigh(c: byte): byte {
    if c == 0xED then 0x9F else if c == 0xF4 then 0x8F else 0xBF
  }

  /**
   * The number of bytes the decoder consumes at `s[i]`: the whole sequence when
   * it is well formed and complete, otherwise the single byte `s[i]`.
   */
  function RuneSize(s: Bytes, i: nat): (n: nat)
    requires i < |s|
    ensures 1 <= n <= 4 && i + n <= |s|
    ensures n == 1 || n == LeadSize(s[i])
    ensures n > 1 ==> forall k :: i < k < i + n ==> IsContinuation(s[k])
  {
    var c := s[i];
    var size := LeadSize(c);
    if size == 1 || i + size > |s| then 1
    else if !(SecondLow(c) <= s[i + 1] <= SecondHigh(c)) then 1
    else if size == 2 then 2
    else if !IsContinuation(s[i + 2]) then 1
    else if size == 3 then 3
    else if !IsContinuation(s[i + 3]) then 1
    else 4
  }

  /** Runes in `s[i..]`, decoding from position `i`. */
  function RuneCountFrom(s: Bytes, i: nat): (n: nat)
    requires i <= |s|
    ensures n <= |s| - i
    ensures i < |s| ==> n >= 1
    decreases |s| - i
  {
    if i == |s| then 0 else 1 + RuneCountFrom(s, i + RuneSize(s, i))
  }

  /** `utf8.RuneCountInString(s)`. */
  function RuneCount(s: Bytes): (n: nat)
    ensures n <= |s|
    ensures s != [] ==> n >= 1
  {
    RuneCountFrom(s, 0)
  }

  /** No multi-byte sequence can straddle the join of `a` and `b`. */
  predicate Separable(a: Bytes, b: Bytes) {
    a == [] || b == [] || a[|a| - 1] < 0x80 || b[0] < 0x80
  }

  lemma {:induction false} AsciiRuneCountFrom(s: Bytes, i: nat)
    requires AllAscii(s) && i <= |s|
    ensures RuneCountFrom(s, i) == |s| - i
    decreases |s| - i
  {
    if i < |s| {
      AsciiRuneCountFrom(s, i + 1);
    }
  }

  /** In ASCII text every byte is one rune. */
  lemma AsciiRuneCount(s: Bytes)
    requires AllAscii(s)
    ensures RuneCount(s) == |s|
  {
    AsciiRuneCountFrom(s, 0);
  }

  /** Decoding looks only forward, so a prefix does not change how `b` decodes. */
  lemma RuneSizeShift(a: Bytes, b: Bytes, j: nat)
    requires j < |b|
    ensures RuneSize(a + b, |a| + j) == RuneSize(b, j)
  {
    var s := a + b;
    forall k | j <= k < |b|
      ensures s[|a| + k] == b[k]
    {
    }
  }

  lemma {:induction false} RuneCountFromShift(a: Bytes, b: Bytes, j: nat)
    requires j <= |b|
    ensures RuneCountFrom(a + b, |a| + j) == RuneCountFrom(b, j)
    decreases |b| - j
  {
    if j < |b| {
      RuneSizeShift(a, b, j);
      RuneCountFromShift(a, b, j + RuneSize(b, j));
    }
  }

  /** A sequence starting inside `a` decodes the same once `b` is appended, when the join is separable. */
  lemma RuneSizePrefix(a: Bytes, b: Bytes, i: nat)
    requires i < |a| && Separable(a, b)
    ensures RuneSize(a + b, i) == RuneSize(a, i)
  {
    var s := a + b;
    assert s[i] == a[i];
    var size := LeadSize(a[i]);
    if i + size <= |a| {
      forall k | i <= k < i + size
        ensures s[k] == a[k]
      {
      }
    } else if b == [] {
      assert s == a;
    } else if b[0] < 0x80 {
      // the would-be sequence reaches s[|a|], which is not a continuation byte
      assert s[|a|] == b[0];
    } else {
      // a ends in ASCII, so the would-be sequence meets a byte that is not a continuation byte
      assert s[|a| - 1] == a[|a| - 1];
    }
  }

  lemma {:induction false} RuneCountFromConcat(a: Bytes, b: Bytes, i: nat)
    requires i <= |a| && Separable(a, b)
    ensures RuneCountFrom(a + b, i) == RuneCountFrom(a, i) + RuneCount(b)
    decreases |a| - i
  {
    if i == |a| {
      RuneCountFromShift(a, b, 0);
    } else {
      RuneSizePrefix(a, b, i);
      RuneCountFromConcat(a, b, i + RuneSize(a, i));
    }
  }

  /** Runes add up across a join no multi-byte sequence can straddle. */
  lemma RuneCountConcat(a: Bytes, b: Bytes)
    requires Separable(a, b)
    ensures RuneCount(a + b) == RuneCount(a) + RuneCount(b)
  {
    RuneCountFromConcat(a, b, 0);
  }
}

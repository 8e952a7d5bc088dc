/**
 * Go's `strings.TrimSpace`: the byte string without its leading and trailing
 * Unicode white space. A white-space rune is removed only when its complete
 * UTF-8 encoding is present; every such encoding starts with a byte that is not
 * a continuation byte, so matching encodings byte for byte at either end gives
 * the same cut as Go's rune decoding.
 */
module Trim {
  import opened Bytes

  /** `\t`, `\n`, `\v`, `\f`, `\r` and ` `. */
  predicate IsAsciiSpace(b: byte) {
    (0x09 <= b <= 0x0D) || b == 0x20
  }

  /** U+0085 and U+00A0, following the lead byte 0xC2. */
  predicate IsSpace2(b0: byte, b1: byte) {
    b0 == 0xC2 && (b1 == 0x85 || b1 == 0xA0)
  }

  /** U+1680, U+2000..U+200A, U+2028, U+2029, U+202F, U+205F and U+3000. */
  predicate IsSpace3(b0: byte, b1: byte, b2: byte) {
    || (b0 == 0xE1 && b1 == 0x9A && b2 == 0x80)
    || (b0 == 0xE2 && b1 == 0x80 && (0x80 <= b2 <= 0x8A || b2 == 0xA8 || b2 == 0xA9 || b2 == 0xAF))
    || (b0 == 0xE2 && b1 == 0x81 && b2 == 0x9F)
    || (b0 == 0xE3 && b1 == 0x80 && b2 == 0x80)
  }

  /** Length of the white-space rune `s` begins with, 0 when it begins with none. */
  function LeadingSpace(s: Bytes): (n: nat)
    ensures n <= |s| && n <= 3
  {
    if |s| >= 1 && IsAsciiSpace(s[0]) then 1
    else if |s| >= 2 && IsSpace2(s[0], s[1]) then 2
    else if |s| >= 3 && IsSpace3(s[0], s[1], s[2]) then 3
    else 0
  }

  /** Length of the white-space rune `s` ends with, 0 when it ends with none. */
  function TrailingSpace(s: Bytes): (n: nat)
    ensures n <= |s| && n <= 3
  {
    var k := |s|;
    if k >= 1 && IsAsciiSpace(s[k - 1]) then 1
    else if k >= 2 && IsSpace2(s[k - 2], s[k - 1]) then 2
    else if k >= 3 && IsSpace3(s[k - 3], s[k - 2], s[k - 1]) then 3
    else 0
  }

  /** How many bytes of leading white space `strings.TrimLeftFunc(s, unicode.IsSpace)` drops. */
  function LeftCut(s: Bytes): (n: nat)
    ensures n <= |s|
    ensures n == 0 <==> LeadingSpace(s) == 0
    decreases |s|
  {
    var k := LeadingSpace(s);
    if k == 0 then 0 else k + LeftCut(s[k..])
  }

  /** How many bytes of trailing white space `strings.TrimRightFunc(s, unicode.IsSpace)` drops. */
  function RightCut(s: Bytes): (n: nat)
    ensures n <= |s|
    ensures n == 0 <==> TrailingSpace(s) == 0
    decreases |s|
  {
    var k := TrailingSpace(s);
    if k == 0 then 0 else k + RightCut(s[..|s| - k])
  }

  /** The left cut stops at the first byte that does not begin a white-space rune. */
  lemma {:induction false} LeftCutStops(s: Bytes)
    ensures LeadingSpace(s[LeftCut(s)..]) == 0
    decreases |s|
  {
    var k := LeadingSpace(s);
    if k > 0 {
      LeftCutStops(s[k..]);
      assert s[k..][LeftCut(s[k..])..] == s[LeftCut(s)..];
    }
  }

  /** The right cut stops at the last byte that does not end a white-space rune. */
  lemma {:induction false} RightCutStops(s: Bytes)
    ensures TrailingSpace(s[..|s| - RightCut(s)]) == 0
    decreases |s|
  {
    var k := TrailingSpace(s);
    if k > 0 {
      var t := s[..|s| - k];
      RightCutStops(t);
      assert t[..|t| - RightCut(t)] == s[..|s| - RightCut(s)];
    }
  }

  /** A prefix of `s` long enough to hold a white-space rune begins with one only if `s` does. */
  lemma LeadingSpacePrefix(s: Bytes, j: nat)
    requires j <= |s| && LeadingSpace(s) == 0
    ensures LeadingSpace(s[..j]) == 0
  {
    var p := s[..j];
    if j >= 1 { assert p[0] == s[0]; }
    if j >= 2 { assert p[1] == s[1]; }
    if j >= 3 { assert p[2] == s[2]; }
  }

  /** `s` is a whole number of white-space runes, read from the front. */
  predicate SpaceRun(s: Bytes)
    decreases |s|
  {
    s == [] || (LeadingSpace(s) > 0 && SpaceRun(s[LeadingSpace(s)..]))
  }

  /** `s` is a whole number of white-space runes, read from the back. */
  predicate SpaceRunBack(s: Bytes)
    decreases |s|
  {
    s == [] || (TrailingSpace(s) > 0 && SpaceRunBack(s[..|s| - TrailingSpace(s)]))
  }

  /** A prefix that still holds the leading white-space rune begins with that same rune. */
  lemma LeadingSpaceKept(s: Bytes, j: nat)
    requires LeadingSpace(s) <= j <= |s|
    ensures LeadingSpace(s[..j]) == LeadingSpace(s)
  {
    if LeadingSpace(s) == 0 {
      LeadingSpacePrefix(s, j);
    } else {
      var p := s[..j];
      assert p[0] == s[0];
      if j >= 2 { assert p[1] == s[1]; }
      if j >= 3 { assert p[2] == s[2]; }
    }
  }

  /** A suffix that still holds the trailing white-space rune ends with that same rune. */
  lemma TrailingSpaceKept(s: Bytes, j: nat)
    requires TrailingSpace(s) <= j <= |s|
    ensures TrailingSpace(s[|s| - j..]) == TrailingSpace(s)
  {
    var p, k := s[|s| - j..], |s|;
    if j >= 1 { assert p[j - 1] == s[k - 1]; }
    if j >= 2 { assert p[j - 2] == s[k - 2]; }
    if j >= 3 { assert p[j - 3] == s[k - 3]; }
  }

  /** A white-space rune in front of a run of them is a longer run. */
  lemma SpaceRunCons(s: Bytes, rest: Bytes)
    requires LeadingSpace(s) > 0 && s[LeadingSpace(s)..] == rest && SpaceRun(rest)
    ensures SpaceRun(s)
  {
  }

  /** A white-space rune after a run of them is a longer run. */
  lemma SpaceRunBackSnoc(s: Bytes, rest: Bytes)
    requires TrailingSpace(s) > 0 && s[..|s| - TrailingSpace(s)] == rest && SpaceRunBack(rest)
    ensures SpaceRunBack(s)
  {
  }

  /** One step of the left cut: the rune it drops first, then what it drops after. */
  lemma LeftCutStep(s: Bytes, t: Bytes)
    requires LeadingSpace(s) > 0 && t == s[LeadingSpace(s)..]
    requires SpaceRun(t[..LeftCut(t)])
    ensures SpaceRun(s[..LeftCut(s)])
  {
    var k, cut := LeadingSpace(s), s[..LeftCut(s)];
    assert LeftCut(s) == k + LeftCut(t);
    LeadingSpaceKept(s, LeftCut(s));
    assert cut[k..] == t[..LeftCut(t)];
    SpaceRunCons(cut, t[..LeftCut(t)]);
  }

  /** The bytes the left cut drops are whole white-space runes. */
  lemma {:induction false} LeftCutIsSpace(s: Bytes)
    ensures SpaceRun(s[..LeftCut(s)])
    decreases |s|
  {
    var k := LeadingSpace(s);
    if k > 0 {
      var t := s[k..];
      LeftCutIsSpace(t);
      LeftCutStep(s, t);
    }
  }

  /** One step of the right cut: the rune it drops last, after what it drops before. */
  lemma RightCutStep(s: Bytes, t: Bytes)
    requires TrailingSpace(s) > 0 && t == s[..|s| - TrailingSpace(s)]
    requires SpaceRunBack(t[|t| - RightCut(t)..])
    ensures SpaceRunBack(s[|s| - RightCut(s)..])
  {
    var k, cut := TrailingSpace(s), s[|s| - RightCut(s)..];
    assert RightCut(s) == k + RightCut(t);
    TrailingSpaceKept(s, RightCut(s));
    assert cut[..|cut| - k] == t[|t| - RightCut(t)..];
    SpaceRunBackSnoc(cut, t[|t| - RightCut(t)..]);
  }

  /** The bytes the right cut drops are whole white-space runes. */
  lemma {:induction false} RightCutIsSpace(s: Bytes)
    ensures SpaceRunBack(s[|s| - RightCut(s)..])
    decreases |s|
  {
    var k := TrailingSpace(s);
    if k > 0 {
      var t := s[..|s| - k];
      RightCutIsSpace(t);
      RightCutStep(s, t);
    }
  }

  /** `strings.TrimSpace(s)`: the slice of `s` between its leading and trailing white space. */
  function TrimSpace(s: Bytes): (r: Bytes)
    ensures |r| <= |s|
  {
    var t := s[LeftCut(s)..];
    t[..|t| - RightCut(t)]
  }

  /**
   * What is left is a slice of `s` that neither begins nor ends with a
   * white-space rune.
   */
  lemma TrimSpaceTrims(s: Bytes)
    ensures LeftCut(s) + |TrimSpace(s)| <= |s|
    ensures TrimSpace(s) == s[LeftCut(s)..LeftCut(s) + |TrimSpace(s)|]
    ensures LeadingSpace(TrimSpace(s)) == 0 && TrailingSpace(TrimSpace(s)) == 0
  {
    var n := LeftCut(s);
    var t := s[n..];
    var m := |t| - RightCut(t);
    assert TrimSpace(s) == t[..m] == s[n..n + m];
    LeftCutStops(s);
    RightCutStops(t);
    LeadingSpacePrefix(t, m);
  }

  /** Text with no white space at either end comes back unchanged. */
  lemma TrimSpaceKeeps(s: Bytes)
    requires LeadingSpace(s) == 0 && TrailingSpace(s) == 0
    ensures TrimSpace(s) == s
  {
    assert s[0..] == s;
    assert s[..|s|] == s;
  }

  /** Trimming twice trims no more than trimming once. */
  lemma TrimSpaceIdempotent(s: Bytes)
    ensures TrimSpace(TrimSpace(s)) == TrimSpace(s)
  {
    TrimSpaceTrims(s);
    TrimSpaceKeeps(TrimSpace(s));
  }
}

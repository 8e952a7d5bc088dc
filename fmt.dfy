/**
 * The two `fmt` width verbs the key-value printer uses. Go measures widths in
 * runes and pads with spaces; an argument already as wide as the width is
 * printed whole, never truncated. A width argument above one million is
 * refused: `fmt` writes `%!(BADWIDTH)` and then the argument unpadded.
 */
module Fmt {
  import opened Bytes
  import opened Utf8

  function Max(a: nat, b: nat): nat {
    if a < b then b else a
  }

  /** The largest width `fmt` accepts from a `*` argument. */
  const MaxWidth: nat := 1000000

  /** `"%!(BADWIDTH)"`, written in place of the padding for a refused width. */
  const BadWidth: Bytes := [0x25, 0x21, 0x28, 0x42, 0x41, 0x44, 0x57, 0x49, 0x44, 0x54, 0x48, 0x29]

  /** `%-*s`: `s`, then spaces up to `width` runes. */
  function PadRight(s: Bytes, width: nat): (r: Bytes)
    ensures |r| >= |s|
    ensures width <= MaxWidth ==> r[..|s|] == s && r[|s|..] == Spaces(|r| - |s|)
    ensures width <= MaxWidth ==> RuneCount(r) == Max(RuneCount(s), width)
    ensures width > MaxWidth ==> r == BadWidth + s
  {
    if width > MaxWidth then
      BadWidth + s
    else if RuneCount(s) < width then
      var fill := Spaces(width - RuneCount(s));
      AsciiRuneCount(fill);
      RuneCountConcat(s, fill);
      assert (s + fill)[..|s|] == s;
      s + fill
    else
      s
  }

  /** `%*s`: spaces up to `width` runes, then `s`. */
  function PadLeft(s: Bytes, width: nat): (r: Bytes)
    ensures |r| >= |s|
    ensures width <= MaxWidth ==> r[|r| - |s|..] == s && r[..|r| - |s|] == Spaces(|r| - |s|)
    ensures width <= MaxWidth ==> RuneCount(r) == Max(RuneCount(s), width)
    ensures width > MaxWidth ==> r == BadWidth + s
  {
    if width > MaxWidth then
      BadWidth + s
    else if RuneCount(s) < width then
      var fill := Spaces(width - RuneCount(s));
      AsciiRuneCount(fill);
      RuneCountConcat(fill, s);
      assert (fill + s)[..|fill|] == fill;
      fill + s
    else
      s
  }

  /** Padding ASCII text to at least its own length appends exactly the missing spaces. */
  lemma PadRightAscii(s: Bytes, width: nat)
    requires AllAscii(s) && |s| <= width <= MaxWidth
    ensures PadRight(s, width) == s + Spaces(width - |s|)
  {
    AsciiRuneCount(s);
    if |s| == width {
      assert s + Spaces(0) == s;
    }
  }
}

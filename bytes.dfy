/** Go strings as byte sequences: `len(s)` counts bytes, not characters. */
module Bytes {

  type byte = x: int | 0 <= x < 256
  type Bytes = seq<byte>

  /** The conventional Some/None wrapper, for optional results and failures. */
  datatype Option<+T> = None | Some(value: T)

  predicate AllAscii(s: Bytes) {
    forall i :: 0 <= i < |s| ==> s[i] < 0x80
  }

  /** The bytes of an ASCII string literal. */
  function Ascii(s: string): (r: Bytes)
    requires forall i :: 0 <= i < |s| ==> s[i] < 128 as char
    ensures |r| == |s| && AllAscii(r)
    ensures forall i :: 0 <= i < |s| ==> r[i] == s[i] as int
  {
    seq(|s|, i requires 0 <= i < |s| => s[i] as int)
  }

  const Space: byte := 0x20

  /** `n` space bytes, the fill `fmt` pads with. */
  function Spaces(n: nat): (r: Bytes)
    ensures |r| == n && AllAscii(r)
    ensures forall i :: 0 <= i < n ==> r[i] == Space
  {
    seq(n, _ => Space)
  }
}

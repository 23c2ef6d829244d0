/** Bytes, as the C-style exercises read and store them. */
module Bytes {

  newtype byte = b: int | 0 <= b < 256

  /** The bytes of a `b"..."` string literal. Such literals hold ASCII text
      only, and the model applies `Ascii` only to ASCII strings, where each
      code is kept unchanged as its UTF-8 byte. Characters from 256 up
      cannot occur there; they are reduced modulo 256 only so that the
      function is total. */
  function Ascii(s: string): (r: seq<byte>)
    ensures |r| == |s|
    ensures forall k :: 0 <= k < |s| && s[k] as int < 256 ==> r[k] as int == s[k] as int
  {
    seq(|s|, k requires 0 <= k < |s| => (s[k] as int % 256) as byte)
  }

  /** The bytes of a concatenation are the concatenated bytes. */
  lemma AsciiConcat(a: string, b: string)
    ensures Ascii(a + b) == Ascii(a) + Ascii(b)
  {
    assert forall k :: 0 <= k < |a + b| ==> Ascii(a + b)[k] == (Ascii(a) + Ascii(b))[k];
  }
}

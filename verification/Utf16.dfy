/** Texts as ECMAScript has them: sequences of UTF-16 code units, halves of surrogate pairs included. */
module Utf16 {
  newtype Unit = x: int | 0 <= x < 0x1_0000

  type Text = seq<Unit>

  /** The units of an ASCII text. */
  function Ascii(s: string): Text
    requires forall i :: 0 <= i < |s| ==> s[i] < 128 as char
  {
    seq(|s|, i requires 0 <= i < |s| => s[i] as int as Unit)
  }
}

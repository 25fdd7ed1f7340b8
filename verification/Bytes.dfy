// The bytes of buffers, and the greatest value of C's int.
module Bytes {
  type Byte = b: int | 0 <= b < 256

  const INT_MAX: nat := 0x7FFF_FFFF

  // The bytes of a text of one-byte characters.
  function Ascii(text: string): (s: seq<Byte>)
    requires forall i :: 0 <= i < |text| ==> text[i] < 256 as char
    ensures |s| == |text| && forall i :: 0 <= i < |s| ==> s[i] == text[i] as int
  {
    seq(|text|, i requires 0 <= i < |text| => text[i] as int)
  }
}

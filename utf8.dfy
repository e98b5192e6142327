/** The byte-level view of a Rust `String`: its text is stored as UTF-8, so
    `len()` counts bytes and `as_bytes()[0]` is the first byte of the first
    character's encoding. A Dafny `string` is a sequence of Unicode scalar
    values, so both are computed here from the characters. */
module Utf8 {

  newtype byte = x: int | 0 <= x < 256

  /** Number of bytes UTF-8 spends on the scalar value c. */
  function Width(c: char): (w: nat)
    ensures 1 <= w <= 4
    ensures w == 1 <==> (c as int) < 0x80
  {
    if (c as int) < 0x80 then 1
    else if (c as int) < 0x800 then 2
    else if (c as int) < 0x10000 then 3
    else 4
  }

  /** `str::len`: the number of bytes in the UTF-8 encoding of s. */
  function ByteLen(s: string): (n: nat)
    ensures |s| <= n <= 4 * |s|
    ensures n == 0 <==> s == []
  {
    if s == [] then 0 else Width(s[0]) + ByteLen(s[1..])
  }

  /** The first byte of the UTF-8 encoding of c: the character itself for
      ASCII, otherwise a lead byte 0xC0..0xF4 that no ASCII character has. */
  function LeadByte(c: char): (b: byte)
    ensures (c as int) < 0x80 ==> b as int == c as int
    ensures (c as int) >= 0x80 ==> 0xC0 <= b <= 0xF4
  {
    var v := c as int;
    if v < 0x80 then v as byte
    else if v < 0x800 then (0xC0 + v / 0x40) as byte
    else if v < 0x10000 then (0xE0 + v / 0x1000) as byte
    else (0xF0 + v / 0x40000) as byte
  }

  /** A string is one byte long exactly when it is a single ASCII character. */
  lemma SingleByte(s: string)
    ensures ByteLen(s) == 1 <==> |s| == 1 && (s[0] as int) < 0x80
  {
  }
}

/**
 * Well-formed UTF-8 as defined by the syntax in section 4 of RFC 3629, which is
 * what Rust's `String::from_utf8` accepts: no overlong forms, no surrogates,
 * nothing above U+10FFFF.
 */
module Utf8 {
  import opened Wire

  /** UTF8-tail = %x80-BF */
  predicate IsTail(b: Byte)
  {
    0x80 <= b <= 0xBF
  }

  /**
   * The number of bytes of the well-formed character at the start of `s`,
   * or 0 when `s` does not start with one (the alternatives of UTF8-1 .. UTF8-4).
   */
  function FirstCharLength(s: seq<Byte>): (n: nat)
    ensures n <= 4 && n <= |s|
    ensures |s| > 0 && s[0] < 0x80 ==> n == 1
  {
    if |s| == 0 then 0
    else
      var b0 := s[0];
      if b0 <= 0x7F then 1
      else if 0xC2 <= b0 <= 0xDF then
        if |s| >= 2 && IsTail(s[1]) then 2 else 0
      else if b0 == 0xE0 then
        if |s| >= 3 && 0xA0 <= s[1] <= 0xBF && IsTail(s[2]) then 3 else 0
      else if 0xE1 <= b0 <= 0xEC || 0xEE <= b0 <= 0xEF then
        if |s| >= 3 && IsTail(s[1]) && IsTail(s[2]) then 3 else 0
      else if b0 == 0xED then
        if |s| >= 3 && 0x80 <= s[1] <= 0x9F && IsTail(s[2]) then 3 else 0
      else if b0 == 0xF0 then
        if |s| >= 4 && 0x90 <= s[1] <= 0xBF && IsTail(s[2]) && IsTail(s[3]) then 4 else 0
      else if 0xF1 <= b0 <= 0xF3 then
        if |s| >= 4 && IsTail(s[1]) && IsTail(s[2]) && IsTail(s[3]) then 4 else 0
      else if b0 == 0xF4 then
        if |s| >= 4 && 0x80 <= s[1] <= 0x8F && IsTail(s[2]) && IsTail(s[3]) then 4 else 0
      else 0
  }

  /** UTF8-octets = *( UTF8-char ) */
  predicate ValidUtf8(s: seq<Byte>)
    decreases |s|
  {
    |s| == 0 || (FirstCharLength(s) > 0 && ValidUtf8(s[FirstCharLength(s)..]))
  }

  /** The bytes of a Rust `String`: always well-formed UTF-8. */
  type Text = s: seq<Byte> | ValidUtf8(s)

  /** The code point that the first `n` bytes of `s` spell out. */
  function CodePoint(s: seq<Byte>, n: nat): int
    requires 1 <= n <= 4 && n <= |s|
  {
    var b0, b1, b2, b3: int := s[0], if n > 1 then s[1] else 0, if n > 2 then s[2] else 0, if n > 3 then s[3] else 0;
    if n == 1 then b0
    else if n == 2 then (b0 - 0xC0) * 0x40 + (b1 - 0x80)
    else if n == 3 then (b0 - 0xE0) * 0x1000 + (b1 - 0x80) * 0x40 + (b2 - 0x80)
    else (b0 - 0xF0) * 0x4_0000 + (b1 - 0x80) * 0x1000 + (b2 - 0x80) * 0x40 + (b3 - 0x80)
  }

  /** The shortest UTF-8 length of a code point (section 3 of RFC 3629). */
  function EncodedLength(c: int): nat
  {
    if c < 0x80 then 1 else if c < 0x800 then 2 else if c < 0x1_0000 then 3 else 4
  }

  /**
   * Every character the validator accepts is a Unicode scalar value written in
   * its shortest form: at most U+10FFFF, not a surrogate, not overlong.
   */
  lemma AcceptedCharIsScalar(s: seq<Byte>)
    requires FirstCharLength(s) > 0
    ensures var n := FirstCharLength(s); var c := CodePoint(s, n);
      && 0 <= c <= 0x10_FFFF
      && !(0xD800 <= c <= 0xDFFF)
      && EncodedLength(c) == n
  {
    var n := FirstCharLength(s);
    if n == 3 {
      assert 0xE0 <= s[0] <= 0xEF;
    } else if n == 4 {
      assert 0xF0 <= s[0] <= 0xF4;
    }
  }

  /** Seven-bit text is well-formed UTF-8. */
  lemma {:induction false} AsciiIsValid(s: seq<Byte>)
    requires forall i :: 0 <= i < |s| ==> s[i] < 0x80
    ensures ValidUtf8(s)
  {
    if |s| > 0 {
      assert FirstCharLength(s) == 1;
      AsciiIsValid(s[1..]);
    }
  }
}

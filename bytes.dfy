/**
 * Byte strings as Go sees them: a Go `string` and a `[]byte` are both byte
 * sequences, so names and display strings are `seq<byte>` throughout.
 * This module also holds the `%x` / `%X` hex renderings and `strings.Join`.
 */
module Bytes {

  import opened Wrappers

  newtype byte = b: int | 0 <= b < 256

  /** The bytes of an ASCII string literal, such as the fixed text of an error message. */
  function Ascii(s: string): (r: seq<byte>)
    ensures |r| == |s|
  {
    seq(|s|, k requires 0 <= k < |s| => (s[k] as int % 256) as byte)
  }

  const LeftBracket: seq<byte> := [0x5B]      // [
  const RightBracket: seq<byte> := [0x5D]     // ]
  const CommaSpace: seq<byte> := [0x2C, 0x20] // ", "

  const Quote: byte := 0x22          // "
  const Apostrophe: byte := 0x27     // '
  const Backtick: byte := 0x60       // `
  const Backslash: byte := 0x5C      // \
  const Space: byte := 0x20

  /** One lowercase hex digit, as `%x` prints it. */
  function LowerDigit(d: int): byte
    requires 0 <= d < 16
  {
    if d < 10 then (48 + d) as byte else (87 + d) as byte
  }

  /** One uppercase hex digit, as `%X` prints it. */
  function UpperDigit(d: int): byte
    requires 0 <= d < 16
  {
    if d < 10 then (48 + d) as byte else (55 + d) as byte
  }

  /** `fmt.Sprintf("%x", b)`: two lowercase hex digits per byte, high nibble first. */
  function Hex(b: seq<byte>): (h: seq<byte>)
  {
    if b == [] then [] else [LowerDigit(b[0] as int / 16), LowerDigit(b[0] as int % 16)] + Hex(b[1..])
  }

  /** `fmt.Sprintf("%X", b)`: two uppercase hex digits per byte, high nibble first. */
  function UpperHex(b: seq<byte>): (h: seq<byte>)
  {
    if b == [] then [] else [UpperDigit(b[0] as int / 16), UpperDigit(b[0] as int % 16)] + UpperHex(b[1..])
  }

  /** The value of a hex digit of either case, if `c` is one. */
  function DigitValue(c: byte): (v: int)
  {
    if 48 <= c <= 57 then c as int - 48
    else if 97 <= c <= 102 then c as int - 87
    else if 65 <= c <= 70 then c as int - 55
    else -1
  }

  /** Reads back a hex rendering of either case; None for an odd length or a non-digit. */
  function UnHex(h: seq<byte>): (r: Option<seq<byte>>)
  {
    if h == [] then Some([])
    else if |h| < 2 || DigitValue(h[0]) < 0 || DigitValue(h[1]) < 0 then None
    else match UnHex(h[2..])
      case None => None
      case Some(rest) => Some([(DigitValue(h[0]) * 16 + DigitValue(h[1])) as byte] + rest)
  }

  /** ASCII upper-casing of one byte. */
  function UpperByte(c: byte): byte
  {
    if 97 <= c <= 122 then c - 32 else c
  }

  function UpperAll(s: seq<byte>): (r: seq<byte>)
    ensures |r| == |s|
  {
    if s == [] then [] else [UpperByte(s[0])] + UpperAll(s[1..])
  }

  lemma DigitsReadBack(d: int)
    requires 0 <= d < 16
    ensures DigitValue(LowerDigit(d)) == d && DigitValue(UpperDigit(d)) == d
    ensures UpperByte(LowerDigit(d)) == UpperDigit(d)
  {
  }

  lemma ByteFromNibbles(c: byte)
    ensures DigitValue(LowerDigit(c as int / 16)) * 16 + DigitValue(LowerDigit(c as int % 16)) == c as int
    ensures DigitValue(UpperDigit(c as int / 16)) * 16 + DigitValue(UpperDigit(c as int % 16)) == c as int
  {
    DigitsReadBack(c as int / 16);
    DigitsReadBack(c as int % 16);
  }

  /** `%x` writes exactly two digits per byte, and they read back to the bytes. */
  lemma {:induction false} HexRoundTrip(b: seq<byte>)
    ensures |Hex(b)| == 2 * |b|
    ensures UnHex(Hex(b)) == Some(b)
  {
    if b != [] {
      HexRoundTrip(b[1..]);
      var h := Hex(b);
      assert h[2..] == Hex(b[1..]);
      ByteFromNibbles(b[0]);
      DigitsReadBack(b[0] as int / 16);
      DigitsReadBack(b[0] as int % 16);
      assert [b[0]] + b[1..] == b;
    }
  }

  /** `%X` writes exactly two digits per byte, and they read back to the bytes. */
  lemma {:induction false} UpperHexRoundTrip(b: seq<byte>)
    ensures |UpperHex(b)| == 2 * |b|
    ensures UnHex(UpperHex(b)) == Some(b)
  {
    if b != [] {
      UpperHexRoundTrip(b[1..]);
      var h := UpperHex(b);
      assert h[2..] == UpperHex(b[1..]);
      ByteFromNibbles(b[0]);
      DigitsReadBack(b[0] as int / 16);
      DigitsReadBack(b[0] as int % 16);
      assert [b[0]] + b[1..] == b;
    }
  }

  /** `%X` writes the digits of `%x`, upper-cased. */
  lemma {:induction false} UpperHexIsUpperCasedHex(b: seq<byte>)
    ensures UpperHex(b) == UpperAll(Hex(b))
  {
    if b != [] {
      UpperHexIsUpperCasedHex(b[1..]);
      var hi, lo := b[0] as int / 16, b[0] as int % 16;
      DigitsReadBack(hi);
      DigitsReadBack(lo);
      var h := Hex(b);
      assert h == [LowerDigit(hi), LowerDigit(lo)] + Hex(b[1..]);
      assert UpperAll(h) == [UpperByte(h[0])] + UpperAll(h[1..]);
      assert h[1..] == [LowerDigit(lo)] + Hex(b[1..]);
      assert UpperAll(h[1..]) == [UpperByte(h[1])] + UpperAll(Hex(b[1..]));
    }
  }

  /** `strings.Join(parts, sep)`. */
  function Join(parts: seq<seq<byte>>, sep: seq<byte>): seq<byte>
  {
    if parts == [] then []
    else if |parts| == 1 then parts[0]
    else parts[0] + sep + Join(parts[1..], sep)
  }

  /** The bracketed list notation `[a, b, ...]`. */
  function Bracketed(parts: seq<seq<byte>>): seq<byte>
  {
    LeftBracket + Join(parts, CommaSpace) + RightBracket
  }
}

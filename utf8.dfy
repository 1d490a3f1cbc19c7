/**
 * UTF-8 decoding of one rune, as Go's `utf8.DecodeRune` does it (the run
 * scanners of format.go call it). The byte patterns accepted are exactly the
 * UTF8-octets syntax of section 4 of RFC 3629; the encoding side follows the
 * table in section 3 of RFC 3629.
 */
module Utf8 {

  import opened Bytes

  /** A Go `rune`: a Unicode code point held in an int32. */
  type Rune = int

  /** U+FFFD, returned together with size 1 for a byte that does not start a valid encoding. */
  const RuneError: Rune := 0xFFFD

  /** The code points that UTF-8 can encode: not above U+10FFFF and not a surrogate. */
  predicate IsScalarValue(r: int)
  {
    0 <= r <= 0x10FFFF && !(0xD800 <= r <= 0xDFFF)
  }

  predicate IsContinuation(b: byte)
  {
    0x80 <= b <= 0xBF
  }

  /** The rune that starts a byte string and how many bytes it takes. */
  datatype Decoded = Decoded(rune: Rune, size: nat)

  /** Whether a decode result is a real rune rather than the error signal `(RuneError, 0 or 1)`. */
  predicate Valid(d: Decoded)
  {
    !(d.rune == RuneError && d.size <= 1)
  }

  /** The encoding of one scalar value (section 3 of RFC 3629), as `utf8.EncodeRune` writes it. */
  function EncodeRune(r: Rune): (e: seq<byte>)
    requires IsScalarValue(r)
    ensures 1 <= |e| <= 4
    ensures |e| == 1 <==> r < 0x80
  {
    if r < 0x80 then [r as byte]
    else if r < 0x800 then [(0xC0 + r / 64) as byte, (0x80 + r % 64) as byte]
    else if r < 0x10000 then
      [(0xE0 + r / 4096) as byte, (0x80 + (r / 64) % 64) as byte, (0x80 + r % 64) as byte]
    else
      [(0xF0 + r / 262144) as byte, (0x80 + (r / 4096) % 64) as byte,
       (0x80 + (r / 64) % 64) as byte, (0x80 + r % 64) as byte]
  }

  /**
   * `utf8.DecodeRune(p)`: an empty input gives `(RuneError, 0)`; a valid
   * encoding at the front gives its rune and length; anything else gives
   * `(RuneError, 1)`, so a decode error always consumes exactly one byte.
   * The lead-byte classes and the accepted range of the second byte are
   * those of Go's `first` and `acceptRanges` tables. That a valid result is
   * the encoding of its rune is `DecodeSound`; that every encoding decodes
   * is `EncodeThenDecode`.
   */
  function DecodeRune(p: seq<byte>): (d: Decoded)
    ensures |p| == 0 ==> d == Decoded(RuneError, 0)
    ensures |p| > 0 ==> 1 <= d.size <= |p| && d.size <= 4
    ensures d.size > 1 ==> Valid(d)
  {
    if |p| == 0 then Decoded(RuneError, 0)
    else
      var p0 := p[0] as int;
      if p0 < 0x80 then Decoded(p0, 1)
      else if p0 < 0xC2 || 0xF4 < p0 then Decoded(RuneError, 1)
      else
        var size := if p0 < 0xE0 then 2 else if p0 < 0xF0 then 3 else 4;
        var lo := if p0 == 0xE0 then 0xA0 else if p0 == 0xF0 then 0x90 else 0x80;
        var hi := if p0 == 0xED then 0x9F else if p0 == 0xF4 then 0x8F else 0xBF;
        if |p| < size then Decoded(RuneError, 1)
        else if p[1] < lo || hi < p[1] then Decoded(RuneError, 1)
        else if size == 2 then Decoded((p0 - 0xC0) * 64 + (p[1] as int - 0x80), 2)
        else if !IsContinuation(p[2]) then Decoded(RuneError, 1)
        else if size == 3 then
          Decoded(((p0 - 0xE0) * 64 + (p[1] as int - 0x80)) * 64 + (p[2] as int - 0x80), 3)
        else if !IsContinuation(p[3]) then Decoded(RuneError, 1)
        else
          Decoded((((p0 - 0xF0) * 64 + (p[1] as int - 0x80)) * 64 + (p[2] as int - 0x80)) * 64
                  + (p[3] as int - 0x80), 4)
  }

  /** A successful decode returns a scalar value whose encoding is exactly the bytes consumed. */
  lemma DecodeSound(p: seq<byte>)
    requires |p| > 0 && Valid(DecodeRune(p))
    ensures IsScalarValue(DecodeRune(p).rune)
    ensures p[..DecodeRune(p).size] == EncodeRune(DecodeRune(p).rune)
  {
    var d := DecodeRune(p);
    if d.size == 2 {
      DecodeTwoSound(p[0] as int, p[1] as int);
    } else if d.size == 3 {
      DecodeThreeSound(p[0] as int, p[1] as int, p[2] as int);
    } else if d.size == 4 {
      DecodeFourSound(p[0] as int, p[1] as int, p[2] as int, p[3] as int);
    }
  }

  lemma DecodeTwoSound(b0: int, b1: int)
    requires 0xC2 <= b0 <= 0xDF && 0x80 <= b1 <= 0xBF
    ensures var r := (b0 - 0xC0) * 64 + (b1 - 0x80);
      IsScalarValue(r) && 0x80 <= r < 0x800 && EncodeRune(r) == [b0 as byte, b1 as byte]
  {
    DivModUnique((b0 - 0xC0) * 64 + (b1 - 0x80), 64, b0 - 0xC0, b1 - 0x80);
  }

  lemma DecodeThreeSound(b0: int, b1: int, b2: int)
    requires 0xE0 <= b0 <= 0xEF && 0x80 <= b1 <= 0xBF && 0x80 <= b2 <= 0xBF
    requires b0 == 0xE0 ==> 0xA0 <= b1
    requires b0 == 0xED ==> b1 <= 0x9F
    ensures var r := ((b0 - 0xE0) * 64 + (b1 - 0x80)) * 64 + (b2 - 0x80);
      IsScalarValue(r) && 0x800 <= r < 0x10000 && EncodeRune(r) == [b0 as byte, b1 as byte, b2 as byte]
  {
    var q := (b0 - 0xE0) * 64 + (b1 - 0x80);
    var r := q * 64 + (b2 - 0x80);
    DivModUnique(r, 64, q, b2 - 0x80);
    DivModUnique(q, 64, b0 - 0xE0, b1 - 0x80);
    DivDiv(r, 64);
  }

  lemma DecodeFourSound(b0: int, b1: int, b2: int, b3: int)
    requires 0xF0 <= b0 <= 0xF4 && 0x80 <= b1 <= 0xBF && 0x80 <= b2 <= 0xBF && 0x80 <= b3 <= 0xBF
    requires b0 == 0xF0 ==> 0x90 <= b1
    requires b0 == 0xF4 ==> b1 <= 0x8F
    ensures var r := (((b0 - 0xF0) * 64 + (b1 - 0x80)) * 64 + (b2 - 0x80)) * 64 + (b3 - 0x80);
      IsScalarValue(r) && 0x10000 <= r && EncodeRune(r) == [b0 as byte, b1 as byte, b2 as byte, b3 as byte]
  {
    var q1 := (b0 - 0xF0) * 64 + (b1 - 0x80);
    var q2 := q1 * 64 + (b2 - 0x80);
    var r := q2 * 64 + (b3 - 0x80);
    DivModUnique(r, 64, q2, b3 - 0x80);
    DivModUnique(q2, 64, q1, b2 - 0x80);
    DivModUnique(q1, 64, b0 - 0xF0, b1 - 0x80);
    DivDiv(r, 64);
    DivDiv(r, 4096);
  }

  lemma DivModUnique(n: int, d: int, q: int, m: int)
    requires 0 < d && 0 <= m < d && n == q * d + m
    ensures n / d == q && n % d == m
  {
    var q', m' := n / d, n % d;
    assert (q - q') * d == m' - m;
    if q > q' {
      MulAtLeast(q - q', d);
    } else if q < q' {
      MulAtLeast(q' - q, d);
    }
  }

  lemma MulAtLeast(k: int, d: int)
    requires 1 <= k && 0 < d
    ensures k * d >= d
  {
  }

  /** Dividing by 64 and by `d` is dividing by `64 * d`. */
  lemma DivDiv(n: int, d: int)
    requires 0 <= n && (d == 64 || d == 4096)
    ensures n / 64 / d == n / (64 * d)
  {
    var q, m := n / (64 * d), n % (64 * d);
    DivModUnique(n, 64, q * d + m / 64, m % 64);
    DivModUnique(n / 64, d, q, m / 64);
  }

  /**
   * Decoding undoes encoding: a scalar value's encoding at the front of any
   * byte string decodes to that value and exactly its length.
   */
  lemma EncodeThenDecode(r: Rune, rest: seq<byte>)
    requires IsScalarValue(r)
    ensures DecodeRune(EncodeRune(r) + rest) == Decoded(r, |EncodeRune(r)|)
  {
    var p := EncodeRune(r) + rest;
    if 0x10000 <= r {
      var a, b, c, d := r / 262144, r / 4096 % 64, r / 64 % 64, r % 64;
      FourDigits(r);
      assert p[..4] == [(0xF0 + a) as byte, (0x80 + b) as byte, (0x80 + c) as byte, (0x80 + d) as byte];
    } else if 0x800 <= r {
      var a, b, c := r / 4096, r / 64 % 64, r % 64;
      ThreeDigits(r);
      assert p[..3] == [(0xE0 + a) as byte, (0x80 + b) as byte, (0x80 + c) as byte];
    }
  }

  /** The base-64 digits `utf8.EncodeRune` writes for a three-byte rune. */
  lemma ThreeDigits(r: Rune)
    requires IsScalarValue(r) && 0x800 <= r < 0x10000
    ensures var a, b, c := r / 4096, r / 64 % 64, r % 64;
      && r == (a * 64 + b) * 64 + c
      && 0 <= a < 16 && 0 <= b < 64 && 0 <= c < 64
      && (a == 0 ==> 32 <= b) && (a == 0xD ==> b < 32)
      && EncodeRune(r) == [(0xE0 + a) as byte, (0x80 + b) as byte, (0x80 + c) as byte]
  {
    DivDiv(r, 64);
  }

  /** The base-64 digits `utf8.EncodeRune` writes for a four-byte rune. */
  lemma FourDigits(r: Rune)
    requires IsScalarValue(r) && 0x10000 <= r
    ensures var a, b, c, d := r / 262144, r / 4096 % 64, r / 64 % 64, r % 64;
      && r == ((a * 64 + b) * 64 + c) * 64 + d
      && 0 <= a <= 4 && 0 <= b < 64 && 0 <= c < 64 && 0 <= d < 64
      && (a == 0 ==> 16 <= b) && (a == 4 ==> b < 16)
      && EncodeRune(r) == [(0xF0 + a) as byte, (0x80 + b) as byte, (0x80 + c) as byte, (0x80 + d) as byte]
  {
    DivDiv(r, 64);
    DivDiv(r, 4096);
  }

  /** A successful decode only looks at the bytes of its own rune. */
  lemma DecodePrefix(p: seq<byte>, k: nat)
    requires |p| > 0 && Valid(DecodeRune(p))
    requires DecodeRune(p).size <= k <= |p|
    ensures DecodeRune(p[..k]) == DecodeRune(p)
  {
    var d := DecodeRune(p);
    DecodeSound(p);
    assert p[..k] == EncodeRune(d.rune) + p[d.size..k];
    EncodeThenDecode(d.rune, p[d.size..k]);
    EncodeThenDecode(d.rune, p[d.size..]);
    assert p == EncodeRune(d.rune) + p[d.size..];
  }

  /** A failed decode stays failed when the input is cut short (but not emptied). */
  lemma DecodeFailurePrefix(p: seq<byte>, k: nat)
    requires |p| > 0 && !Valid(DecodeRune(p))
    requires 1 <= k <= |p|
    ensures !Valid(DecodeRune(p[..k]))
  {
  }

  /** Bytes below 0x80 only ever encode themselves: every byte of a longer encoding is 0x80 or above. */
  lemma EncodeHighBytes(r: Rune)
    requires IsScalarValue(r) && 0x80 <= r
    ensures forall k :: 0 <= k < |EncodeRune(r)| ==> 0x80 <= EncodeRune(r)[k]
  {
  }
}

/**
 * The run scanners of format.go: `printableRun` measures the longest prefix
 * made of decodable, printable runes and records which quote-relevant
 * characters it contains; `unprintableRun` measures the longest prefix made
 * of undecodable or non-printable runes.
 */
module Runs {

  import opened Bytes
  import opened Utf8

  /**
   * Go's `unicode.IsPrint`. Its Unicode tables are not modelled: every
   * operation takes the predicate as a parameter and holds for any choice.
   */
  type PrintPredicate = Rune -> bool

  /** What `unicode.IsPrint` says about ASCII: 0x20..0x7E are printable, the controls are not. */
  ghost predicate AsciiPrintFacts(isPrint: PrintPredicate)
  {
    && (forall r :: 0x20 <= r <= 0x7E ==> isPrint(r))
    && (forall r :: (0 <= r < 0x20 || r == 0x7F) ==> !isPrint(r))
  }

  /**
   * The bits of the `flags` word (format.go:129-135). The word is modelled
   * as the set of its set bits: `flags |= flagX` adds X, `flags&flagX == 0`
   * tests that X is absent and `flags == 0` tests for the empty set.
   */
  datatype Flag = DQuote | SQuote | Backtick | Backslash | Space

  type Flags = set<Flag>

  /** The character whose presence a flag records. */
  function FlagChar(f: Flag): byte
  {
    match f
    case DQuote => Bytes.Quote
    case SQuote => Bytes.Apostrophe
    case Backtick => Bytes.Backtick
    case Backslash => Bytes.Backslash
    case Space => Bytes.Space
  }

  const AllFlags: Flags := {DQuote, SQuote, Backtick, Backslash, Space}

  /** The flag a rune sets in `printableRun`'s switch: the one whose character it is, if any. */
  function RuneFlag(r: Rune): (flags: Flags)
    ensures forall f :: f in flags <==> FlagChar(f) as int == r
  {
    set f | f in AllFlags && FlagChar(f) as int == r
  }

  /**
   * The test both scanners apply to the rune at `b[i..]` (format.go:97, 121):
   * it decodes and it is printable. At the end of `b` the decode fails.
   */
  predicate PrintableAt(isPrint: PrintPredicate, b: seq<byte>, i: nat)
    requires i <= |b|
  {
    var d := DecodeRune(b[i..]);
    d.rune != RuneError && isPrint(d.rune)
  }

  /** The number of bytes the rune at `b[i..]` takes (one for a decode error). */
  function Width(b: seq<byte>, i: nat): (w: nat)
    requires i < |b|
    ensures 1 <= w && i + w <= |b|
  {
    DecodeRune(b[i..]).size
  }

  /** `b[i..j]` splits into runes that all decode and are all printable. */
  predicate PrintableBetween(isPrint: PrintPredicate, b: seq<byte>, i: nat, j: nat)
    requires i <= j <= |b|
    decreases j - i
  {
    i == j || (PrintableAt(isPrint, b, i) && i + Width(b, i) <= j && PrintableBetween(isPrint, b, i + Width(b, i), j))
  }

  /** `b[i..j]` splits (a decode error taking one byte) into runes none of which is printable. */
  predicate UnprintableBetween(isPrint: PrintPredicate, b: seq<byte>, i: nat, j: nat)
    requires i <= j <= |b|
    decreases j - i
  {
    i == j || (!PrintableAt(isPrint, b, i) && i + Width(b, i) <= j && UnprintableBetween(isPrint, b, i + Width(b, i), j))
  }

  /** Where the printable run starting at `i` ends: the scan stops at the first rune that is not printable. */
  function PrintableEnd(isPrint: PrintPredicate, b: seq<byte>, i: nat): (j: nat)
    requires i <= |b|
    ensures i <= j <= |b|
    decreases |b| - i
  {
    if i == |b| || !PrintableAt(isPrint, b, i) then i else PrintableEnd(isPrint, b, i + Width(b, i))
  }

  /** Where the unprintable run starting at `i` ends: the scan stops at the first printable rune. */
  function UnprintableEnd(isPrint: PrintPredicate, b: seq<byte>, i: nat): (j: nat)
    requires i <= |b|
    ensures i <= j <= |b|
    decreases |b| - i
  {
    if i == |b| || PrintableAt(isPrint, b, i) then i else UnprintableEnd(isPrint, b, i + Width(b, i))
  }

  /** Byte `c` is one of `b[i..j]`. */
  predicate Occurs(b: seq<byte>, c: byte, i: nat, j: nat)
    requires i <= j <= |b|
  {
    exists k :: i <= k < j && b[k] == c
  }

  /** The flags whose characters occur in `b[i..j]`. */
  function FlagsIn(b: seq<byte>, i: nat, j: nat): (flags: Flags)
    requires i <= j <= |b|
    ensures forall f :: f in flags <==> Occurs(b, FlagChar(f), i, j)
  {
    set f | f in AllFlags && Occurs(b, FlagChar(f), i, j)
  }

  /**
   * format.go:94-116, scanning `b[start..]`: the byte length of the longest
   * prefix made of printable runes, which cannot be extended, and the flags
   * of exactly the quote-relevant characters in it.
   */
  method PrintableRun(isPrint: PrintPredicate, b: seq<byte>, start: nat) returns (idx: nat, flags: Flags)
    requires start <= |b|
    ensures start + idx == PrintableEnd(isPrint, b, start)
    ensures PrintableBetween(isPrint, b, start, start + idx)
    ensures start + idx < |b| ==> !PrintableAt(isPrint, b, start + idx)
    ensures flags == FlagsIn(b, start, start + idx)
  {
    var i := start;
    flags := {};
    while i < |b|
      invariant start <= i <= |b|
      invariant PrintableEnd(isPrint, b, i) == PrintableEnd(isPrint, b, start)
      invariant PrintableBetween(isPrint, b, start, i)
      invariant flags == FlagsIn(b, start, i)
      decreases |b| - i
    {
      var d := DecodeRune(b[i..]);
      if d.rune == RuneError || !isPrint(d.rune) {
        break;
      }
      PrintableStep(isPrint, b, start, i, d, flags);
      flags := flags + RuneFlag(d.rune);
      i := i + d.size;
    }
    idx := i - start;
  }

  /**
   * format.go:118-127, scanning `b[start..]`: the byte length of the longest
   * prefix made of unprintable runes; it is not empty unless `b[start..]`
   * is empty or starts with a printable rune.
   */
  method UnprintableRun(isPrint: PrintPredicate, b: seq<byte>, start: nat) returns (n: nat)
    requires start <= |b|
    ensures start + n == UnprintableEnd(isPrint, b, start)
    ensures UnprintableBetween(isPrint, b, start, start + n)
    ensures start + n < |b| ==> PrintableAt(isPrint, b, start + n)
    ensures start < |b| && !PrintableAt(isPrint, b, start) ==> n > 0
  {
    var i := start;
    while i < |b|
      invariant start <= i <= |b|
      invariant UnprintableEnd(isPrint, b, i) == UnprintableEnd(isPrint, b, start)
      invariant UnprintableBetween(isPrint, b, start, i)
      decreases |b| - i
    {
      var d := DecodeRune(b[i..]);
      if !(d.rune == RuneError || !isPrint(d.rune)) {
        break;
      }
      UnprintableStep(isPrint, b, start, i, d);
      i := i + d.size;
    }
    n := i - start;
  }

  /** The printable run is made of printable runes and stops before a rune that is not printable. */
  lemma {:induction false} PrintableEndFacts(isPrint: PrintPredicate, b: seq<byte>, i: nat)
    requires i <= |b|
    ensures var j := PrintableEnd(isPrint, b, i);
      && PrintableBetween(isPrint, b, i, j)
      && (j < |b| ==> !PrintableAt(isPrint, b, j) && UnprintableEnd(isPrint, b, j) > j)
    decreases |b| - i
  {
    if i < |b| && PrintableAt(isPrint, b, i) {
      PrintableEndFacts(isPrint, b, i + Width(b, i));
    }
  }

  /** The unprintable run is made of unprintable runes, stops before a printable rune, and is empty only before one. */
  lemma {:induction false} UnprintableEndFacts(isPrint: PrintPredicate, b: seq<byte>, i: nat)
    requires i <= |b|
    ensures var j := UnprintableEnd(isPrint, b, i);
      && UnprintableBetween(isPrint, b, i, j)
      && (j < |b| ==> PrintableAt(isPrint, b, j))
      && (i < |b| && !PrintableAt(isPrint, b, i) ==> j > i)
    decreases |b| - i
  {
    if i < |b| && !PrintableAt(isPrint, b, i) {
      UnprintableEndFacts(isPrint, b, i + Width(b, i));
    }
  }

  /** Appending a printable rune to a printable stretch keeps it printable and keeps the end. */
  lemma PrintableExtend(isPrint: PrintPredicate, b: seq<byte>, start: nat, i: nat)
    requires start <= i < |b| && PrintableAt(isPrint, b, i) && PrintableBetween(isPrint, b, start, i)
    ensures var d := DecodeRune(b[i..]);
      && PrintableBetween(isPrint, b, start, i + d.size)
      && PrintableEnd(isPrint, b, i + d.size) == PrintableEnd(isPrint, b, i)
  {
    PrintableBetweenSnoc(isPrint, b, start, i);
  }

  /** One iteration of `printableRun`'s loop keeps its invariants. */
  lemma PrintableStep(isPrint: PrintPredicate, b: seq<byte>, start: nat, i: nat, d: Decoded, flags: Flags)
    requires start <= i < |b| && d == DecodeRune(b[i..]) && d.rune != RuneError && isPrint(d.rune)
    requires PrintableEnd(isPrint, b, i) == PrintableEnd(isPrint, b, start)
    requires PrintableBetween(isPrint, b, start, i)
    requires flags == FlagsIn(b, start, i)
    ensures i + d.size <= |b|
    ensures PrintableEnd(isPrint, b, i + d.size) == PrintableEnd(isPrint, b, start)
    ensures PrintableBetween(isPrint, b, start, i + d.size)
    ensures flags + RuneFlag(d.rune) == FlagsIn(b, start, i + d.size)
  {
    PrintableExtend(isPrint, b, start, i);
    FlagsExtend(isPrint, b, start, i);
  }

  /** One iteration of `unprintableRun`'s loop keeps its invariants. */
  lemma UnprintableStep(isPrint: PrintPredicate, b: seq<byte>, start: nat, i: nat, d: Decoded)
    requires start <= i < |b| && d == DecodeRune(b[i..]) && (d.rune == RuneError || !isPrint(d.rune))
    requires UnprintableEnd(isPrint, b, i) == UnprintableEnd(isPrint, b, start)
    requires UnprintableBetween(isPrint, b, start, i)
    ensures i + d.size <= |b|
    ensures UnprintableEnd(isPrint, b, i + d.size) == UnprintableEnd(isPrint, b, start)
    ensures UnprintableBetween(isPrint, b, start, i + d.size)
  {
    UnprintableExtend(isPrint, b, start, i);
  }

  lemma {:induction false} PrintableBetweenSnoc(isPrint: PrintPredicate, b: seq<byte>, i: nat, j: nat)
    requires i <= j < |b| && PrintableAt(isPrint, b, j) && PrintableBetween(isPrint, b, i, j)
    ensures PrintableBetween(isPrint, b, i, j + Width(b, j))
    decreases j - i
  {
    if i < j {
      PrintableBetweenSnoc(isPrint, b, i + Width(b, i), j);
    }
  }

  /** Appending an unprintable rune to an unprintable stretch keeps it unprintable and keeps the end. */
  lemma UnprintableExtend(isPrint: PrintPredicate, b: seq<byte>, start: nat, i: nat)
    requires start <= i < |b| && !PrintableAt(isPrint, b, i) && UnprintableBetween(isPrint, b, start, i)
    ensures var d := DecodeRune(b[i..]);
      && UnprintableBetween(isPrint, b, start, i + d.size)
      && UnprintableEnd(isPrint, b, i + d.size) == UnprintableEnd(isPrint, b, i)
  {
    UnprintableBetweenSnoc(isPrint, b, start, i);
  }

  lemma {:induction false} UnprintableBetweenSnoc(isPrint: PrintPredicate, b: seq<byte>, i: nat, j: nat)
    requires i <= j < |b| && !PrintableAt(isPrint, b, j) && UnprintableBetween(isPrint, b, i, j)
    ensures UnprintableBetween(isPrint, b, i, j + Width(b, j))
    decreases j - i
  {
    if i < j {
      UnprintableBetweenSnoc(isPrint, b, i + Width(b, i), j);
    }
  }

  /** Scanning one more printable rune adds exactly that rune's flag. */
  lemma FlagsExtend(isPrint: PrintPredicate, b: seq<byte>, start: nat, i: nat)
    requires start <= i < |b| && PrintableAt(isPrint, b, i)
    ensures var d := DecodeRune(b[i..]);
      FlagsIn(b, start, i + d.size) == FlagsIn(b, start, i) + RuneFlag(d.rune)
  {
    forall f: Flag
      ensures Occurs(b, FlagChar(f), start, i + Width(b, i))
          <==> Occurs(b, FlagChar(f), start, i) || f in RuneFlag(DecodeRune(b[i..]).rune)
    {
      OccursSplit(b, FlagChar(f), start, i, i + Width(b, i));
      RuneBytesFlag(isPrint, b, i, f);
    }
  }

  lemma OccursSplit(b: seq<byte>, c: byte, i: nat, k: nat, j: nat)
    requires i <= k <= j <= |b|
    ensures Occurs(b, c, i, j) <==> Occurs(b, c, i, k) || Occurs(b, c, k, j)
  {
    if Occurs(b, c, i, j) {
      var m :| i <= m < j && b[m] == c;
      if m < k {
        assert Occurs(b, c, i, k);
      } else {
        assert Occurs(b, c, k, j);
      }
    }
  }

  /** A printable rune sets a flag exactly when the bytes that encode it contain the flag's character. */
  lemma RuneBytesFlag(isPrint: PrintPredicate, b: seq<byte>, i: nat, f: Flag)
    requires i < |b| && PrintableAt(isPrint, b, i)
    ensures f in RuneFlag(DecodeRune(b[i..]).rune) <==> Occurs(b, FlagChar(f), i, i + Width(b, i))
  {
    var d := DecodeRune(b[i..]);
    DecodeSound(b[i..]);
    var e := EncodeRune(d.rune);
    assert b[i..i + d.size] == e;
    if d.rune >= 0x80 {
      EncodeHighBytes(d.rune);
      assert forall k :: i <= k < i + d.size ==> b[k] == e[k - i];
    } else {
      assert e == [d.rune as byte];
      assert b[i] == e[0];
    }
  }
}

/**
 * The quote style `tokenizeName` gives a printable run in stringify mode
 * (format.go:57-68): bare when the run holds none of the five flagged
 * characters, otherwise the first delimiter of `'`, `` ` ``, `"` that the
 * run does not contain, and Go's `%q` as the last resort.
 */
module Quoting {

  import opened Bytes
  import opened Runs

  /** `flags` records exactly the flagged characters that occur in `s`. */
  predicate FlagsOf(s: seq<byte>, flags: Flags)
  {
    forall f :: f in flags <==> FlagChar(f) in s
  }

  /**
   * What `%q` adds to a run of printable runes: a backslash before every `"`
   * and `\`. Every other printable rune is copied as it is, and no byte of
   * a multi-byte rune is below 0x80, so the escaping can work byte by byte.
   */
  function Escape(s: seq<byte>): (e: seq<byte>)
    ensures |e| >= |s|
  {
    if s == [] then []
    else if s[0] == Bytes.Quote || s[0] == Bytes.Backslash then [Bytes.Backslash, s[0]] + Escape(s[1..])
    else [s[0]] + Escape(s[1..])
  }

  /** Reads a backslash-escaped string back: a backslash stands for the byte after it. */
  function Unescape(e: seq<byte>): (s: seq<byte>)
  {
    if e == [] then []
    else if e[0] == Bytes.Backslash && |e| >= 2 then [e[1]] + Unescape(e[2..])
    else [e[0]] + Unescape(e[1..])
  }

  /** `fmt.Sprintf("%q", s)` for a run of printable runes. */
  function GoQuote(s: seq<byte>): seq<byte>
  {
    [Bytes.Quote] + Escape(s) + [Bytes.Quote]
  }

  /** The switch of format.go:58-68 on the flags of a printable run `s`. */
  function QuoteRun(s: seq<byte>, flags: Flags): (q: seq<byte>)
  {
    if flags == {} then s
    else if SQuote !in flags then [Bytes.Apostrophe] + s + [Bytes.Apostrophe]
    else if Runs.Backtick !in flags then [Bytes.Backtick] + s + [Bytes.Backtick]
    else if DQuote !in flags && Runs.Backslash !in flags then [Bytes.Quote] + s + [Bytes.Quote]
    else GoQuote(s)
  }

  /** How a reader of the display strips the quoting off again. */
  function Unquote(q: seq<byte>): seq<byte>
  {
    if |q| >= 2 && (q[0] == Bytes.Apostrophe || q[0] == Bytes.Backtick) && q[|q| - 1] == q[0] then q[1..|q| - 1]
    else if |q| >= 2 && q[0] == Bytes.Quote && q[|q| - 1] == Bytes.Quote then Unescape(q[1..|q| - 1])
    else q
  }

  lemma {:induction false} EscapeRoundTrip(s: seq<byte>)
    ensures Unescape(Escape(s)) == s
  {
    if s != [] {
      EscapeRoundTrip(s[1..]);
      var e := Escape(s);
      if s[0] == Bytes.Quote || s[0] == Bytes.Backslash {
        assert e[2..] == Escape(s[1..]);
      } else {
        assert e[1..] == Escape(s[1..]);
      }
      assert s == [s[0]] + s[1..];
    }
  }

  /** A string without backslashes is its own unescaping. */
  lemma {:induction false} UnescapePlain(s: seq<byte>)
    requires Bytes.Backslash !in s
    ensures Unescape(s) == s
  {
    if s != [] {
      UnescapePlain(s[1..]);
      assert s == [s[0]] + s[1..];
    }
  }

  /**
   * Quoting is unambiguous: whichever style the flags select, the run reads
   * back unchanged. In particular a bare run never starts with a quote, and
   * a run is only delimited by a character it does not contain.
   */
  lemma QuoteRoundTrip(s: seq<byte>, flags: Flags)
    requires FlagsOf(s, flags)
    ensures Unquote(QuoteRun(s, flags)) == s
  {
    var q := QuoteRun(s, flags);
    if flags == {} {
      if |s| >= 2 {
        assert FlagChar(SQuote) !in s && FlagChar(Runs.Backtick) !in s && FlagChar(DQuote) !in s;
        assert s[0] in s;
      }
    } else if SQuote !in flags {
      assert q[1..|q| - 1] == s;
    } else if Runs.Backtick !in flags {
      assert q[1..|q| - 1] == s;
    } else if DQuote !in flags && Runs.Backslash !in flags {
      assert q[1..|q| - 1] == s;
      assert FlagChar(Runs.Backslash) !in s;
      UnescapePlain(s);
    } else {
      assert q[1..|q| - 1] == Escape(s);
      EscapeRoundTrip(s);
    }
  }

  /** A run is left bare exactly when it holds none of the five flagged characters. */
  lemma QuoteBareIff(s: seq<byte>, flags: Flags)
    requires FlagsOf(s, flags)
    ensures QuoteRun(s, flags) == s <==> forall f :: FlagChar(f) !in s
  {
    if flags != {} {
      var f :| f in flags;
      assert FlagChar(f) in s;
      assert |QuoteRun(s, flags)| > |s|;
    }
  }

  /**
   * A run with no flag stays as it is; any other is wrapped in a pair of
   * delimiters: `'` when the flags say the run holds no `'`, else `` ` ``
   * when it holds no `` ` ``, else `"` (format.go:58-68).
   */
  lemma QuoteDelimiters(s: seq<byte>, flags: Flags)
    ensures var q := QuoteRun(s, flags);
      && (flags == {} ==> q == s)
      && (flags != {} ==> |q| >= |s| + 2 && q[0] == q[|q| - 1] && q[0] in {Bytes.Apostrophe, Bytes.Backtick, Bytes.Quote})
      && (flags != {} && q[0] == Bytes.Apostrophe ==> SQuote !in flags)
      && (flags != {} && q[0] == Bytes.Backtick ==> SQuote in flags && Runs.Backtick !in flags)
      && (flags != {} && q[0] == Bytes.Quote ==> SQuote in flags && Runs.Backtick in flags)
  {
  }
}

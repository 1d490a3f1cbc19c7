/**
 * The table of utils_test.go:7-100 as lemmas: what `formatName(in)` (the
 * one-argument form the test calls, which is `stringifyName`) shows for
 * each input. Only what `unicode.IsPrint` says about ASCII is assumed.
 */
module Examples {

  import opened Bytes
  import opened Runs
  import opened Quoting
  import opened Tokenizer
  import opened Format

  /** The display the test expects of `in`. */
  predicate Shows(isPrint: PrintPredicate, name: seq<byte>, out: seq<byte>)
  {
    Display(FormattedName(isPrint, name, true)) == out
  }

  /** A run of ASCII graphic characters and spaces is printable to its end. */
  lemma {:induction false} AsciiRun(isPrint: PrintPredicate, b: seq<byte>, i: nat)
    requires AsciiPrintFacts(isPrint) && i <= |b|
    requires forall k :: i <= k < |b| ==> 0x20 <= b[k] <= 0x7E
    ensures PrintableEnd(isPrint, b, i) == |b|
    decreases |b| - i
  {
    if i < |b| {
      assert PrintableAt(isPrint, b, i);
      AsciiRun(isPrint, b, i + 1);
    }
  }

  /** A name of ASCII graphic characters and spaces is one Text token. */
  lemma AsciiName(isPrint: PrintPredicate, name: seq<byte>)
    requires AsciiPrintFacts(isPrint) && |name| > 0
    requires forall k :: 0 <= k < |name| ==> 0x20 <= name[k] <= 0x7E
    ensures Display(FormattedName(isPrint, name, true)) == QuoteRun(name, FlagsOfRun(name))
  {
    AsciiRun(isPrint, name, 0);
    TokenizePrintable(isPrint, name, true);
    assert RenderAll([Text(QuoteRun(name, FlagsOfRun(name)))]) == [QuoteRun(name, FlagsOfRun(name))];
  }

  /** Every byte of `s` is an ASCII graphic character or a space. */
  predicate Graphic(s: seq<byte>)
  {
    forall k :: 0 <= k < |s| ==> 0x20 <= s[k] <= 0x7E
  }

  /** `flags` holds exactly the flags whose character occurs in `s`. */
  predicate FlagsFor(s: seq<byte>, flags: Flags)
  {
    && (DQuote in flags <==> Bytes.Quote in s) && (SQuote in flags <==> Apostrophe in s)
    && (Runs.Backtick in flags <==> Bytes.Backtick in s) && (Runs.Backslash in flags <==> Bytes.Backslash in s)
    && (Space in flags <==> Bytes.Space in s)
  }

  /** The flags of a run are those whose character it contains. */
  lemma FlagsOfRunIs(s: seq<byte>, flags: Flags)
    requires FlagsFor(s, flags)
    ensures FlagsOfRun(s) == flags
  {
    forall f | true
      ensures f in FlagsOfRun(s) <==> f in flags
    {
      if FlagChar(f) in s {
        var k :| 0 <= k < |s| && s[k] == FlagChar(f);
        assert Occurs(s, FlagChar(f), 0, |s|);
      }
    }
  }

  /** A run of letters contains no quoting character, so stringify mode leaves it bare. */
  lemma PlainText(s: seq<byte>)
    requires forall k :: 0 <= k < |s| ==> 0x41 <= s[k] <= 0x5A || 0x61 <= s[k] <= 0x7A
    ensures RunText(s, true) == s
  {
    FlagsOfRunIs(s, {});
  }

  /** A byte that is a control character or cannot start a UTF-8 encoding: an unprintable rune of one byte. */
  predicate UnprintableByte(c: byte)
  {
    c < 0x20 || c == 0x7F || (0x80 <= c < 0xC2) || 0xF4 < c
  }

  /** A printable run of ASCII bytes `b[i..j]` followed by the end or an unprintable byte. */
  lemma {:induction false} PrintableRunIs(isPrint: PrintPredicate, b: seq<byte>, i: nat, j: nat)
    requires AsciiPrintFacts(isPrint) && i <= j <= |b|
    requires forall k :: i <= k < j ==> 0x20 <= b[k] <= 0x7E
    requires j == |b| || UnprintableByte(b[j])
    ensures PrintableEnd(isPrint, b, i) == j
    decreases j - i
  {
    if i < j {
      assert PrintableAt(isPrint, b, i);
      PrintableRunIs(isPrint, b, i + 1, j);
    } else if j < |b| {
      assert !PrintableAt(isPrint, b, j);
    }
  }

  /** An unprintable run of single bytes `b[i..j]` followed by the end or an ASCII printable byte. */
  lemma {:induction false} UnprintableRunIs(isPrint: PrintPredicate, b: seq<byte>, i: nat, j: nat)
    requires AsciiPrintFacts(isPrint) && i <= j <= |b|
    requires forall k :: i <= k < j ==> UnprintableByte(b[k])
    requires j == |b| || 0x20 <= b[j] <= 0x7E
    ensures UnprintableEnd(isPrint, b, i) == j
    decreases j - i
  {
    if i < j {
      assert !PrintableAt(isPrint, b, i);
      UnprintableRunIs(isPrint, b, i + 1, j);
    } else if j < |b| {
      assert PrintableAt(isPrint, b, j);
    }
  }

  /**
   * A name of ASCII graphic characters and spaces whose quoting characters
   * are `flags` is shown as `QuoteRun` quotes it.
   */
  lemma ShowsQuoted(isPrint: PrintPredicate, name: seq<byte>, flags: Flags, out: seq<byte>)
    requires AsciiPrintFacts(isPrint) && |name| > 0
    requires Graphic(name) && FlagsFor(name, flags)
    requires QuoteRun(name, flags) == out
    ensures Shows(isPrint, name, out)
  {
    AsciiName(isPrint, name);
    FlagsOfRunIs(name, flags);
  }

  /** A pass of the loop that meets an unprintable run `b[j..k]` after the printable run `b[i..j]`. */
  lemma StepTo(isPrint: PrintPredicate, b: seq<byte>, stringify: bool, i: nat, j: nat, k: nat, r: seq<Token>, r': seq<Token>)
    requires i <= j < |b| && EndsBinary(r)
    requires PrintableEnd(isPrint, b, i) == j && UnprintableEnd(isPrint, b, j) == k && k <= |b|
    requires r' == WithUnprintable(WithPrintable(b, stringify, i, j, r), b[j..k])
    ensures TokenizeFrom(isPrint, b, stringify, i, r) == TokenizeFrom(isPrint, b, stringify, k, r')
  {
    assert Iteration(isPrint, b, stringify, i, r) == State(k, r');
  }

  /**
   * A pass of the loop over a printable run `text` of three bytes or more
   * that stringify mode leaves bare, followed by the unprintable run `bin`.
   */
  lemma TextStep(isPrint: PrintPredicate, b: seq<byte>, i: nat, j: nat, k: nat, r: seq<Token>, text: seq<byte>, bin: seq<byte>)
    requires i + 3 <= j < k <= |b| && EndsBinary(r)
    requires PrintableEnd(isPrint, b, i) == j && UnprintableEnd(isPrint, b, j) == k
    requires b[i..j] == text && b[j..k] == bin && RunText(text, true) == text
    ensures TokenizeFrom(isPrint, b, true, i, r) == TokenizeFrom(isPrint, b, true, k, r + [Text(text), Binary(bin)])
  {
    StepTo(isPrint, b, true, i, j, k, r, r + [Text(text), Binary(bin)]);
  }

  /** The last pass of the loop, whose printable run reaches the end of the name. */
  lemma LastStep(isPrint: PrintPredicate, b: seq<byte>, stringify: bool, i: nat, r: seq<Token>, r': seq<Token>)
    requires i < |b| && EndsBinary(r) && PrintableEnd(isPrint, b, i) == |b|
    requires r' == WithPrintable(b, stringify, i, |b|, r)
    ensures TokenizeFrom(isPrint, b, stringify, i, r) == r'
  {
    assert Iteration(isPrint, b, stringify, i, r) == State(|b|, r');
  }

  // utils_test.go:13: "str" is shown bare
  lemma ShowsStr(isPrint: PrintPredicate)
    requires AsciiPrintFacts(isPrint)
    ensures Shows(isPrint, [0x73, 0x74, 0x72], [0x73, 0x74, 0x72])
  {
    ShowsQuoted(isPrint, [0x73, 0x74, 0x72], {}, [0x73, 0x74, 0x72]);
  }

  // utils_test.go:14: a space alone selects single quotes, "foo bar" is shown as 'foo bar'
  lemma ShowsFooBar(isPrint: PrintPredicate)
    requires AsciiPrintFacts(isPrint)
    ensures Shows(isPrint, [0x66, 0x6F, 0x6F, 0x20, 0x62, 0x61, 0x72], [0x27, 0x66, 0x6F, 0x6F, 0x20, 0x62, 0x61, 0x72, 0x27])
  {
    ShowsQuoted(isPrint, [0x66, 0x6F, 0x6F, 0x20, 0x62, 0x61, 0x72], {Space}, [0x27, 0x66, 0x6F, 0x6F, 0x20, 0x62, 0x61, 0x72, 0x27]);
  }

  // utils_test.go:19: "A'B" is shown as `A'B`
  lemma ShowsApostrophe(isPrint: PrintPredicate)
    requires AsciiPrintFacts(isPrint)
    ensures Shows(isPrint, [0x41, 0x27, 0x42], [0x60, 0x41, 0x27, 0x42, 0x60])
  {
    ShowsQuoted(isPrint, [0x41, 0x27, 0x42], {SQuote}, [0x60, 0x41, 0x27, 0x42, 0x60]);
  }

  // utils_test.go:20: "A'B\"" is shown as `A'B"`
  lemma ShowsApostropheQuote(isPrint: PrintPredicate)
    requires AsciiPrintFacts(isPrint)
    ensures Shows(isPrint, [0x41, 0x27, 0x42, 0x22], [0x60, 0x41, 0x27, 0x42, 0x22, 0x60])
  {
    ShowsQuoted(isPrint, [0x41, 0x27, 0x42, 0x22], {SQuote, DQuote}, [0x60, 0x41, 0x27, 0x42, 0x22, 0x60]);
  }

  // utils_test.go:21: all three delimiters occur in " ' ` \" ", so `%q`
  // quotes it and escapes the `"`
  lemma ShowsAllDelimiters(isPrint: PrintPredicate)
    requires AsciiPrintFacts(isPrint)
    ensures Shows(isPrint, [0x20, 0x27, 0x20, 0x60, 0x20, 0x22, 0x20], [0x22, 0x20, 0x27, 0x20, 0x60, 0x20, 0x5C, 0x22, 0x20, 0x22])
  {
    QuotedAllDelimiters();
    FlagsAllDelimiters();
    ShowsQuoted(isPrint, [0x20, 0x27, 0x20, 0x60, 0x20, 0x22, 0x20], {Space, SQuote, Runs.Backtick, DQuote},
      [0x22, 0x20, 0x27, 0x20, 0x60, 0x20, 0x5C, 0x22, 0x20, 0x22]);
  }

  /** The quoting characters of the name of utils_test.go:21. */
  lemma FlagsAllDelimiters()
    ensures Graphic([0x20, 0x27, 0x20, 0x60, 0x20, 0x22, 0x20])
    ensures FlagsFor([0x20, 0x27, 0x20, 0x60, 0x20, 0x22, 0x20], {Space, SQuote, Runs.Backtick, DQuote})
  {
    var s: seq<byte> := [0x20, 0x27, 0x20, 0x60, 0x20, 0x22, 0x20];
    assert s[0] == Bytes.Space && s[1] == Apostrophe && s[3] == Bytes.Backtick && s[5] == Bytes.Quote;
  }

  /** The `%q` quoting of the name of utils_test.go:21. */
  lemma QuotedAllDelimiters()
    ensures QuoteRun([0x20, 0x27, 0x20, 0x60, 0x20, 0x22, 0x20], {Space, SQuote, Runs.Backtick, DQuote})
      == [0x22, 0x20, 0x27, 0x20, 0x60, 0x20, 0x5C, 0x22, 0x20, 0x22]
  {
    assert Escape([0x20, 0x27, 0x20, 0x60, 0x20, 0x22, 0x20]) == [0x20, 0x27, 0x20, 0x60, 0x20, 0x5C, 0x22, 0x20];
  }

  // utils_test.go:43-44: the empty name is shown as []
  lemma ShowsEmpty(isPrint: PrintPredicate)
    ensures Shows(isPrint, [], [0x5B, 0x5D])
  {
    DisplayEmpty(isPrint, true);
  }

  // utils_test.go:47: {0, 1, 2} is shown as 0x[000102]
  lemma ShowsThreeControls(isPrint: PrintPredicate)
    requires AsciiPrintFacts(isPrint)
    ensures Shows(isPrint, [0, 1, 2], [0x30, 0x78, 0x5B, 0x30, 0x30, 0x30, 0x31, 0x30, 0x32, 0x5D])
  {
    var n: seq<byte> := [0, 1, 2];
    UnprintableRunIs(isPrint, n, 0, 3);
    DisplayUnprintable(isPrint, n, true);
    assert Hex(n) == [0x30, 0x30, 0x30, 0x31, 0x30, 0x32];
  }

  // utils_test.go:49: 0x80 does not decode, 0x7F is a control, and the
  // printable "~}" after them is folded into the Binary token: 0x[807f7e7d]
  lemma ShowsHighBytes(isPrint: PrintPredicate)
    requires AsciiPrintFacts(isPrint)
    ensures Shows(isPrint, [128, 127, 126, 125], [0x30, 0x78, 0x5B, 0x38, 0x30, 0x37, 0x66, 0x37, 0x65, 0x37, 0x64, 0x5D])
  {
    TokensHighBytes(isPrint);
    RenderedHighBytes();
    ShowsOne(isPrint, [128, 127, 126, 125], Binary([128, 127, 126, 125]), [0x30, 0x78, 0x5B, 0x38, 0x30, 0x37, 0x66, 0x37, 0x65, 0x37, 0x64, 0x5D]);
  }

  /** The token string of the name of utils_test.go:49. */
  lemma RenderedHighBytes()
    ensures Render(Binary([128, 127, 126, 125])) == [0x30, 0x78, 0x5B, 0x38, 0x30, 0x37, 0x66, 0x37, 0x65, 0x37, 0x64, 0x5D]
  {
    assert Hex([128, 127, 126, 125]) == [0x38, 0x30, 0x37, 0x66, 0x37, 0x65, 0x37, 0x64];
  }

  /** The tokens of the name of utils_test.go:49. */
  lemma TokensHighBytes(isPrint: PrintPredicate)
    requires AsciiPrintFacts(isPrint)
    ensures Tokenize(isPrint, [128, 127, 126, 125], true) == [Binary([128, 127, 126, 125])]
  {
    var n: seq<byte> := [128, 127, 126, 125];
    PrintableRunIs(isPrint, n, 0, 0);
    UnprintableRunIs(isPrint, n, 0, 2);
    PrintableRunIs(isPrint, n, 2, 4);
    assert n[0..2] == [128, 127] && n[2..4] == [126, 125];
    var r1 := [Binary([128, 127])];
    StepTo(isPrint, n, true, 0, 0, 2, [], r1);
    assert [128, 127] + n[2..4] == n;
    LastStep(isPrint, n, true, 2, r1, [Binary(n)]);
  }

  /** A name of one token is shown as that token's string. */
  lemma ShowsOne(isPrint: PrintPredicate, name: seq<byte>, t: Token, out: seq<byte>)
    requires Tokenize(isPrint, name, true) == [t]
    requires Render(t) == out
    ensures Shows(isPrint, name, out)
  {
    assert RenderAll([t]) == [Render(t)];
  }

  /** How two tokens are displayed: `[`, their strings joined by `, `, `]`. */
  lemma DisplayTwo(r: seq<Token>)
    requires |r| == 2
    ensures Display(RenderAll(r)) == LeftBracket + Render(r[0]) + CommaSpace + Render(r[1]) + RightBracket
  {
    RenderAllTokens(r);
    var p := RenderAll(r);
    assert p[1..] == [Render(r[1])];
    assert Join(p, CommaSpace) == p[0] + CommaSpace + p[1];
    ConcatAssoc(LeftBracket, p[0] + CommaSpace, p[1]);
    ConcatAssoc(LeftBracket, p[0], CommaSpace);
  }

  /** How three tokens are displayed. */
  lemma DisplayThree(r: seq<Token>)
    requires |r| == 3
    ensures Display(RenderAll(r)) == LeftBracket + Render(r[0]) + CommaSpace + Render(r[1]) + CommaSpace + Render(r[2]) + RightBracket
  {
    RenderAllTokens(r);
    var p := RenderAll(r);
    assert p[1..][1..] == [Render(r[2])];
    assert Join(p[1..], CommaSpace) == p[1] + CommaSpace + p[2];
    assert Join(p, CommaSpace) == p[0] + CommaSpace + (p[1] + CommaSpace + p[2]);
    var a := LeftBracket + p[0] + CommaSpace;
    ConcatAssoc(LeftBracket, p[0], CommaSpace);
    ConcatAssoc(LeftBracket, p[0] + CommaSpace, p[1] + CommaSpace + p[2]);
    ConcatAssoc(a, p[1] + CommaSpace, p[2]);
    ConcatAssoc(a, p[1], CommaSpace);
  }

  /** A name of two tokens is shown as `[`, their strings joined by `, `, `]`. */
  lemma ShowsTwo(isPrint: PrintPredicate, name: seq<byte>, t0: Token, t1: Token, out: seq<byte>)
    requires Tokenize(isPrint, name, true) == [t0, t1]
    requires LeftBracket + Render(t0) + CommaSpace + Render(t1) + RightBracket == out
    ensures Shows(isPrint, name, out)
  {
    DisplayTwo([t0, t1]);
  }

  /** A name of three tokens is shown likewise. */
  lemma ShowsThree(isPrint: PrintPredicate, name: seq<byte>, t0: Token, t1: Token, t2: Token, out: seq<byte>)
    requires Tokenize(isPrint, name, true) == [t0, t1, t2]
    requires LeftBracket + Render(t0) + CommaSpace + Render(t1) + CommaSpace + Render(t2) + RightBracket == out
    ensures Shows(isPrint, name, out)
  {
    DisplayThree([t0, t1, t2]);
  }

  // utils_test.go:72: "B" then {255, 254}, and the short run "A" folded
  // into the Binary token: [B, 0x[fffe41]]
  lemma ShowsFoldAfterText(isPrint: PrintPredicate)
    requires AsciiPrintFacts(isPrint)
    ensures Shows(isPrint, [0x42, 255, 254, 0x41], [0x5B, 0x42, 0x2C, 0x20, 0x30, 0x78, 0x5B, 0x66, 0x66, 0x66, 0x65, 0x34, 0x31, 0x5D, 0x5D])
  {
    TokensFoldAfterText(isPrint);
    RenderedFoldAfterText();
    ShowsTwo(isPrint, [0x42, 255, 254, 0x41], Text([0x42]), Binary([255, 254, 0x41]), [0x5B, 0x42, 0x2C, 0x20, 0x30, 0x78, 0x5B, 0x66, 0x66, 0x66, 0x65, 0x34, 0x31, 0x5D, 0x5D]);
  }

  /** Where the runs of the name of utils_test.go:72 end. */
  lemma RunsFoldAfterText(isPrint: PrintPredicate)
    requires AsciiPrintFacts(isPrint)
    ensures var n: seq<byte> := [0x42, 255, 254, 0x41];
      PrintableEnd(isPrint, n, 0) == 1 && UnprintableEnd(isPrint, n, 1) == 3 && PrintableEnd(isPrint, n, 3) == 4
  {
    var n: seq<byte> := [0x42, 255, 254, 0x41];
    PrintableRunIs(isPrint, n, 0, 1);
    UnprintableRunIs(isPrint, n, 1, 3);
    PrintableRunIs(isPrint, n, 3, 4);
  }

  /** The tokens of the name of utils_test.go:72. */
  lemma TokensFoldAfterText(isPrint: PrintPredicate)
    requires AsciiPrintFacts(isPrint)
    ensures Tokenize(isPrint, [0x42, 255, 254, 0x41], true) == [Text([0x42]), Binary([255, 254, 0x41])]
  {
    FirstPassFoldAfterText(isPrint);
    LastPassFoldAfterText(isPrint);
  }

  /** The first pass of the loop over the name of utils_test.go:72. */
  lemma FirstPassFoldAfterText(isPrint: PrintPredicate)
    requires AsciiPrintFacts(isPrint)
    ensures var n: seq<byte> := [0x42, 255, 254, 0x41];
      TokenizeFrom(isPrint, n, true, 0, []) == TokenizeFrom(isPrint, n, true, 3, [Text([0x42]), Binary([255, 254])])
  {
    var n: seq<byte> := [0x42, 255, 254, 0x41];
    RunsFoldAfterText(isPrint);
    assert n[0..1] == [0x42] && n[1..3] == [255, 254];
    PlainText([0x42]);
    StepTo(isPrint, n, true, 0, 1, 3, [], [Text([0x42]), Binary([255, 254])]);
  }

  /** The last pass of the loop over the name of utils_test.go:72: "A" is folded into the Binary token. */
  lemma LastPassFoldAfterText(isPrint: PrintPredicate)
    requires AsciiPrintFacts(isPrint)
    ensures var n: seq<byte> := [0x42, 255, 254, 0x41];
      TokenizeFrom(isPrint, n, true, 3, [Text([0x42]), Binary([255, 254])]) == [Text([0x42]), Binary([255, 254, 0x41])]
  {
    var n: seq<byte> := [0x42, 255, 254, 0x41];
    RunsFoldAfterText(isPrint);
    assert n[3..4] == [0x41];
    assert [255, 254] + n[3..4] == [255, 254, 0x41];
    LastStep(isPrint, n, true, 3, [Text([0x42]), Binary([255, 254])], [Text([0x42]), Binary([255, 254, 0x41])]);
  }

  /** The token strings of the name of utils_test.go:72, bracketed. */
  lemma RenderedFoldAfterText()
    ensures LeftBracket + Render(Text([0x42])) + CommaSpace + Render(Binary([255, 254, 0x41])) + RightBracket
      == [0x5B, 0x42, 0x2C, 0x20, 0x30, 0x78, 0x5B, 0x66, 0x66, 0x66, 0x65, 0x34, 0x31, 0x5D, 0x5D]
  {
  }

  // utils_test.go:74: a run of three printable bytes "ABd" stays a Text
  // token: [D, 0x[fffe], ABd]
  lemma ShowsTextAfterBinary(isPrint: PrintPredicate)
    requires AsciiPrintFacts(isPrint)
    ensures Shows(isPrint, [0x44, 255, 254, 0x41, 0x42, 0x64], [0x5B, 0x44, 0x2C, 0x20, 0x30, 0x78, 0x5B, 0x66, 0x66, 0x66, 0x65, 0x5D, 0x2C, 0x20, 0x41, 0x42, 0x64, 0x5D])
  {
    TokensTextAfterBinary(isPrint);
    RenderedTextAfterBinary();
    ShowsThree(isPrint, [0x44, 255, 254, 0x41, 0x42, 0x64], Text([0x44]), Binary([255, 254]), Text([0x41, 0x42, 0x64]), [0x5B, 0x44, 0x2C, 0x20, 0x30, 0x78, 0x5B, 0x66, 0x66, 0x66, 0x65, 0x5D, 0x2C, 0x20, 0x41, 0x42, 0x64, 0x5D]);
  }

  /** Where the runs of the name of utils_test.go:74 end. */
  lemma RunsTextAfterBinary(isPrint: PrintPredicate)
    requires AsciiPrintFacts(isPrint)
    ensures var n: seq<byte> := [0x44, 255, 254, 0x41, 0x42, 0x64];
      PrintableEnd(isPrint, n, 0) == 1 && UnprintableEnd(isPrint, n, 1) == 3 && PrintableEnd(isPrint, n, 3) == 6
  {
    var n: seq<byte> := [0x44, 255, 254, 0x41, 0x42, 0x64];
    PrintableRunIs(isPrint, n, 0, 1);
    UnprintableRunIs(isPrint, n, 1, 3);
    PrintableRunIs(isPrint, n, 3, 6);
  }

  /** The tokens of the name of utils_test.go:74. */
  lemma TokensTextAfterBinary(isPrint: PrintPredicate)
    requires AsciiPrintFacts(isPrint)
    ensures Tokenize(isPrint, [0x44, 255, 254, 0x41, 0x42, 0x64], true) == [Text([0x44]), Binary([255, 254]), Text([0x41, 0x42, 0x64])]
  {
    var n: seq<byte> := [0x44, 255, 254, 0x41, 0x42, 0x64];
    PlainText([0x41, 0x42, 0x64]);
    assert n[3..6] == [0x41, 0x42, 0x64];
    RunsTextAfterBinary(isPrint);
    FirstPassTextAfterBinary(isPrint);
    var r1 := [Text([0x44]), Binary([255, 254])];
    LastStep(isPrint, n, true, 3, r1, r1 + [Text([0x41, 0x42, 0x64])]);
  }

  /** The first pass of the loop over the name of utils_test.go:74. */
  lemma FirstPassTextAfterBinary(isPrint: PrintPredicate)
    requires AsciiPrintFacts(isPrint)
    ensures var n: seq<byte> := [0x44, 255, 254, 0x41, 0x42, 0x64];
      TokenizeFrom(isPrint, n, true, 0, []) == TokenizeFrom(isPrint, n, true, 3, [Text([0x44]), Binary([255, 254])])
  {
    var n: seq<byte> := [0x44, 255, 254, 0x41, 0x42, 0x64];
    RunsTextAfterBinary(isPrint);
    assert n[0..1] == [0x44] && n[1..3] == [255, 254];
    PlainText([0x44]);
    StepTo(isPrint, n, true, 0, 1, 3, [], [Text([0x44]), Binary([255, 254])]);
  }

  /** The token strings of the name of utils_test.go:74, bracketed. */
  lemma RenderedTextAfterBinary()
    ensures LeftBracket + Render(Text([0x44])) + CommaSpace + Render(Binary([255, 254])) + CommaSpace + Render(Text([0x41, 0x42, 0x64])) + RightBracket
      == [0x5B, 0x44, 0x2C, 0x20, 0x30, 0x78, 0x5B, 0x66, 0x66, 0x66, 0x65, 0x5D, 0x2C, 0x20, 0x41, 0x42, 0x64, 0x5D]
  {
  }

  // utils_test.go:82: {2, 3}, "ABC", {4, 5} is shown as [0x[0203], ABC, 0x[0405]]
  lemma ShowsTextBetweenBinary(isPrint: PrintPredicate)
    requires AsciiPrintFacts(isPrint)
    ensures Shows(isPrint, [2, 3, 0x41, 0x42, 0x43, 4, 5], [0x5B, 0x30, 0x78, 0x5B, 0x30, 0x32, 0x30, 0x33, 0x5D, 0x2C, 0x20, 0x41, 0x42, 0x43, 0x2C, 0x20, 0x30, 0x78, 0x5B, 0x30, 0x34, 0x30, 0x35, 0x5D, 0x5D])
  {
    TokensTextBetweenBinary(isPrint);
    RenderedTextBetweenBinary();
    ShowsThree(isPrint, [2, 3, 0x41, 0x42, 0x43, 4, 5], Binary([2, 3]), Text([0x41, 0x42, 0x43]), Binary([4, 5]), [0x5B, 0x30, 0x78, 0x5B, 0x30, 0x32, 0x30, 0x33, 0x5D, 0x2C, 0x20, 0x41, 0x42, 0x43, 0x2C, 0x20, 0x30, 0x78, 0x5B, 0x30, 0x34, 0x30, 0x35, 0x5D, 0x5D]);
  }

  /** Where the runs of the name of utils_test.go:82 end. */
  lemma RunsTextBetweenBinary(isPrint: PrintPredicate)
    requires AsciiPrintFacts(isPrint)
    ensures var n: seq<byte> := [2, 3, 0x41, 0x42, 0x43, 4, 5];
      && PrintableEnd(isPrint, n, 0) == 0 && UnprintableEnd(isPrint, n, 0) == 2
      && PrintableEnd(isPrint, n, 2) == 5 && UnprintableEnd(isPrint, n, 5) == 7
  {
    var n: seq<byte> := [2, 3, 0x41, 0x42, 0x43, 4, 5];
    PrintableRunIs(isPrint, n, 0, 0);
    UnprintableRunIs(isPrint, n, 0, 2);
    PrintableRunIs(isPrint, n, 2, 5);
    UnprintableRunIs(isPrint, n, 5, 7);
  }

  /** The tokens of the name of utils_test.go:82. */
  lemma TokensTextBetweenBinary(isPrint: PrintPredicate)
    requires AsciiPrintFacts(isPrint)
    ensures Tokenize(isPrint, [2, 3, 0x41, 0x42, 0x43, 4, 5], true) == [Binary([2, 3]), Text([0x41, 0x42, 0x43]), Binary([4, 5])]
  {
    FirstPassTextBetweenBinary(isPrint);
    SecondPassTextBetweenBinary(isPrint);
  }

  /** The second and last pass of the loop over the name of utils_test.go:82. */
  lemma SecondPassTextBetweenBinary(isPrint: PrintPredicate)
    requires AsciiPrintFacts(isPrint)
    ensures var n: seq<byte> := [2, 3, 0x41, 0x42, 0x43, 4, 5];
      TokenizeFrom(isPrint, n, true, 2, [Binary([2, 3])]) == [Binary([2, 3]), Text([0x41, 0x42, 0x43]), Binary([4, 5])]
  {
    var n: seq<byte> := [2, 3, 0x41, 0x42, 0x43, 4, 5];
    PlainText([0x41, 0x42, 0x43]);
    RunsTextBetweenBinary(isPrint);
    TextStep(isPrint, n, 2, 5, 7, [Binary([2, 3])], [0x41, 0x42, 0x43], [4, 5]);
  }

  /** The first pass of the loop over the name of utils_test.go:82. */
  lemma FirstPassTextBetweenBinary(isPrint: PrintPredicate)
    requires AsciiPrintFacts(isPrint)
    ensures var n: seq<byte> := [2, 3, 0x41, 0x42, 0x43, 4, 5];
      TokenizeFrom(isPrint, n, true, 0, []) == TokenizeFrom(isPrint, n, true, 2, [Binary([2, 3])])
  {
    var n: seq<byte> := [2, 3, 0x41, 0x42, 0x43, 4, 5];
    RunsTextBetweenBinary(isPrint);
    assert n[0..2] == [2, 3];
    StepTo(isPrint, n, true, 0, 0, 2, [], [Binary([2, 3])]);
  }

  /** The token strings of the name of utils_test.go:82, bracketed. */
  lemma RenderedTextBetweenBinary()
    ensures LeftBracket + Render(Binary([2, 3])) + CommaSpace + Render(Text([0x41, 0x42, 0x43])) + CommaSpace + Render(Binary([4, 5])) + RightBracket
      == [0x5B, 0x30, 0x78, 0x5B, 0x30, 0x32, 0x30, 0x33, 0x5D, 0x2C, 0x20, 0x41, 0x42, 0x43, 0x2C, 0x20, 0x30, 0x78, 0x5B, 0x30, 0x34, 0x30, 0x35, 0x5D, 0x5D]
  {
    BlocksTextBetweenBinary();
  }

  /** The two hex blocks of the name of utils_test.go:82. */
  lemma BlocksTextBetweenBinary()
    ensures Render(Binary([2, 3])) == [0x30, 0x78, 0x5B, 0x30, 0x32, 0x30, 0x33, 0x5D]
    ensures Render(Binary([4, 5])) == [0x30, 0x78, 0x5B, 0x30, 0x34, 0x30, 0x35, 0x5D]
  {
    assert Hex([2, 3]) == [0x30, 0x32, 0x30, 0x33];
    assert Hex([4, 5]) == [0x30, 0x34, 0x30, 0x35];
  }

  // utils_test.go:22-23: with a backslash as well, `%q` escapes both the
  // `"` and the `\`
  lemma ShowsBackslash(isPrint: PrintPredicate)
    requires AsciiPrintFacts(isPrint)
    ensures Shows(isPrint, [0x20, 0x27, 0x20, 0x60, 0x20, 0x22, 0x20, 0x5C, 0x20],
      [0x22, 0x20, 0x27, 0x20, 0x60, 0x20, 0x5C, 0x22, 0x20, 0x5C, 0x5C, 0x20, 0x22])
  {
    QuotedBackslash();
    FlagsBackslash();
    ShowsQuoted(isPrint, [0x20, 0x27, 0x20, 0x60, 0x20, 0x22, 0x20, 0x5C, 0x20], {Space, SQuote, Runs.Backtick, DQuote, Runs.Backslash},
      [0x22, 0x20, 0x27, 0x20, 0x60, 0x20, 0x5C, 0x22, 0x20, 0x5C, 0x5C, 0x20, 0x22]);
  }

  /** The quoting characters of the name of utils_test.go:22-23. */
  lemma FlagsBackslash()
    ensures Graphic([0x20, 0x27, 0x20, 0x60, 0x20, 0x22, 0x20, 0x5C, 0x20])
    ensures FlagsFor([0x20, 0x27, 0x20, 0x60, 0x20, 0x22, 0x20, 0x5C, 0x20], {Space, SQuote, Runs.Backtick, DQuote, Runs.Backslash})
  {
    var s: seq<byte> := [0x20, 0x27, 0x20, 0x60, 0x20, 0x22, 0x20, 0x5C, 0x20];
    assert s[0] == Bytes.Space && s[1] == Apostrophe && s[3] == Bytes.Backtick && s[5] == Bytes.Quote && s[7] == Bytes.Backslash;
  }

  /** The `%q` quoting of the name of utils_test.go:22-23. */
  lemma QuotedBackslash()
    ensures QuoteRun([0x20, 0x27, 0x20, 0x60, 0x20, 0x22, 0x20, 0x5C, 0x20], {Space, SQuote, Runs.Backtick, DQuote, Runs.Backslash})
      == [0x22, 0x20, 0x27, 0x20, 0x60, 0x20, 0x5C, 0x22, 0x20, 0x5C, 0x5C, 0x20, 0x22]
  {
    EscapedBackslash();
  }

  /** The escaping inside that quoting: the `"` and the `\` each get a backslash. */
  lemma EscapedBackslash()
    ensures Escape([0x20, 0x27, 0x20, 0x60, 0x20, 0x22, 0x20, 0x5C, 0x20])
      == [0x20, 0x27, 0x20, 0x60, 0x20, 0x5C, 0x22, 0x20, 0x5C, 0x5C, 0x20]
  {
    var x: seq<byte>, y: seq<byte> := [0x20, 0x27, 0x20, 0x60, 0x20], [0x22, 0x20, 0x5C, 0x20];
    EscapedDelimiters();
    EscapedQuoteAndBackslash();
    EscapeAppend(x, y);
    assert x + y == [0x20, 0x27, 0x20, 0x60, 0x20, 0x22, 0x20, 0x5C, 0x20];
    assert x + [0x5C, 0x22, 0x20, 0x5C, 0x5C, 0x20] == [0x20, 0x27, 0x20, 0x60, 0x20, 0x5C, 0x22, 0x20, 0x5C, 0x5C, 0x20];
  }

  /** Spaces, apostrophes and backticks are not escaped. */
  lemma EscapedDelimiters()
    ensures Escape([0x20, 0x27, 0x20, 0x60, 0x20]) == [0x20, 0x27, 0x20, 0x60, 0x20]
  {
    assert Escape([0x60, 0x20]) == [0x60, 0x20];
  }

  /** The `"` and the `\` each get a backslash in front. */
  lemma EscapedQuoteAndBackslash()
    ensures Escape([0x22, 0x20, 0x5C, 0x20]) == [0x5C, 0x22, 0x20, 0x5C, 0x5C, 0x20]
  {
    assert Escape([0x5C, 0x20]) == [0x5C, 0x5C, 0x20];
  }

  /** Escaping works byte by byte, so it distributes over concatenation. */
  lemma {:induction false} EscapeAppend(x: seq<byte>, y: seq<byte>)
    ensures Escape(x + y) == Escape(x) + Escape(y)
  {
    if x == [] {
      assert x + y == y;
    } else {
      assert (x + y)[0] == x[0] && (x + y)[1..] == x[1..] + y;
      EscapeAppend(x[1..], y);
      var head := if x[0] == Bytes.Quote || x[0] == Bytes.Backslash then [Bytes.Backslash, x[0]] else [x[0]];
      assert Escape(x + y) == head + (Escape(x[1..]) + Escape(y));
      assert Escape(x) == head + Escape(x[1..]);
    }
  }

  // utils_test.go:71: a short printable run is folded only into a Binary
  // token before it, so a leading "A" stays a Text token: [A, 0x[0000]]
  lemma ShowsShortFirstText(isPrint: PrintPredicate)
    requires AsciiPrintFacts(isPrint)
    ensures Shows(isPrint, [0x41, 0, 0], [0x5B, 0x41, 0x2C, 0x20, 0x30, 0x78, 0x5B, 0x30, 0x30, 0x30, 0x30, 0x5D, 0x5D])
  {
    TokensShortFirstText(isPrint);
    RenderedShortFirstText();
    ShowsTwo(isPrint, [0x41, 0, 0], Text([0x41]), Binary([0, 0]), [0x5B, 0x41, 0x2C, 0x20, 0x30, 0x78, 0x5B, 0x30, 0x30, 0x30, 0x30, 0x5D, 0x5D]);
  }

  /** The tokens of the name of utils_test.go:71. */
  lemma TokensShortFirstText(isPrint: PrintPredicate)
    requires AsciiPrintFacts(isPrint)
    ensures Tokenize(isPrint, [0x41, 0, 0], true) == [Text([0x41]), Binary([0, 0])]
  {
    var n: seq<byte> := [0x41, 0, 0];
    RunsShortFirstText(isPrint);
    assert n[0..1] == [0x41] && n[1..3] == [0, 0];
    PlainText([0x41]);
    StepTo(isPrint, n, true, 0, 1, 3, [], [Text([0x41]), Binary([0, 0])]);
  }

  /** Where the runs of the name of utils_test.go:71 end. */
  lemma RunsShortFirstText(isPrint: PrintPredicate)
    requires AsciiPrintFacts(isPrint)
    ensures var n: seq<byte> := [0x41, 0, 0];
      PrintableEnd(isPrint, n, 0) == 1 && UnprintableEnd(isPrint, n, 1) == 3
  {
    var n: seq<byte> := [0x41, 0, 0];
    PrintableRunIs(isPrint, n, 0, 1);
    UnprintableRunIs(isPrint, n, 1, 3);
  }

  /** The token strings of the name of utils_test.go:71, bracketed. */
  lemma RenderedShortFirstText()
    ensures LeftBracket + Render(Text([0x41])) + CommaSpace + Render(Binary([0, 0])) + RightBracket
      == [0x5B, 0x41, 0x2C, 0x20, 0x30, 0x78, 0x5B, 0x30, 0x30, 0x30, 0x30, 0x5D, 0x5D]
  {
    assert Hex([0, 0]) == [0x30, 0x30, 0x30, 0x30];
  }

  /**
   * The tokens of {0, 1} followed by one or two capital letters
   * (utils_test.go:76-77): the letters are folded into the Binary token.
   */
  lemma TokensFoldAfterBinary(isPrint: PrintPredicate, text: seq<byte>)
    requires AsciiPrintFacts(isPrint) && 1 <= |text| <= 2
    requires forall k :: 0 <= k < |text| ==> 0x41 <= text[k] <= 0x5A
    ensures Tokenize(isPrint, [0, 1] + text, true) == [Binary([0, 1] + text)]
  {
    var n: seq<byte> := [0, 1] + text;
    RunsFoldAfterBinary(isPrint, text);
    assert n[0..2] == [0, 1] && n[2..|n|] == text;
    StepTo(isPrint, n, true, 0, 0, 2, [], [Binary([0, 1])]);
    LastStep(isPrint, n, true, 2, [Binary([0, 1])], [Binary(n)]);
  }

  /** Where the runs of the names of utils_test.go:76-77 end. */
  lemma RunsFoldAfterBinary(isPrint: PrintPredicate, text: seq<byte>)
    requires AsciiPrintFacts(isPrint) && 1 <= |text| <= 2
    requires forall k :: 0 <= k < |text| ==> 0x41 <= text[k] <= 0x5A
    ensures var n: seq<byte> := [0, 1] + text;
      PrintableEnd(isPrint, n, 0) == 0 && UnprintableEnd(isPrint, n, 0) == 2 && PrintableEnd(isPrint, n, 2) == |n|
  {
    var n: seq<byte> := [0, 1] + text;
    PrintableRunIs(isPrint, n, 0, 0);
    UnprintableRunIs(isPrint, n, 0, 2);
    PrintableRunIs(isPrint, n, 2, |n|);
  }

  // utils_test.go:76: {0, 1, 'A'} is shown as 0x[000141]
  lemma ShowsFoldAfterBinary(isPrint: PrintPredicate)
    requires AsciiPrintFacts(isPrint)
    ensures Shows(isPrint, [0, 1, 0x41], [0x30, 0x78, 0x5B, 0x30, 0x30, 0x30, 0x31, 0x34, 0x31, 0x5D])
  {
    TokensFoldAfterBinary(isPrint, [0x41]);
    assert [0, 1] + [0x41] == [0, 1, 0x41];
    RenderedFoldAfterBinary();
    ShowsOne(isPrint, [0, 1, 0x41], Binary([0, 1, 0x41]), [0x30, 0x78, 0x5B, 0x30, 0x30, 0x30, 0x31, 0x34, 0x31, 0x5D]);
  }

  /** The token string of the name of utils_test.go:76. */
  lemma RenderedFoldAfterBinary()
    ensures Render(Binary([0, 1, 0x41])) == [0x30, 0x78, 0x5B, 0x30, 0x30, 0x30, 0x31, 0x34, 0x31, 0x5D]
  {
    HexFoldAfterBinary();
  }

  /** The hexadecimal digits of the bytes of that token. */
  lemma HexFoldAfterBinary()
    ensures Hex([0, 1, 0x41]) == [0x30, 0x30, 0x30, 0x31, 0x34, 0x31]
  {
    assert Hex([0x41]) == [0x34, 0x31];
    assert Hex([1, 0x41]) == [0x30, 0x31, 0x34, 0x31];
  }

  // utils_test.go:77: {0, 1, 'A', 'B'} is shown as 0x[00014142]
  lemma ShowsTwoFoldAfterBinary(isPrint: PrintPredicate)
    requires AsciiPrintFacts(isPrint)
    ensures Shows(isPrint, [0, 1, 0x41, 0x42], [0x30, 0x78, 0x5B, 0x30, 0x30, 0x30, 0x31, 0x34, 0x31, 0x34, 0x32, 0x5D])
  {
    TokensFoldAfterBinary(isPrint, [0x41, 0x42]);
    assert [0, 1] + [0x41, 0x42] == [0, 1, 0x41, 0x42];
    RenderedTwoFoldAfterBinary();
    ShowsOne(isPrint, [0, 1, 0x41, 0x42], Binary([0, 1, 0x41, 0x42]), [0x30, 0x78, 0x5B, 0x30, 0x30, 0x30, 0x31, 0x34, 0x31, 0x34, 0x32, 0x5D]);
  }

  /** The token string of the name of utils_test.go:77. */
  lemma RenderedTwoFoldAfterBinary()
    ensures Render(Binary([0, 1, 0x41, 0x42])) == [0x30, 0x78, 0x5B, 0x30, 0x30, 0x30, 0x31, 0x34, 0x31, 0x34, 0x32, 0x5D]
  {
    HexTwoFoldAfterBinary();
  }

  /** The hexadecimal digits of the bytes of that token. */
  lemma HexTwoFoldAfterBinary()
    ensures Hex([0, 1, 0x41, 0x42]) == [0x30, 0x30, 0x30, 0x31, 0x34, 0x31, 0x34, 0x32]
  {
    assert Hex([0x42]) == [0x34, 0x32];
    assert Hex([0x41, 0x42]) == [0x34, 0x31, 0x34, 0x32];
    assert Hex([1, 0x41, 0x42]) == [0x30, 0x31, 0x34, 0x31, 0x34, 0x32];
  }

  /**
   * The tokens of two control bytes, one or two capital letters and the
   * bytes {3, 4} (utils_test.go:80-81): the letters are folded into the
   * Binary token, and the bytes after them are merged into it too.
   */
  lemma TokensShortTextBetweenBinary(isPrint: PrintPredicate, pre: seq<byte>, text: seq<byte>)
    requires AsciiPrintFacts(isPrint) && |pre| == 2 && pre[0] < 0x20 && pre[1] < 0x20
    requires 1 <= |text| <= 2 && forall k :: 0 <= k < |text| ==> 0x41 <= text[k] <= 0x5A
    ensures Tokenize(isPrint, pre + text + [3, 4], true) == [Binary(pre + text + [3, 4])]
  {
    var n: seq<byte> := pre + text + [3, 4];
    var j := 2 + |text|;
    RunsShortTextBetweenBinary(isPrint, pre, text);
    assert n[0..2] == pre;
    StepTo(isPrint, n, true, 0, 0, 2, [], [Binary(pre)]);
    SecondPassShortTextBetweenBinary(isPrint, pre, text);
  }

  /** Where the runs of the names of utils_test.go:80-81 end. */
  lemma RunsShortTextBetweenBinary(isPrint: PrintPredicate, pre: seq<byte>, text: seq<byte>)
    requires AsciiPrintFacts(isPrint) && |pre| == 2 && pre[0] < 0x20 && pre[1] < 0x20
    requires 1 <= |text| <= 2 && forall k :: 0 <= k < |text| ==> 0x41 <= text[k] <= 0x5A
    ensures var n: seq<byte> := pre + text + [3, 4];
      && PrintableEnd(isPrint, n, 0) == 0 && UnprintableEnd(isPrint, n, 0) == 2
      && PrintableEnd(isPrint, n, 2) == 2 + |text| && UnprintableEnd(isPrint, n, 2 + |text|) == |n|
  {
    var n: seq<byte> := pre + text + [3, 4];
    PrintableRunIs(isPrint, n, 0, 0);
    UnprintableRunIs(isPrint, n, 0, 2);
    PrintableRunIs(isPrint, n, 2, 2 + |text|);
    UnprintableRunIs(isPrint, n, 2 + |text|, |n|);
  }

  /** The second and last pass of the loop over the names of utils_test.go:80-81. */
  lemma SecondPassShortTextBetweenBinary(isPrint: PrintPredicate, pre: seq<byte>, text: seq<byte>)
    requires AsciiPrintFacts(isPrint) && |pre| == 2 && pre[0] < 0x20 && pre[1] < 0x20
    requires 1 <= |text| <= 2 && forall k :: 0 <= k < |text| ==> 0x41 <= text[k] <= 0x5A
    ensures var n: seq<byte> := pre + text + [3, 4];
      TokenizeFrom(isPrint, n, true, 2, [Binary(pre)]) == [Binary(n)]
  {
    var n: seq<byte> := pre + text + [3, 4];
    var j := 2 + |text|;
    RunsShortTextBetweenBinary(isPrint, pre, text);
    assert n[2..j] == text && n[j..|n|] == [3, 4];
    StepTo(isPrint, n, true, 2, j, |n|, [Binary(pre)], [Binary(n)]);
  }

  // utils_test.go:80: {0, 1, 'A', 3, 4} is shown as 0x[0001410304]
  lemma ShowsShortTextBetweenBinary(isPrint: PrintPredicate)
    requires AsciiPrintFacts(isPrint)
    ensures Shows(isPrint, [0, 1, 0x41, 3, 4], [0x30, 0x78, 0x5B, 0x30, 0x30, 0x30, 0x31, 0x34, 0x31, 0x30, 0x33, 0x30, 0x34, 0x5D])
  {
    TokensShortTextBetweenBinary(isPrint, [0, 1], [0x41]);
    assert [0, 1] + [0x41] + [3, 4] == [0, 1, 0x41, 3, 4];
    RenderedShortTextBetweenBinary();
    ShowsOne(isPrint, [0, 1, 0x41, 3, 4], Binary([0, 1, 0x41, 3, 4]),
      [0x30, 0x78, 0x5B, 0x30, 0x30, 0x30, 0x31, 0x34, 0x31, 0x30, 0x33, 0x30, 0x34, 0x5D]);
  }

  /** The token string of the name of utils_test.go:80. */
  lemma RenderedShortTextBetweenBinary()
    ensures Render(Binary([0, 1, 0x41, 3, 4])) == [0x30, 0x78, 0x5B, 0x30, 0x30, 0x30, 0x31, 0x34, 0x31, 0x30, 0x33, 0x30, 0x34, 0x5D]
  {
    HexShortTextBetweenBinary();
  }

  /** The hexadecimal digits of the bytes of that token. */
  lemma HexShortTextBetweenBinary()
    ensures Hex([0, 1, 0x41, 3, 4]) == [0x30, 0x30, 0x30, 0x31, 0x34, 0x31, 0x30, 0x33, 0x30, 0x34]
  {
    assert Hex([4]) == [0x30, 0x34];
    assert Hex([3, 4]) == [0x30, 0x33, 0x30, 0x34];
    assert Hex([0x41, 3, 4]) == [0x34, 0x31, 0x30, 0x33, 0x30, 0x34];
    assert Hex([1, 0x41, 3, 4]) == [0x30, 0x31, 0x34, 0x31, 0x30, 0x33, 0x30, 0x34];
  }

  // utils_test.go:81: {1, 2, 'A', 'B', 3, 4} is shown as 0x[010241420304]
  lemma ShowsTwoShortTextBetweenBinary(isPrint: PrintPredicate)
    requires AsciiPrintFacts(isPrint)
    ensures Shows(isPrint, [1, 2, 0x41, 0x42, 3, 4], [0x30, 0x78, 0x5B, 0x30, 0x31, 0x30, 0x32, 0x34, 0x31, 0x34, 0x32, 0x30, 0x33, 0x30, 0x34, 0x5D])
  {
    TokensShortTextBetweenBinary(isPrint, [1, 2], [0x41, 0x42]);
    assert [1, 2] + [0x41, 0x42] + [3, 4] == [1, 2, 0x41, 0x42, 3, 4];
    RenderedTwoShortTextBetweenBinary();
    ShowsOne(isPrint, [1, 2, 0x41, 0x42, 3, 4], Binary([1, 2, 0x41, 0x42, 3, 4]),
      [0x30, 0x78, 0x5B, 0x30, 0x31, 0x30, 0x32, 0x34, 0x31, 0x34, 0x32, 0x30, 0x33, 0x30, 0x34, 0x5D]);
  }

  /** The token string of the name of utils_test.go:81. */
  lemma RenderedTwoShortTextBetweenBinary()
    ensures Render(Binary([1, 2, 0x41, 0x42, 3, 4])) == [0x30, 0x78, 0x5B, 0x30, 0x31, 0x30, 0x32, 0x34, 0x31, 0x34, 0x32, 0x30, 0x33, 0x30, 0x34, 0x5D]
  {
    HexTwoShortTextBetweenBinary();
  }

  /** The hexadecimal digits of the bytes of that token. */
  lemma HexTwoShortTextBetweenBinary()
    ensures Hex([1, 2, 0x41, 0x42, 3, 4]) == [0x30, 0x31, 0x30, 0x32, 0x34, 0x31, 0x34, 0x32, 0x30, 0x33, 0x30, 0x34]
  {
    assert Hex([4]) == [0x30, 0x34];
    assert Hex([3, 4]) == [0x30, 0x33, 0x30, 0x34];
    assert Hex([0x42, 3, 4]) == [0x34, 0x32, 0x30, 0x33, 0x30, 0x34];
    assert Hex([0x41, 0x42, 3, 4]) == [0x34, 0x31, 0x34, 0x32, 0x30, 0x33, 0x30, 0x34];
    assert Hex([2, 0x41, 0x42, 3, 4]) == [0x30, 0x32, 0x34, 0x31, 0x34, 0x32, 0x30, 0x33, 0x30, 0x34];
  }

  /**
   * The tokens of "A", the bytes {0, 0x11} and one or two capital letters
   * (utils_test.go:84-85): the first "A" is a Text token and the letters at
   * the end are folded into the Binary token.
   */
  lemma TokensBinaryBetweenText(isPrint: PrintPredicate, text: seq<byte>)
    requires AsciiPrintFacts(isPrint) && 1 <= |text| <= 2
    requires forall k :: 0 <= k < |text| ==> 0x41 <= text[k] <= 0x5A
    ensures Tokenize(isPrint, [0x41, 0, 0x11] + text, true) == [Text([0x41]), Binary([0, 0x11] + text)]
  {
    var n: seq<byte> := [0x41, 0, 0x11] + text;
    RunsBinaryBetweenText(isPrint, text);
    assert n[0..1] == [0x41] && n[1..3] == [0, 0x11];
    PlainText([0x41]);
    StepTo(isPrint, n, true, 0, 1, 3, [], [Text([0x41]), Binary([0, 0x11])]);
    LastPassBinaryBetweenText(isPrint, text);
  }

  /** Where the runs of the names of utils_test.go:84-85 end. */
  lemma RunsBinaryBetweenText(isPrint: PrintPredicate, text: seq<byte>)
    requires AsciiPrintFacts(isPrint) && 1 <= |text| <= 2
    requires forall k :: 0 <= k < |text| ==> 0x41 <= text[k] <= 0x5A
    ensures var n: seq<byte> := [0x41, 0, 0x11] + text;
      PrintableEnd(isPrint, n, 0) == 1 && UnprintableEnd(isPrint, n, 1) == 3 && PrintableEnd(isPrint, n, 3) == |n|
  {
    var n: seq<byte> := [0x41, 0, 0x11] + text;
    PrintableRunIs(isPrint, n, 0, 1);
    UnprintableRunIs(isPrint, n, 1, 3);
    PrintableRunIs(isPrint, n, 3, |n|);
  }

  /** The last pass of the loop over the names of utils_test.go:84-85: the letters are folded into the Binary token. */
  lemma LastPassBinaryBetweenText(isPrint: PrintPredicate, text: seq<byte>)
    requires AsciiPrintFacts(isPrint) && 1 <= |text| <= 2
    requires forall k :: 0 <= k < |text| ==> 0x41 <= text[k] <= 0x5A
    ensures var n: seq<byte> := [0x41, 0, 0x11] + text;
      TokenizeFrom(isPrint, n, true, 3, [Text([0x41]), Binary([0, 0x11])]) == [Text([0x41]), Binary([0, 0x11] + text)]
  {
    var n: seq<byte> := [0x41, 0, 0x11] + text;
    RunsBinaryBetweenText(isPrint, text);
    assert n[3..|n|] == text;
    LastStep(isPrint, n, true, 3, [Text([0x41]), Binary([0, 0x11])], [Text([0x41]), Binary([0, 0x11] + text)]);
  }

  // utils_test.go:84: {'A', 0, 0x11, 'A'} is shown as [A, 0x[001141]]
  lemma ShowsBinaryBetweenText(isPrint: PrintPredicate)
    requires AsciiPrintFacts(isPrint)
    ensures Shows(isPrint, [0x41, 0, 0x11, 0x41], [0x5B, 0x41, 0x2C, 0x20, 0x30, 0x78, 0x5B, 0x30, 0x30, 0x31, 0x31, 0x34, 0x31, 0x5D, 0x5D])
  {
    TokensBinaryBetweenText(isPrint, [0x41]);
    assert [0x41, 0, 0x11] + [0x41] == [0x41, 0, 0x11, 0x41];
    assert [0, 0x11] + [0x41] == [0, 0x11, 0x41];
    RenderedBinaryBetweenText();
    ShowsTwo(isPrint, [0x41, 0, 0x11, 0x41], Text([0x41]), Binary([0, 0x11, 0x41]),
      [0x5B, 0x41, 0x2C, 0x20, 0x30, 0x78, 0x5B, 0x30, 0x30, 0x31, 0x31, 0x34, 0x31, 0x5D, 0x5D]);
  }

  /** The token strings of the name of utils_test.go:84, bracketed. */
  lemma RenderedBinaryBetweenText()
    ensures LeftBracket + Render(Text([0x41])) + CommaSpace + Render(Binary([0, 0x11, 0x41])) + RightBracket
      == [0x5B, 0x41, 0x2C, 0x20, 0x30, 0x78, 0x5B, 0x30, 0x30, 0x31, 0x31, 0x34, 0x31, 0x5D, 0x5D]
  {
    BlockBinaryBetweenText();
    assert LeftBracket + Render(Text([0x41])) + CommaSpace == [0x5B, 0x41, 0x2C, 0x20];
  }

  /** The Binary token string of the name of utils_test.go:84. */
  lemma BlockBinaryBetweenText()
    ensures Render(Binary([0, 0x11, 0x41])) == [0x30, 0x78, 0x5B, 0x30, 0x30, 0x31, 0x31, 0x34, 0x31, 0x5D]
  {
    assert Hex([0x41]) == [0x34, 0x31];
    assert Hex([0x11, 0x41]) == [0x31, 0x31, 0x34, 0x31];
    assert Hex([0, 0x11, 0x41]) == [0x30, 0x30, 0x31, 0x31, 0x34, 0x31];
  }

  // utils_test.go:85: {'A', 0, 0x11, 'A', 'B'} is shown as [A, 0x[00114142]]
  lemma ShowsBinaryBetweenTwoText(isPrint: PrintPredicate)
    requires AsciiPrintFacts(isPrint)
    ensures Shows(isPrint, [0x41, 0, 0x11, 0x41, 0x42],
      [0x5B, 0x41, 0x2C, 0x20, 0x30, 0x78, 0x5B, 0x30, 0x30, 0x31, 0x31, 0x34, 0x31, 0x34, 0x32, 0x5D, 0x5D])
  {
    TokensBinaryBetweenText(isPrint, [0x41, 0x42]);
    assert [0x41, 0, 0x11] + [0x41, 0x42] == [0x41, 0, 0x11, 0x41, 0x42];
    assert [0, 0x11] + [0x41, 0x42] == [0, 0x11, 0x41, 0x42];
    RenderedBinaryBetweenTwoText();
    ShowsTwo(isPrint, [0x41, 0, 0x11, 0x41, 0x42], Text([0x41]), Binary([0, 0x11, 0x41, 0x42]),
      [0x5B, 0x41, 0x2C, 0x20, 0x30, 0x78, 0x5B, 0x30, 0x30, 0x31, 0x31, 0x34, 0x31, 0x34, 0x32, 0x5D, 0x5D]);
  }

  /** The token strings of the name of utils_test.go:85, bracketed. */
  lemma RenderedBinaryBetweenTwoText()
    ensures LeftBracket + Render(Text([0x41])) + CommaSpace + Render(Binary([0, 0x11, 0x41, 0x42])) + RightBracket
      == [0x5B, 0x41, 0x2C, 0x20, 0x30, 0x78, 0x5B, 0x30, 0x30, 0x31, 0x31, 0x34, 0x31, 0x34, 0x32, 0x5D, 0x5D]
  {
    BlockBinaryBetweenTwoText();
    assert LeftBracket + Render(Text([0x41])) + CommaSpace == [0x5B, 0x41, 0x2C, 0x20];
  }

  /** The Binary token string of the name of utils_test.go:85. */
  lemma BlockBinaryBetweenTwoText()
    ensures Render(Binary([0, 0x11, 0x41, 0x42])) == [0x30, 0x78, 0x5B, 0x30, 0x30, 0x31, 0x31, 0x34, 0x31, 0x34, 0x32, 0x5D]
  {
    HexBinaryBetweenTwoText();
    assert Hex([0, 0x11, 0x41, 0x42]) == [0x30, 0x30, 0x31, 0x31, 0x34, 0x31, 0x34, 0x32];
  }

  /** The hexadecimal digits of the bytes of that token. */
  lemma HexBinaryBetweenTwoText()
    ensures Hex([0x11, 0x41, 0x42]) == [0x31, 0x31, 0x34, 0x31, 0x34, 0x32]
  {
    assert Hex([0x42]) == [0x34, 0x32];
    assert Hex([0x41, 0x42]) == [0x34, 0x31, 0x34, 0x32];
  }
}

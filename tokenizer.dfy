/**
 * `tokenizeName` (format.go:45-92): splits a name into Text tokens (printable
 * runs, quoted in stringify mode) and Binary tokens (everything else), folding
 * a printable run of one or two bytes into the Binary token before it.
 *
 * `Tokenize` is the specification, one call of `TokenizeFrom` per iteration
 * of the source's loop; `TokenizeName` is the loop itself, over the cloned
 * buffer that the source's `append` writes into.
 */
module Tokenizer {

  import opened Bytes
  import opened Utf8
  import opened Runs
  import opened Quoting

  datatype Token = Text(text: seq<byte>) | Binary(bytes: seq<byte>)

  /** The bytes a token displays (its text, or the bytes a Binary token holds). */
  function Content(t: Token): seq<byte>
  {
    match t
    case Text(s) => s
    case Binary(b) => b
  }

  /** No token yet, or the last one is Binary: the shape at the top of every iteration. */
  predicate EndsBinary(r: seq<Token>)
  {
    r == [] || r[|r| - 1].Binary?
  }

  /** `r[len(r)-1] = append(r[len(r)-1].([]byte), more...)` */
  function ExtendLast(r: seq<Token>, more: seq<byte>): (r': seq<Token>)
    requires r != [] && r[|r| - 1].Binary?
    ensures |r'| == |r| && r'[..|r| - 1] == r[..|r| - 1]
    ensures r'[|r| - 1] == Binary(r[|r| - 1].bytes + more)
  {
    r[..|r| - 1] + [Binary(r[|r| - 1].bytes + more)]
  }

  /** The flags of the printable run `s`, as `printableRun` reports them for it. */
  function FlagsOfRun(s: seq<byte>): Flags
  {
    FlagsIn(s, 0, |s|)
  }

  /** The text a printable run becomes: itself, or in stringify mode itself quoted (format.go:56-69). */
  function RunText(s: seq<byte>, stringify: bool): seq<byte>
  {
    if stringify then QuoteRun(s, FlagsOfRun(s)) else s
  }

  /** The token list after the printable run `name[i..j]` (format.go:50-73). */
  function WithPrintable(name: seq<byte>, stringify: bool, i: nat, j: nat, r: seq<Token>): seq<Token>
    requires i <= j <= |name| && EndsBinary(r)
  {
    if j == i then r
    else if j - i < 3 && |r| > 0 then ExtendLast(r, name[i..j])
    else r + [Text(RunText(name[i..j], stringify))]
  }

  /** The token list after an unprintable run (format.go:80-88): a new Binary token after a Text token, else merged. */
  function WithUnprintable(r: seq<Token>, bytes: seq<byte>): (r': seq<Token>)
    ensures EndsBinary(r') && r' != []
  {
    if r == [] || r[|r| - 1].Text? then r + [Binary(bytes)] else ExtendLast(r, bytes)
  }

  /** Where one iteration of the loop leaves the offset and the token list. */
  datatype State = State(next: nat, tokens: seq<Token>)

  /**
   * One iteration of `tokenizeName`'s loop from offset `i` (format.go:49-89):
   * the printable run, then, unless it reached the end of the name, the
   * unprintable run after it.
   */
  function Iteration(isPrint: PrintPredicate, name: seq<byte>, stringify: bool, i: nat, r: seq<Token>): (s: State)
    requires i < |name| && EndsBinary(r)
    ensures i < s.next <= |name|
    ensures s.next < |name| ==> EndsBinary(s.tokens)
  {
    var j := PrintableEnd(isPrint, name, i);
    var r1 := WithPrintable(name, stringify, i, j, r);
    if j == |name| then State(j, r1)
    else
      PrintableEndFacts(isPrint, name, i);
      var k := UnprintableEnd(isPrint, name, j);
      State(k, WithUnprintable(r1, name[j..k]))
  }

  /** The loop of `tokenizeName` from offset `i` with tokens `r` so far. */
  function TokenizeFrom(isPrint: PrintPredicate, name: seq<byte>, stringify: bool, i: nat, r: seq<Token>): seq<Token>
    requires i <= |name| && (i < |name| ==> EndsBinary(r))
    decreases |name| - i
  {
    if i == |name| then r
    else
      var s := Iteration(isPrint, name, stringify, i, r);
      TokenizeFrom(isPrint, name, stringify, s.next, s.tokens)
  }

  /** `tokenizeName(name, stringify)`. */
  function Tokenize(isPrint: PrintPredicate, name: seq<byte>, stringify: bool): seq<Token>
  {
    TokenizeFrom(isPrint, name, stringify, 0, [])
  }

  // ---------------------------------------------------------------------------
  // Properties of the token list
  // ---------------------------------------------------------------------------

  /** All token contents, in order. */
  function Flatten(r: seq<Token>): seq<byte>
  {
    if r == [] then [] else Flatten(r[..|r| - 1]) + Content(r[|r| - 1])
  }

  /** No two neighbouring tokens are of the same kind. */
  predicate Alternating(r: seq<Token>)
  {
    forall k :: 0 <= k < |r| - 1 ==> r[k].Text? != r[k + 1].Text?
  }

  /** Every token displays at least one byte, and every Text token but the first at least three. */
  predicate WellSized(r: seq<Token>)
  {
    && (forall k :: 0 <= k < |r| ==> |Content(r[k])| > 0)
    && (forall k :: 0 < k < |r| && r[k].Text? ==> |r[k].text| >= 3)
  }

  lemma FlattenAppend(r: seq<Token>, t: Token)
    ensures Flatten(r + [t]) == Flatten(r) + Content(t)
  {
    assert (r + [t])[..|r|] == r;
  }

  lemma FlattenExtendLast(r: seq<Token>, more: seq<byte>)
    requires r != [] && r[|r| - 1].Binary?
    ensures Flatten(ExtendLast(r, more)) == Flatten(r) + more
  {
    var r' := ExtendLast(r, more);
    var p := r[..|r| - 1];
    var last := r[|r| - 1].bytes;
    assert r'[..|r'| - 1] == p;
    assert Flatten(r') == Flatten(p) + (last + more);
    assert Flatten(r) == Flatten(p) + last;
    ConcatAssoc(Flatten(p), last, more);
  }

  lemma ConcatAssoc(a: seq<byte>, b: seq<byte>, c: seq<byte>)
    ensures a + b + c == a + (b + c)
  {
  }

  lemma SliceSplit(s: seq<byte>, i: nat, j: nat, k: nat)
    requires i <= j <= k <= |s|
    ensures s[i..k] == s[i..j] + s[j..k]
    ensures s[i..] == s[i..j] + s[j..]
  {
  }

  /** Without quoting, the tokens concatenate back to the name. */
  lemma TokenizeFlatten(isPrint: PrintPredicate, name: seq<byte>)
    ensures Flatten(Tokenize(isPrint, name, false)) == name
  {
    TokenizeFromFlatten(isPrint, name, 0, []);
    assert name[0..] == name;
  }

  lemma {:induction false} TokenizeFromFlatten(isPrint: PrintPredicate, name: seq<byte>, i: nat, r: seq<Token>)
    requires i <= |name| && (i < |name| ==> EndsBinary(r))
    ensures Flatten(TokenizeFrom(isPrint, name, false, i, r)) == Flatten(r) + name[i..]
    decreases |name| - i
  {
    if i < |name| {
      var s := Iteration(isPrint, name, false, i, r);
      IterationFlatten(isPrint, name, i, r);
      TokenizeFromFlatten(isPrint, name, s.next, s.tokens);
      SliceSplit(name, i, s.next, s.next);
      ConcatAssoc(Flatten(r), name[i..s.next], name[s.next..]);
    } else {
      assert name[i..] == [];
    }
  }

  /** One iteration adds exactly the bytes it scanned. */
  lemma IterationFlatten(isPrint: PrintPredicate, name: seq<byte>, i: nat, r: seq<Token>)
    requires i < |name| && EndsBinary(r)
    ensures var s := Iteration(isPrint, name, false, i, r);
      Flatten(s.tokens) == Flatten(r) + name[i..s.next]
  {
    var j := PrintableEnd(isPrint, name, i);
    var r1 := WithPrintable(name, false, i, j, r);
    FlattenWithPrintable(name, i, j, r);
    if j < |name| {
      PrintableEndFacts(isPrint, name, i);
      var k := UnprintableEnd(isPrint, name, j);
      assert Iteration(isPrint, name, false, i, r) == State(k, WithUnprintable(r1, name[j..k]));
      FlattenWithUnprintable(r1, name[j..k]);
      SliceSplit(name, i, j, k);
      ConcatAssoc(Flatten(r), name[i..j], name[j..k]);
    }
  }

  lemma FlattenWithPrintable(name: seq<byte>, i: nat, j: nat, r: seq<Token>)
    requires i <= j <= |name| && EndsBinary(r)
    ensures Flatten(WithPrintable(name, false, i, j, r)) == Flatten(r) + name[i..j]
  {
    if j == i {
      assert name[i..j] == [];
    } else if j - i < 3 && |r| > 0 {
      FlattenExtendLast(r, name[i..j]);
    } else {
      FlattenAppend(r, Text(name[i..j]));
    }
  }

  lemma FlattenWithUnprintable(r: seq<Token>, bytes: seq<byte>)
    ensures Flatten(WithUnprintable(r, bytes)) == Flatten(r) + bytes
  {
    if r == [] || r[|r| - 1].Text? {
      FlattenAppend(r, Binary(bytes));
    } else {
      FlattenExtendLast(r, bytes);
    }
  }

  /** Text and Binary tokens alternate, and the sizes are as the fold rule promises. */
  lemma TokenizeShape(isPrint: PrintPredicate, name: seq<byte>, stringify: bool)
    ensures var r := Tokenize(isPrint, name, stringify);
      Alternating(r) && WellSized(r)
  {
    TokenizeFromShape(isPrint, name, stringify, 0, []);
  }

  lemma {:induction false} TokenizeFromShape(isPrint: PrintPredicate, name: seq<byte>, stringify: bool, i: nat, r: seq<Token>)
    requires i <= |name| && (i < |name| ==> EndsBinary(r)) && Alternating(r) && WellSized(r)
    ensures var r' := TokenizeFrom(isPrint, name, stringify, i, r);
      Alternating(r') && WellSized(r')
    decreases |name| - i
  {
    if i < |name| {
      var s := Iteration(isPrint, name, stringify, i, r);
      IterationShape(isPrint, name, stringify, i, r);
      TokenizeFromShape(isPrint, name, stringify, s.next, s.tokens);
    }
  }

  /** One iteration keeps the tokens alternating and well sized. */
  lemma IterationShape(isPrint: PrintPredicate, name: seq<byte>, stringify: bool, i: nat, r: seq<Token>)
    requires i < |name| && EndsBinary(r) && Alternating(r) && WellSized(r)
    ensures var s := Iteration(isPrint, name, stringify, i, r);
      Alternating(s.tokens) && WellSized(s.tokens)
  {
    var j := PrintableEnd(isPrint, name, i);
    var r1 := WithPrintable(name, stringify, i, j, r);
    ShapeWithPrintable(name, stringify, i, j, r);
    if j < |name| {
      PrintableEndFacts(isPrint, name, i);
      var k := UnprintableEnd(isPrint, name, j);
      assert Iteration(isPrint, name, stringify, i, r) == State(k, WithUnprintable(r1, name[j..k]));
      ShapeWithUnprintable(r1, name[j..k]);
    }
  }

  lemma ShapeWithPrintable(name: seq<byte>, stringify: bool, i: nat, j: nat, r: seq<Token>)
    requires i <= j <= |name| && EndsBinary(r) && Alternating(r) && WellSized(r)
    ensures var r' := WithPrintable(name, stringify, i, j, r);
      Alternating(r') && WellSized(r')
  {
    if j > i && !(j - i < 3 && |r| > 0) {
      RunTextLength(name[i..j], stringify);
    }
  }

  lemma ShapeWithUnprintable(r: seq<Token>, bytes: seq<byte>)
    requires |bytes| > 0 && Alternating(r) && WellSized(r)
    ensures var r' := WithUnprintable(r, bytes);
      Alternating(r') && WellSized(r')
  {
  }

  /** Quoting never shortens a run. */
  lemma RunTextLength(s: seq<byte>, stringify: bool)
    ensures |RunText(s, stringify)| >= |s|
  {
  }

  // ---------------------------------------------------------------------------
  // Stringify mode quotes the Text tokens and changes nothing else
  // ---------------------------------------------------------------------------

  /** A Text token quoted as stringify mode quotes it; a Binary token as it is. */
  function QuoteToken(t: Token): Token
  {
    if t.Text? then Text(RunText(t.text, true)) else t
  }

  /** Each token quoted as stringify mode quotes it. */
  function QuoteTexts(r: seq<Token>): (q: seq<Token>)
    ensures |q| == |r|
  {
    seq(|r|, k requires 0 <= k < |r| => QuoteToken(r[k]))
  }

  /** The flags `printableRun` reports for `name[i..j]` are those of the run on its own. */
  lemma FlagsOfSlice(name: seq<byte>, i: nat, j: nat)
    requires i <= j <= |name|
    ensures FlagsIn(name, i, j) == FlagsOfRun(name[i..j])
  {
    var s := name[i..j];
    forall f | true
      ensures Occurs(name, FlagChar(f), i, j) <==> Occurs(s, FlagChar(f), 0, |s|)
    {
      if Occurs(name, FlagChar(f), i, j) {
        var m :| i <= m < j && name[m] == FlagChar(f);
        assert s[m - i] == FlagChar(f);
      }
      if Occurs(s, FlagChar(f), 0, |s|) {
        var m :| 0 <= m < |s| && s[m] == FlagChar(f);
        assert name[i + m] == FlagChar(f);
      }
    }
  }

  /** Stringify mode splits the name exactly as text mode does and only quotes the Text tokens. */
  lemma TokenizeStringify(isPrint: PrintPredicate, name: seq<byte>)
    ensures Tokenize(isPrint, name, true) == QuoteTexts(Tokenize(isPrint, name, false))
  {
    TokenizeFromStringify(isPrint, name, 0, []);
  }

  lemma {:induction false} TokenizeFromStringify(isPrint: PrintPredicate, name: seq<byte>, i: nat, r: seq<Token>)
    requires i <= |name| && (i < |name| ==> EndsBinary(r))
    ensures TokenizeFrom(isPrint, name, true, i, QuoteTexts(r)) == QuoteTexts(TokenizeFrom(isPrint, name, false, i, r))
    decreases |name| - i
  {
    if i < |name| {
      var s := Iteration(isPrint, name, false, i, r);
      IterationStringify(isPrint, name, i, r);
      TokenizeFromStringify(isPrint, name, s.next, s.tokens);
    }
  }

  /** One iteration in stringify mode does what it does in text mode, with the new Text token quoted. */
  lemma IterationStringify(isPrint: PrintPredicate, name: seq<byte>, i: nat, r: seq<Token>)
    requires i < |name| && EndsBinary(r)
    ensures EndsBinary(QuoteTexts(r))
    ensures var s := Iteration(isPrint, name, false, i, r);
      Iteration(isPrint, name, true, i, QuoteTexts(r)) == State(s.next, QuoteTexts(s.tokens))
  {
    var j := PrintableEnd(isPrint, name, i);
    var r1 := WithPrintable(name, false, i, j, r);
    QuoteWithPrintable(name, i, j, r);
    if j < |name| {
      PrintableEndFacts(isPrint, name, i);
      var k := UnprintableEnd(isPrint, name, j);
      assert Iteration(isPrint, name, false, i, r) == State(k, WithUnprintable(r1, name[j..k]));
      QuoteWithUnprintable(r1, name[j..k]);
    }
  }

  lemma QuoteWithPrintable(name: seq<byte>, i: nat, j: nat, r: seq<Token>)
    requires i <= j <= |name| && EndsBinary(r)
    ensures EndsBinary(QuoteTexts(r))
    ensures WithPrintable(name, true, i, j, QuoteTexts(r)) == QuoteTexts(WithPrintable(name, false, i, j, r))
  {
    if j > i {
      if j - i < 3 && |r| > 0 {
        QuoteExtendLast(r, name[i..j]);
      } else {
        assert QuoteTexts(r) + [Text(RunText(name[i..j], true))] == QuoteTexts(r + [Text(name[i..j])]);
      }
    }
  }

  lemma QuoteWithUnprintable(r: seq<Token>, bytes: seq<byte>)
    ensures WithUnprintable(QuoteTexts(r), bytes) == QuoteTexts(WithUnprintable(r, bytes))
  {
    if r == [] || r[|r| - 1].Text? {
      assert QuoteTexts(r) + [Binary(bytes)] == QuoteTexts(r + [Binary(bytes)]);
    } else {
      QuoteExtendLast(r, bytes);
    }
  }

  lemma QuoteExtendLast(r: seq<Token>, more: seq<byte>)
    requires r != [] && r[|r| - 1].Binary?
    ensures QuoteTexts(r)[|r| - 1].Binary?
    ensures ExtendLast(QuoteTexts(r), more) == QuoteTexts(ExtendLast(r, more))
  {
  }

  // ---------------------------------------------------------------------------
  // Whole-name cases
  // ---------------------------------------------------------------------------

  /** An empty name has no tokens. */
  lemma TokenizeEmpty(isPrint: PrintPredicate, stringify: bool)
    ensures Tokenize(isPrint, [], stringify) == []
  {
  }

  /** A name has no tokens exactly when it is empty (format.go:48-89). */
  lemma TokenizeEmptyIff(isPrint: PrintPredicate, name: seq<byte>, stringify: bool)
    ensures Tokenize(isPrint, name, stringify) == [] <==> name == []
  {
    TokenizeFromGrows(isPrint, name, stringify, 0, []);
  }

  /** The loop never drops a token, and it leaves at least one once it runs. */
  lemma {:induction false} TokenizeFromGrows(isPrint: PrintPredicate, name: seq<byte>, stringify: bool, i: nat, r: seq<Token>)
    requires i <= |name| && (i < |name| ==> EndsBinary(r))
    ensures var r' := TokenizeFrom(isPrint, name, stringify, i, r);
      |r| <= |r'| && (i < |name| ==> r' != [])
    decreases |name| - i
  {
    if i < |name| {
      var s := Iteration(isPrint, name, stringify, i, r);
      IterationGrows(isPrint, name, stringify, i, r);
      TokenizeFromGrows(isPrint, name, stringify, s.next, s.tokens);
    }
  }

  /** An iteration that meets the unprintable run `name[j..k]` after the printable run `name[i..j]`. */
  lemma IterationThrough(isPrint: PrintPredicate, name: seq<byte>, stringify: bool, i: nat, j: nat, k: nat,
                         r: seq<Token>, r1: seq<Token>, r2: seq<Token>)
    requires i <= j < |name| && EndsBinary(r)
    requires PrintableEnd(isPrint, name, i) == j && UnprintableEnd(isPrint, name, j) == k
    requires r1 == WithPrintable(name, stringify, i, j, r) && r2 == WithUnprintable(r1, name[j..k])
    ensures Iteration(isPrint, name, stringify, i, r) == State(k, r2)
    ensures TokenizeFrom(isPrint, name, stringify, i, r) == TokenizeFrom(isPrint, name, stringify, k, r2)
  {
  }

  /** An iteration keeps every token it is given and leaves at least one. */
  lemma IterationGrows(isPrint: PrintPredicate, name: seq<byte>, stringify: bool, i: nat, r: seq<Token>)
    requires i < |name| && EndsBinary(r)
    ensures var s := Iteration(isPrint, name, stringify, i, r);
      |r| <= |s.tokens| && s.tokens != []
  {
  }

  /** A name made only of printable runes is one Text token. */
  lemma TokenizePrintable(isPrint: PrintPredicate, name: seq<byte>, stringify: bool)
    requires |name| > 0 && PrintableEnd(isPrint, name, 0) == |name|
    ensures Tokenize(isPrint, name, stringify) == [Text(RunText(name, stringify))]
  {
    assert name[0..|name|] == name;
    var r1 := WithPrintable(name, stringify, 0, |name|, []);
    assert r1 == [Text(RunText(name, stringify))];
    assert Iteration(isPrint, name, stringify, 0, []) == State(|name|, r1);
    assert TokenizeFrom(isPrint, name, stringify, 0, []) == TokenizeFrom(isPrint, name, stringify, |name|, r1);
  }

  /** A name with no printable rune at all is one Binary token. */
  lemma TokenizeUnprintable(isPrint: PrintPredicate, name: seq<byte>, stringify: bool)
    requires |name| > 0 && UnprintableEnd(isPrint, name, 0) == |name|
    ensures Tokenize(isPrint, name, stringify) == [Binary(name)]
  {
    assert !PrintableAt(isPrint, name, 0);
    assert PrintableEnd(isPrint, name, 0) == 0;
    assert name[0..|name|] == name;
    PrintableEndFacts(isPrint, name, 0);
    assert Iteration(isPrint, name, stringify, 0, []) == State(|name|, [Binary(name)]);
    assert TokenizeFrom(isPrint, name, stringify, 0, []) == TokenizeFrom(isPrint, name, stringify, |name|, [Binary(name)]);
  }
}

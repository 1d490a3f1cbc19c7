/**
 * `formatName`, `stringifyName` and `textName` (format.go:13-43): the
 * display of a name. A Text token is shown as its text, a Binary token as
 * `0x[` followed by its bytes in lowercase hex and `]`; a name of one token
 * is shown as that token, any other number of tokens as `[t0, t1, ...]`.
 */
module Format {

  import opened Wrappers
  import opened Bytes
  import opened Runs
  import opened Tokenizer
  import opened NameBuffer

  /** The text `0x[` that opens a Binary token's display. */
  const HexOpen: seq<byte> := [0x30, 0x78, 0x5B]

  /** `fmt.Sprintf("0x[%x]", b)`: how a Binary token is shown. */
  function BinaryText(b: seq<byte>): seq<byte>
  {
    HexOpen + Hex(b) + RightBracket
  }

  /** The string `formatName` makes of one token (format.go:35-40). */
  function Render(t: Token): seq<byte>
  {
    match t
    case Text(s) => s
    case Binary(b) => BinaryText(b)
  }

  /** The strings of the tokens `r`, in order. */
  function RenderAll(r: seq<Token>): seq<seq<byte>>
  {
    if r == [] then [] else RenderAll(r[..|r| - 1]) + [Render(r[|r| - 1])]
  }

  /** What `formatName(name, stringify)` returns. */
  function FormattedName(isPrint: PrintPredicate, name: seq<byte>, stringify: bool): seq<seq<byte>>
  {
    RenderAll(Tokenize(isPrint, name, stringify))
  }

  /** One string is shown bare, any other number of them as a bracketed list (format.go:15-19, 24-28). */
  function Display(parts: seq<seq<byte>>): seq<byte>
  {
    if |parts| == 1 then parts[0] else Bracketed(parts)
  }

  /** `slices.Clone(name)`: a new buffer with the same bytes. */
  method Clone(name: array<byte>) returns (c: array<byte>)
    ensures fresh(c) && c[..] == name[..]
  {
    c := new byte[name.Length];
    for k := 0 to name.Length
      invariant c[..k] == name[..k]
    {
      c[k] := name[k];
      assert c[..k + 1] == c[..k] + [c[k]];
      assert name[..k + 1] == name[..k] + [name[k]];
    }
    assert c[..] == c[..name.Length];
    assert name[..] == name[..name.Length];
  }

  /**
   * `formatName(name, stringify)` (format.go:31-43): tokenizes a clone of
   * the name, so the caller's bytes are never written, and renders every
   * token in order.
   */
  method FormatName(isPrint: PrintPredicate, name: array<byte>, stringify: bool) returns (s: seq<seq<byte>>)
    ensures name[..] == old(name[..])
    ensures s == FormattedName(isPrint, name[..], stringify)
  {
    var buf := Clone(name);
    var r := TokenizeName(isPrint, buf, stringify);
    s := RenderTokens(r);
  }

  /** The loop of format.go:32-41: the rendering of every token, in order. */
  method RenderTokens(r: seq<Token>) returns (s: seq<seq<byte>>)
    ensures s == RenderAll(r)
  {
    s := [];
    for k := 0 to |r|
      invariant s == RenderAll(r[..k])
    {
      assert r[..k + 1][..k] == r[..k];
      s := s + [Render(r[k])];
    }
    assert r[..|r|] == r;
  }

  /** `stringifyName(name)` (format.go:13-20). */
  method StringifyName(isPrint: PrintPredicate, name: array<byte>) returns (v: seq<byte>)
    ensures v == Display(FormattedName(isPrint, name[..], true))
  {
    var r := FormatName(isPrint, name, true);
    if |r| == 1 {
      return r[0];
    }
    v := LeftBracket + Join(r, CommaSpace) + RightBracket;
  }

  /** `textName(name)` (format.go:22-29). */
  method TextName(isPrint: PrintPredicate, name: array<byte>) returns (v: seq<byte>)
    ensures v == Display(FormattedName(isPrint, name[..], false))
  {
    var r := FormatName(isPrint, name, false);
    if |r| == 1 {
      return r[0];
    }
    v := LeftBracket + Join(r, CommaSpace) + RightBracket;
  }

  // ---------------------------------------------------------------------------
  // Properties of the display
  // ---------------------------------------------------------------------------

  /** `formatName` returns one string per token, the token's own rendering. */
  lemma {:induction false} RenderAllTokens(r: seq<Token>)
    ensures |RenderAll(r)| == |r|
    ensures forall k :: 0 <= k < |r| ==> RenderAll(r)[k] == Render(r[k])
  {
    if r != [] {
      RenderAllTokens(r[..|r| - 1]);
    }
  }

  /**
   * A Binary token is shown as `0x[`, two hex digits per byte and `]`, and
   * the digits between the brackets read back to the token's bytes.
   */
  lemma BinaryTextReadsBack(b: seq<byte>)
    ensures var t := BinaryText(b);
      && |t| == 2 * |b| + 4
      && t[..3] == HexOpen && t[|t| - 1..] == RightBracket
      && UnHex(t[3..|t| - 1]) == Some(b)
  {
    HexRoundTrip(b);
    var t := BinaryText(b);
    assert t[3..|t| - 1] == Hex(b);
  }

  /** An empty name has no tokens and is shown as `[]`. */
  lemma DisplayEmpty(isPrint: PrintPredicate, stringify: bool)
    ensures FormattedName(isPrint, [], stringify) == []
    ensures Display(FormattedName(isPrint, [], stringify)) == LeftBracket + RightBracket
  {
    TokenizeEmpty(isPrint, stringify);
  }

  /** In text mode a name made only of printable runes is shown as itself. */
  lemma DisplayPrintable(isPrint: PrintPredicate, name: seq<byte>)
    requires |name| > 0 && PrintableEnd(isPrint, name, 0) == |name|
    ensures Display(FormattedName(isPrint, name, false)) == name
  {
    TokenizePrintable(isPrint, name, false);
    assert RenderAll([Text(name)]) == [name];
  }

  /** A name with no printable rune at all is shown as one hex block. */
  lemma DisplayUnprintable(isPrint: PrintPredicate, name: seq<byte>, stringify: bool)
    requires |name| > 0 && UnprintableEnd(isPrint, name, 0) == |name|
    ensures Display(FormattedName(isPrint, name, stringify)) == BinaryText(name)
  {
    TokenizeUnprintable(isPrint, name, stringify);
    assert RenderAll([Binary(name)]) == [BinaryText(name)];
  }

  /**
   * A name of several tokens is shown as `[`, the token strings joined by
   * `, ` and `]`; one of a single token as that token's string.
   */
  lemma DisplayTokens(isPrint: PrintPredicate, name: seq<byte>, stringify: bool)
    ensures var r := Tokenize(isPrint, name, stringify);
      && (|r| == 1 ==> Display(FormattedName(isPrint, name, stringify)) == Render(r[0]))
      && (|r| != 1 ==> Display(FormattedName(isPrint, name, stringify)) == LeftBracket + Join(RenderAll(r), CommaSpace) + RightBracket)
  {
    RenderAllTokens(Tokenize(isPrint, name, stringify));
  }
}

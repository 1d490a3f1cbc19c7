/**
 * The nushell values the plugin receives: flag values, positional
 * arguments and the plugin configuration. Every value carries the span of
 * the source text it came from, which error reports point at.
 *
 * A Go string whose bytes become a bucket or key name is kept as its bytes
 * (`seq<byte>`); a string that the code only compares with fixed words
 * (a record key, an action, a format mode) is a Dafny `string`.
 */
module Values {

  import opened Bytes

  /** Go's `int64`. */
  newtype int64 = x: int | -0x8000_0000_0000_0000 <= x < 0x8000_0000_0000_0000

  /** Where in the command line a value was written. */
  datatype Span = Span(start: nat, end: nat)

  /** A member of a cell path such as `$x.a.0`: a string member or an integer member. */
  datatype PathMember =
    | StringMember(text: seq<byte>, optional: bool, span: Span)
    | IntMember(index: nat, optional: bool, span: Span)

  /** A nushell value as the plugin library decodes it. */
  datatype Value =
    | Binary(bytes: seq<byte>, span: Span)
    | Str(text: seq<byte>, span: Span)
    | Int(number: int64, span: Span)
    | Bool(truth: bool, span: Span)
    | Duration(nanos: int64, span: Span)
    | List(items: seq<Value>, span: Span)
    | CellPath(members: seq<PathMember>, span: Span)
    | Record(entries: seq<Entry>, span: Span)
    | Other(span: Span)

  /** A field of a record: its name and its value. */
  datatype Entry = Entry(key: string, value: Value)
}

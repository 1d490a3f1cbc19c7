/**
 * The flags that choose how names are shown and where a command acts
 * (flags.go): `getFormatter` picks the renderer of names from the `format`
 * flag, and `location` reads the `bucket` and `key` flags.
 */
module Flags {

  import opened Wrappers
  import opened Bytes
  import opened Values
  import opened Runs
  import opened Format
  import opened Convert
  import opened Paths

  /** The renderers `getFormatter` can return (flags.go:46-65). */
  datatype Formatter =
    | NativeFormat     // a copy of the name's bytes, the default
    | StringifyFormat  // `stringifyName`
    | TextFormat       // `textName`
    | HexFormat        // `%x`
    | UpperHexFormat   // `%X`

  /**
   * `getFormatter(call)`: the renderer for the value of the `format` flag,
   * if it was given. No flag, or a word other than the four modes, keeps the
   * default; any other renderer is chosen by its own word.
   */
  function GetFormatter(flag: Option<string>): (f: Formatter)
    ensures flag.None? ==> f == NativeFormat
    ensures f != NativeFormat ==> flag == ModeName(f)
    ensures flag.Some? && flag.value !in {"stringify", "text", "hex", "HEX"} ==> f == NativeFormat
  {
    match flag
    case None => NativeFormat
    case Some(mode) =>
      if mode == "stringify" then StringifyFormat
      else if mode == "text" then TextFormat
      else if mode == "hex" then HexFormat
      else if mode == "HEX" then UpperHexFormat
      else NativeFormat
  }

  /** The `format` flag value that selects each renderer; the default needs none. */
  function ModeName(f: Formatter): Option<string>
  {
    match f
    case NativeFormat => None
    case StringifyFormat => Some("stringify")
    case TextFormat => Some("text")
    case HexFormat => Some("hex")
    case UpperHexFormat => Some("HEX")
  }

  /** The span of a value built by `nu.Value{Value: ...}`: none was given. */
  const NoSpan := Span(0, 0)

  /** The value each renderer makes of `name`. */
  function Rendering(isPrint: PrintPredicate, f: Formatter, name: seq<byte>): Value
  {
    match f
    case NativeFormat => Binary(name, NoSpan)
    case StringifyFormat => Str(Display(FormattedName(isPrint, name, true)), NoSpan)
    case TextFormat => Str(Display(FormattedName(isPrint, name, false)), NoSpan)
    case HexFormat => Str(Hex(name), NoSpan)
    case UpperHexFormat => Str(UpperHex(name), NoSpan)
  }

  /** Calls the renderer `getFormatter` returned on the name in `name`. */
  method Render(isPrint: PrintPredicate, f: Formatter, name: array<byte>) returns (v: Value)
    ensures v == Rendering(isPrint, f, name[..])
  {
    match f {
      case NativeFormat =>
        var c := Clone(name);
        v := Binary(c[..], NoSpan);
      case StringifyFormat =>
        var s := StringifyName(isPrint, name);
        v := Str(s, NoSpan);
      case TextFormat =>
        var s := TextName(isPrint, name);
        v := Str(s, NoSpan);
      case HexFormat =>
        v := Str(Hex(name[..]), NoSpan);
      case UpperHexFormat =>
        v := Str(UpperHex(name[..]), NoSpan);
    }
  }

  /**
   * Each renderer is selected by its own mode name, and a `format` value
   * selects something other than the default exactly when it is one of the
   * four mode names (flags.go:50-64).
   */
  lemma ModeNameRoundTrip(f: Formatter, mode: string)
    ensures GetFormatter(ModeName(f)) == f
    ensures GetFormatter(Some(mode)) != NativeFormat <==> mode in {"stringify", "text", "hex", "HEX"}
    ensures GetFormatter(Some(mode)) != NativeFormat ==> ModeName(GetFormatter(Some(mode))) == Some(mode)
  {
  }

  /** Without the flag, or with an unknown mode, the name is passed through as binary (flags.go:47-53, 64). */
  lemma DefaultPassesThrough(isPrint: PrintPredicate, flag: Option<string>, name: seq<byte>)
    requires flag.None? || flag.value !in {"stringify", "text", "hex", "HEX"}
    ensures Rendering(isPrint, GetFormatter(flag), name).Binary?
    ensures Rendering(isPrint, GetFormatter(flag), name).bytes == name
  {
  }

  /** A byte that `%x` may write: a digit or a lowercase letter `a`-`f`. */
  predicate IsLowerHexDigit(c: byte)
  {
    48 <= c <= 57 || 97 <= c <= 102
  }

  /** `%x` writes lowercase digits only. */
  lemma {:induction false} HexIsLowercase(b: seq<byte>)
    ensures forall k :: 0 <= k < |Hex(b)| ==> IsLowerHexDigit(Hex(b)[k])
  {
    if b != [] {
      HexIsLowercase(b[1..]);
      var h := Hex(b);
      assert forall k :: 2 <= k < |h| ==> h[k] == Hex(b[1..])[k - 2];
    }
  }

  /**
   * `hex` shows the whole name as exactly two lowercase digits per byte,
   * with no prefix, and the digits read back to the name (flags.go:59-60).
   */
  lemma HexRendering(isPrint: PrintPredicate, name: seq<byte>)
    ensures var v := Rendering(isPrint, GetFormatter(Some("hex")), name);
      && v.Str? && |v.text| == 2 * |name|
      && (forall k :: 0 <= k < |v.text| ==> IsLowerHexDigit(v.text[k]))
      && UnHex(v.text) == Some(name)
  {
    HexRoundTrip(name);
    HexIsLowercase(name);
  }

  /**
   * `HEX` shows the same digits as `hex`, upper-cased, and they read back
   * to the name as well (flags.go:61-62).
   */
  lemma UpperHexRendering(isPrint: PrintPredicate, name: seq<byte>)
    ensures var v := Rendering(isPrint, GetFormatter(Some("HEX")), name);
      && v.Str? && |v.text| == 2 * |name|
      && v.text == UpperAll(Rendering(isPrint, GetFormatter(Some("hex")), name).text)
      && UnHex(v.text) == Some(name)
  {
    UpperHexRoundTrip(name);
    UpperHexIsUpperCasedHex(name);
  }

  /**
   * The binary, hex and HEX renderers lose nothing: different names are
   * rendered differently.
   */
  lemma LosslessRenderers(isPrint: PrintPredicate, f: Formatter, a: seq<byte>, b: seq<byte>)
    requires f in {NativeFormat, HexFormat, UpperHexFormat}
    requires Rendering(isPrint, f, a) == Rendering(isPrint, f, b)
    ensures a == b
  {
    if f == HexFormat {
      HexRoundTrip(a);
      HexRoundTrip(b);
    } else if f == UpperHexFormat {
      UpperHexRoundTrip(a);
      UpperHexRoundTrip(b);
    }
  }

  // ---------------------------------------------------------------------------
  // location
  // ---------------------------------------------------------------------------

  /** Why the `bucket` or `key` flag does not name anything (flags.go:14, 21). */
  datatype LocationError =
    | InvalidBucketName(path: PathError)
    | InvalidKeyName(key: ConvertError)

  /** Where a command acts: the bucket path and the key, each only if its flag was given. */
  datatype Place = Place(bucket: Option<seq<BoltItem>>, key: Option<BoltItem>)

  /**
   * `location(call)` (flags.go:11-26), given the values of the `bucket` and
   * `key` flags. An error always concerns a flag that was given.
   */
  function Location(bucketFlag: Option<Value>, keyFlag: Option<Value>): (r: Result<Place, LocationError>)
    ensures r.Err? && r.error.InvalidBucketName? ==> bucketFlag.Some? && PathOf(bucketFlag.value) == Err(r.error.path)
    ensures r.Err? && r.error.InvalidKeyName? ==> keyFlag.Some? && BytesOf(keyFlag.value) == Err(r.error.key)
    ensures bucketFlag.None? && keyFlag.None? ==> r == Ok(Place(None, None))
  {
    var bucket :=
      match bucketFlag
      case None => Ok(None)
      case Some(b) => match PathOf(b) case Ok(p) => Ok(Some(p)) case Err(e) => Err(InvalidBucketName(e));
    var key :=
      match keyFlag
      case None => Ok(None)
      case Some(k) => match BytesOf(k) case Ok(n) => Ok(Some(BoltItem(n, k.span))) case Err(e) => Err(InvalidKeyName(e));
    if bucket.Err? then Err(bucket.error)
    else if key.Err? then Err(key.error)
    else Ok(Place(bucket.value, key.value))
  }

  /**
   * `location` succeeds exactly when each given flag converts; it then
   * returns a bucket path exactly when the `bucket` flag was given and a key
   * exactly when the `key` flag was given, the key keeping the flag's span.
   */
  lemma LocationOk(bucketFlag: Option<Value>, keyFlag: Option<Value>)
    ensures Location(bucketFlag, keyFlag).Ok? <==>
      (bucketFlag.Some? ==> PathOf(bucketFlag.value).Ok?) && (keyFlag.Some? ==> BytesOf(keyFlag.value).Ok?)
    ensures Location(bucketFlag, keyFlag).Ok? ==>
      var place := Location(bucketFlag, keyFlag).value;
      && (place.bucket.Some? <==> bucketFlag.Some?)
      && (place.key.Some? <==> keyFlag.Some?)
      && (bucketFlag.Some? ==> Ok(place.bucket.value) == PathOf(bucketFlag.value))
      && (keyFlag.Some? ==> Ok(place.key.value.name) == BytesOf(keyFlag.value) && place.key.value.span == keyFlag.value.span)
  {
  }

  /**
   * A bucket flag that does not convert is reported first; a key flag that
   * does not convert is reported only when the bucket flag is absent or
   * converts (flags.go:12-22).
   */
  lemma LocationFailure(bucketFlag: Option<Value>, keyFlag: Option<Value>)
    ensures bucketFlag.Some? && PathOf(bucketFlag.value).Err? ==>
      Location(bucketFlag, keyFlag) == Err(InvalidBucketName(PathOf(bucketFlag.value).error))
    ensures (bucketFlag.None? || PathOf(bucketFlag.value).Ok?) && keyFlag.Some? && BytesOf(keyFlag.value).Err? ==>
      Location(bucketFlag, keyFlag) == Err(InvalidKeyName(BytesOf(keyFlag.value).error))
  {
  }
}

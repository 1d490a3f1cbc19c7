/**
 * `toBytes` (util.go:10-43): the byte name a nushell value stands for.
 * Binary values are names already, a string is its bytes, a small integer
 * is one byte, and a list is the concatenation of what its elements stand
 * for; anything else cannot name a bucket or a key.
 */
module Convert {

  import opened Wrappers
  import opened Bytes
  import opened Values

  /** Why a value does not convert to a name. */
  datatype ConvertError =
    | OutOfRange(number: int64, span: Span)   // util.go:20-23
    | Unsupported(span: Span)                 // util.go:36-41

  /** `uint8(t)`: Go keeps the low eight bits of the two's complement. */
  function LowByte(t: int64): byte
  {
    (t as int % 256) as byte
  }

  /**
   * What `toBytes(v)` returns: binary values and strings are their own
   * bytes, and only those, integers and lists convert; an error points at
   * the value, or at an element of the list, that does not convert.
   */
  function BytesOf(v: Value): (r: Result<seq<byte>, ConvertError>)
    ensures v.Binary? ==> r == Ok(v.bytes)
    ensures v.Str? ==> r == Ok(v.text)
    ensures r.Ok? ==> v.Binary? || v.Str? || v.Int? || v.List?
    ensures r.Err? && r.error.OutOfRange? ==> r.error.number >= 256
    decreases v
  {
    match v
    case Binary(b, _) => Ok(b)
    case Str(s, _) => Ok(s)
    case Int(t, span) => if t < 256 then Ok([LowByte(t)]) else Err(OutOfRange(t, span))
    case List(items, _) => ListBytes(items)
    case _ => Err(Unsupported(v.span))
  }

  /**
   * The loop of util.go:25-33 over `items`: the elements' names in order,
   * or the error of the first element that does not convert.
   */
  function ListBytes(items: seq<Value>): (r: Result<seq<byte>, ConvertError>)
    ensures r.Err? && r.error.OutOfRange? ==> r.error.number >= 256
    decreases items
  {
    if items == [] then Ok([])
    else
      match ListBytes(items[..|items| - 1])
      case Err(e) => Err(e)
      case Ok(r) =>
        match BytesOf(items[|items| - 1])
        case Err(e) => Err(e)
        case Ok(b) => Ok(r + b)
  }

  /** `toBytes(v)` (util.go:10-43), recursing into lists and appending each element's bytes. */
  method ToBytes(v: Value) returns (r: Result<seq<byte>, ConvertError>)
    ensures r == BytesOf(v)
    decreases v
  {
    match v {
      case Binary(b, _) => return Ok(b);
      case Str(s, _) => return Ok(s);
      case Int(t, span) =>
        if t < 256 {
          return Ok([LowByte(t)]);
        }
        return Err(OutOfRange(t, span));
      case List(items, _) =>
        var acc: seq<byte> := [];
        for k := 0 to |items|
          invariant ListBytes(items[..k]) == Ok(acc)
        {
          var b := ToBytes(items[k]);
          assert items[..k + 1][..k] == items[..k];
          if b.Err? {
            ListBytesStopsAtError(items, k + 1);
            return Err(b.error);
          }
          acc := acc + b.value;
        }
        assert items[..|items|] == items;
        return Ok(acc);
      case _ => return Err(Unsupported(v.span));
    }
  }

  /** Once a prefix of the list fails, the whole list fails with the same error. */
  lemma {:induction false} ListBytesStopsAtError(items: seq<Value>, k: nat)
    requires k <= |items| && ListBytes(items[..k]).Err?
    ensures ListBytes(items) == ListBytes(items[..k])
    decreases |items| - k
  {
    if k < |items| {
      var p := items[..k + 1];
      assert p[..|p| - 1] == items[..k];
      assert items[..k + 1][..k] == items[..k];
      ListBytesStopsAtError(items, k + 1);
    } else {
      assert items[..k] == items;
    }
  }

  /** A list converts exactly when every element does (util.go:26-32). */
  lemma {:induction false} ListBytesOk(items: seq<Value>)
    ensures ListBytes(items).Ok? <==> forall i :: 0 <= i < |items| ==> BytesOf(items[i]).Ok?
  {
    if items != [] {
      var p := items[..|items| - 1];
      ListBytesOk(p);
      assert forall i :: 0 <= i < |p| ==> p[i] == items[i];
    }
  }

  /**
   * A list fails with error `e` exactly when some element does and every
   * element before it converts: the first failure is the one reported
   * (util.go:27-30).
   */
  lemma {:induction false} ListBytesFirstError(items: seq<Value>, e: ConvertError)
    ensures ListBytes(items) == Err(e) <==>
      exists k :: 0 <= k < |items| && (forall i :: 0 <= i < k ==> BytesOf(items[i]).Ok?) && BytesOf(items[k]) == Err(e)
  {
    if items != [] {
      var n := |items| - 1;
      var p := items[..n];
      ListBytesFirstError(p, e);
      ListBytesOk(p);
      assert forall i :: 0 <= i < |p| ==> p[i] == items[i];
      if ListBytes(items) == Err(e) {
        if ListBytes(p).Err? {
          var k :| 0 <= k < |p| && (forall i :: 0 <= i < k ==> BytesOf(p[i]).Ok?) && BytesOf(p[k]) == Err(e);
          assert BytesOf(items[k]) == Err(e);
        } else {
          assert BytesOf(items[n]) == Err(e);
        }
      }
      if exists k :: 0 <= k < |items| && (forall i :: 0 <= i < k ==> BytesOf(items[i]).Ok?) && BytesOf(items[k]) == Err(e) {
        var k :| 0 <= k < |items| && (forall i :: 0 <= i < k ==> BytesOf(items[i]).Ok?) && BytesOf(items[k]) == Err(e);
        if k < n {
          assert BytesOf(p[k]) == Err(e);
        } else {
          assert ListBytes(p).Ok?;
        }
      }
    }
  }

  /** Converting a concatenation of lists concatenates the names (util.go:31). */
  lemma {:induction false} ListBytesAppend(a: seq<Value>, b: seq<Value>, x: seq<byte>, y: seq<byte>)
    requires ListBytes(a) == Ok(x) && ListBytes(b) == Ok(y)
    ensures ListBytes(a + b) == Ok(x + y)
  {
    if b == [] {
      assert a + b == a && x + y == x;
    } else {
      var q := b[..|b| - 1];
      var last := b[|b| - 1];
      var yq := ListBytes(q).value;
      var yl := BytesOf(last).value;
      ListBytesAppend(a, q, x, yq);
      assert (a + b)[..|a + b| - 1] == a + q;
      assert x + yq + yl == x + (yq + yl);
    }
  }

  /** The total length of the names of `items`' elements, counting a failing element as empty. */
  function NamesLength(items: seq<Value>): nat
  {
    if items == [] then 0
    else NamesLength(items[..|items| - 1]) + match BytesOf(items[|items| - 1]) case Ok(b) => |b| case Err(_) => 0
  }

  /** A converted list is as long as its elements' names together. */
  lemma {:induction false} ListBytesLength(items: seq<Value>)
    requires ListBytes(items).Ok?
    ensures |ListBytes(items).value| == NamesLength(items)
  {
    if items != [] {
      ListBytesLength(items[..|items| - 1]);
    }
  }

  /**
   * An integer converts exactly when it is below 256, to the one byte
   * `uint8(t)`, which keeps the low eight bits of the two's complement
   * `int64`: `t` modulo 256 for every `t` below 256, so itself when it is
   * not negative, `t + 256` for -256 <= t < 0, and so on below that
   * (util.go:16-23).
   */
  lemma IntName(t: int64, span: Span)
    ensures BytesOf(Int(t, span)).Ok? <==> t < 256
    ensures t >= 256 ==> BytesOf(Int(t, span)) == Err(OutOfRange(t, span))
    ensures t < 256 ==> |BytesOf(Int(t, span)).value| == 1
    ensures 0 <= t < 256 ==> BytesOf(Int(t, span)).value[0] as int == t as int
    ensures -256 <= t < 0 ==> BytesOf(Int(t, span)).value[0] as int == t as int + 256
    ensures t < 256 ==> BytesOf(Int(t, span)).value[0] as int == t as int % 256
  {
  }
}

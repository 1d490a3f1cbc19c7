/**
 * `toPath` (path.go:20-47): a bucket path from a flag value. A list gives
 * one path item per element, a cell path one per member, any other value a
 * path of one item; every item keeps the span of what it came from. The
 * older copy in utils.go:52-68 builds the bare names only.
 */
module Paths {

  import opened Wrappers
  import opened Bytes
  import opened Values
  import opened Convert

  /** `boltItem` (path.go:12-18): a bucket or key name and where it was written. */
  datatype BoltItem = BoltItem(name: seq<byte>, span: Span)

  /** Why a value does not describe a bucket path. */
  datatype PathError =
    | Conversion(cause: ConvertError)   // an element's `toBytes` error, passed on unchanged
    | IntegerMember(span: Span)         // path.go:33-35
    | OptionalMember(span: Span)        // path.go:36-39

  /**
   * Applies `f` to every element in order and collects the results, or
   * stops at the first element whose result is an error: the shape of each
   * conversion loop of path.go and utils.go.
   */
  function Collect<X, T, E>(xs: seq<X>, f: X -> Result<T, E>): Result<seq<T>, E>
  {
    if xs == [] then Ok([])
    else
      match Collect(xs[..|xs| - 1], f)
      case Err(e) => Err(e)
      case Ok(p) =>
        match f(xs[|xs| - 1])
        case Err(e) => Err(e)
        case Ok(t) => Ok(p + [t])
  }

  /** The path item of a list element (path.go:22-29). */
  function ElementItem(v: Value): Result<BoltItem, PathError>
  {
    match BytesOf(v)
    case Ok(b) => Ok(BoltItem(b, v.span))
    case Err(e) => Err(Conversion(e))
  }

  /** The path item of a cell-path member (path.go:32-40): only required string members name a bucket. */
  function MemberItem(m: PathMember): Result<BoltItem, PathError>
  {
    if m.IntMember? then Err(IntegerMember(m.span))
    else if m.optional then Err(OptionalMember(m.span))
    else Ok(BoltItem(m.text, m.span))
  }

  /** What `toPath(v)` (path.go:20-47) returns: one item per list element or cell-path member, else one item. */
  function PathOf(v: Value): (r: Result<seq<BoltItem>, PathError>)
    ensures r.Ok? ==> |r.value| == match v case List(items, _) => |items| case CellPath(members, _) => |members| case _ => 1
  {
    CollectShape(if v.List? then v.items else [], ElementItem);
    CollectShape(if v.CellPath? then v.members else [], MemberItem);
    match v
    case List(items, _) => Collect(items, ElementItem)
    case CellPath(members, _) => Collect(members, MemberItem)
    case _ =>
      match ElementItem(v)
      case Ok(item) => Ok([item])
      case Err(e) => Err(e)
  }

  /** The names of a path, in order. */
  function Names(path: seq<BoltItem>): (names: seq<seq<byte>>)
    ensures |names| == |path| && forall i :: 0 <= i < |path| ==> names[i] == path[i].name
  {
    seq(|path|, i requires 0 <= i < |path| => path[i].name)
  }

  /** `toPath(v)` (path.go:20-47). */
  method ToPath(v: Value) returns (r: Result<seq<BoltItem>, PathError>)
    ensures r == PathOf(v)
  {
    if v.List? {
      var items := v.items;
      var path: seq<BoltItem> := [];
      for k := 0 to |items|
        invariant Collect(items[..k], ElementItem) == Ok(path)
      {
        var b := ToBytes(items[k]);
        assert items[..k + 1][..k] == items[..k];
        if b.Err? {
          CollectStopsAtError(items, ElementItem, k + 1);
          return Err(Conversion(b.error));
        }
        path := path + [BoltItem(b.value, items[k].span)];
      }
      assert items[..|items|] == items;
      return Ok(path);
    } else if v.CellPath? {
      var members := v.members;
      var path: seq<BoltItem> := [];
      for k := 0 to |members|
        invariant Collect(members[..k], MemberItem) == Ok(path)
      {
        var m := members[k];
        assert members[..k + 1][..k] == members[..k];
        if m.IntMember? {
          CollectStopsAtError(members, MemberItem, k + 1);
          return Err(IntegerMember(m.span));
        }
        if m.optional {
          CollectStopsAtError(members, MemberItem, k + 1);
          return Err(OptionalMember(m.span));
        }
        path := path + [BoltItem(m.text, m.span)];
      }
      assert members[..|members|] == members;
      return Ok(path);
    }
    var b := ToBytes(v);
    if b.Err? {
      return Err(Conversion(b.error));
    }
    return Ok([BoltItem(b.value, v.span)]);
  }

  /** Once a prefix fails, the whole collection fails with the same error. */
  lemma {:induction false} CollectStopsAtError<X, T, E>(xs: seq<X>, f: X -> Result<T, E>, k: nat)
    requires k <= |xs| && Collect(xs[..k], f).Err?
    ensures Collect(xs, f) == Collect(xs[..k], f)
    decreases |xs| - k
  {
    if k < |xs| {
      var p := xs[..k + 1];
      assert p[..|p| - 1] == xs[..k];
      CollectStopsAtError(xs, f, k + 1);
    } else {
      assert xs[..k] == xs;
    }
  }

  /**
   * The collection succeeds exactly when every element does, and then holds
   * one result per element, in order.
   */
  lemma {:induction false} CollectShape<X, T, E>(xs: seq<X>, f: X -> Result<T, E>)
    ensures Collect(xs, f).Ok? <==> forall i :: 0 <= i < |xs| ==> f(xs[i]).Ok?
    ensures Collect(xs, f).Ok? ==>
      |Collect(xs, f).value| == |xs| && forall i :: 0 <= i < |xs| ==> Collect(xs, f).value[i] == f(xs[i]).value
  {
    if xs != [] {
      var p := xs[..|xs| - 1];
      CollectShape(p, f);
      assert forall i :: 0 <= i < |p| ==> p[i] == xs[i];
    }
  }

  /** The collection fails with `e` exactly when the first failing element fails with `e`. */
  lemma {:induction false} CollectFirstError<X, T, E>(xs: seq<X>, f: X -> Result<T, E>, e: E)
    ensures Collect(xs, f) == Err(e) <==>
      exists k :: 0 <= k < |xs| && (forall i :: 0 <= i < k ==> f(xs[i]).Ok?) && f(xs[k]) == Err(e)
  {
    if xs != [] {
      var n := |xs| - 1;
      var p := xs[..n];
      CollectFirstError(p, f, e);
      CollectShape(p, f);
      assert forall i :: 0 <= i < |p| ==> p[i] == xs[i];
      if Collect(xs, f) == Err(e) {
        if Collect(p, f).Err? {
          var k :| 0 <= k < |p| && (forall i :: 0 <= i < k ==> f(p[i]).Ok?) && f(p[k]) == Err(e);
          assert f(xs[k]) == Err(e);
        } else {
          assert f(xs[n]) == Err(e);
        }
      }
      if exists k :: 0 <= k < |xs| && (forall i :: 0 <= i < k ==> f(xs[i]).Ok?) && f(xs[k]) == Err(e) {
        var k :| 0 <= k < |xs| && (forall i :: 0 <= i < k ==> f(xs[i]).Ok?) && f(xs[k]) == Err(e);
        if k < n {
          assert f(p[k]) == Err(e);
        }
      }
    }
  }

  /**
   * A list gives one item per element, in order: the element's name and
   * span (path.go:22-30); it fails exactly when an element does not convert.
   */
  lemma ListPath(items: seq<Value>, span: Span)
    ensures PathOf(List(items, span)).Ok? <==> forall i :: 0 <= i < |items| ==> BytesOf(items[i]).Ok?
    ensures PathOf(List(items, span)).Ok? ==>
      var p := PathOf(List(items, span)).value;
      |p| == |items| && forall i :: 0 <= i < |items| ==> Ok(p[i].name) == BytesOf(items[i]) && p[i].span == items[i].span
  {
    CollectShape(items, ElementItem);
  }

  /**
   * A cell path gives one item per member, the member's text and span
   * (path.go:31-41); it fails exactly when some member is an integer or
   * optional member.
   */
  lemma CellPathPath(members: seq<PathMember>, span: Span)
    ensures PathOf(CellPath(members, span)).Ok? <==>
      forall i :: 0 <= i < |members| ==> members[i].StringMember? && !members[i].optional
    ensures PathOf(CellPath(members, span)).Ok? ==>
      var p := PathOf(CellPath(members, span)).value;
      |p| == |members| && forall i :: 0 <= i < |members| ==> p[i] == BoltItem(members[i].text, members[i].span)
  {
    CollectShape(members, MemberItem);
  }

  /**
   * The error of a cell path is that of its first unusable member; an
   * integer member is reported as such even when it is also optional
   * (path.go:33-39).
   */
  lemma CellPathError(members: seq<PathMember>, span: Span, e: PathError)
    ensures PathOf(CellPath(members, span)) == Err(e) <==>
      exists k :: 0 <= k < |members|
        && (forall i :: 0 <= i < k ==> members[i].StringMember? && !members[i].optional)
        && e == (if members[k].IntMember? then IntegerMember(members[k].span) else OptionalMember(members[k].span))
        && (members[k].IntMember? || members[k].optional)
  {
    CollectFirstError(members, MemberItem, e);
  }

  /** Any other value is a path of one item (path.go:43-45). */
  lemma ScalarPath(v: Value)
    requires !v.List? && !v.CellPath?
    ensures PathOf(v).Ok? <==> BytesOf(v).Ok?
    ensures PathOf(v).Ok? ==> PathOf(v).value == [BoltItem(BytesOf(v).value, v.span)]
  {
  }

  /** What the older `toPath(v)` of utils.go:52-68 returns: the names alone. */
  function LegacyPathOf(v: Value): Result<seq<seq<byte>>, ConvertError>
  {
    match v
    case List(items, _) => Collect(items, BytesOf)
    case _ =>
      match BytesOf(v)
      case Ok(b) => Ok([b])
      case Err(e) => Err(e)
  }

  /** The older `toPath(v)` (utils.go:52-68). */
  method LegacyToPath(v: Value) returns (r: Result<seq<seq<byte>>, ConvertError>)
    ensures r == LegacyPathOf(v)
  {
    if v.List? {
      var items := v.items;
      var path: seq<seq<byte>> := [];
      for k := 0 to |items|
        invariant Collect(items[..k], BytesOf) == Ok(path)
      {
        var b := ToBytes(items[k]);
        assert items[..k + 1][..k] == items[..k];
        if b.Err? {
          CollectStopsAtError(items, BytesOf, k + 1);
          return Err(b.error);
        }
        path := path + [b.value];
      }
      assert items[..|items|] == items;
      return Ok(path);
    }
    var b := ToBytes(v);
    if b.Err? {
      return Err(b.error);
    }
    return Ok([b.value]);
  }

  /**
   * Except on cell paths, which it does not know, the older `toPath` names
   * the same buckets as the current one and fails with the same conversion
   * error; on a cell path it always fails.
   */
  lemma LegacyPathAgrees(v: Value)
    ensures !v.CellPath? ==> (LegacyPathOf(v).Ok? <==> PathOf(v).Ok?)
    ensures !v.CellPath? && PathOf(v).Ok? ==> LegacyPathOf(v).value == Names(PathOf(v).value)
    ensures !v.CellPath? && PathOf(v).Err? ==> PathOf(v) == Err(Conversion(LegacyPathOf(v).error))
    ensures v.CellPath? ==> LegacyPathOf(v) == Err(Unsupported(v.span))
  {
    if v.List? {
      CollectShape(v.items, BytesOf);
      CollectShape(v.items, ElementItem);
      if PathOf(v).Err? {
        var e := PathOf(v).error;
        CollectFirstError(v.items, ElementItem, e);
        var k :| 0 <= k < |v.items| && (forall i :: 0 <= i < k ==> ElementItem(v.items[i]).Ok?) && ElementItem(v.items[k]) == Err(e);
        CollectFirstError(v.items, BytesOf, e.cause);
      }
    }
  }
}

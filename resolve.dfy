/**
 * `goToBucket`: following a bucket path down the database's bucket tree.
 * The current version (path.go:49-57) reports the missing bucket's name in
 * hex together with its span; the older one (utils.go:15-37) describes the
 * path walked so far and the missing segment with `pathStr`.
 *
 * The storage engine is reduced to its bucket tree: a bucket is the map
 * from the names of its child buckets to those buckets.
 */
module Resolve {

  import opened Wrappers
  import opened Bytes
  import opened Values
  import opened Runs
  import opened Format
  import opened Paths

  /** A bucket and, by name, its child buckets. */
  datatype Bucket = Bucket(children: map<seq<byte>, Bucket>)

  /** `b.Bucket(name)`: the child bucket called `name`, if there is one. */
  function Child(b: Bucket, name: seq<byte>): Option<Bucket>
  {
    if name in b.children then Some(b.children[name]) else None
  }

  /**
   * The loop of `goToBucket` over `names`: the bucket reached, or the index
   * of the first segment that names no child of the bucket reached before it.
   */
  function Walk(root: Bucket, names: seq<seq<byte>>): (r: Result<Bucket, nat>)
    ensures r.Err? ==> r.error < |names|
  {
    if names == [] then Ok(root)
    else
      match Walk(root, names[..|names| - 1])
      case Err(i) => Err(i)
      case Ok(b) =>
        match Child(b, names[|names| - 1])
        case None => Err(|names| - 1)
        case Some(c) => Ok(c)
  }

  /** The bucket at the end of `names` below `b`, reading the path from its first segment. */
  function Descend(b: Bucket, names: seq<seq<byte>>): Option<Bucket>
  {
    if names == [] then Some(b)
    else
      match Child(b, names[0])
      case None => None
      case Some(c) => Descend(c, names[1..])
  }

  // ---------------------------------------------------------------------------
  // path.go
  // ---------------------------------------------------------------------------

  /** The error of path.go:54: the missing bucket's name and where it was written. */
  datatype ResolveError = NoSuchBucket(name: seq<byte>, span: Span)

  /** `fmt.Errorf("bucket %x doesn't exist", name)`. */
  function Message(e: ResolveError): seq<byte>
  {
    Ascii("bucket ") + Hex(e.name) + Ascii(" doesn't exist")
  }

  /**
   * What `goToBucket(tx, path)` (path.go:49-57) returns: the bucket at the
   * end of the path, or an error naming a segment of the path and its span.
   */
  function Resolved(root: Bucket, path: seq<BoltItem>): (r: Result<Bucket, ResolveError>)
    ensures r.Ok? <==> Descend(root, Names(path)).Some?
    ensures r.Ok? ==> r.value == Descend(root, Names(path)).value
    ensures r.Err? ==> exists i :: 0 <= i < |path| && r.error == NoSuchBucket(path[i].name, path[i].span)
  {
    WalkFollowsPath(root, Names(path));
    match Walk(root, Names(path))
    case Ok(b) => Ok(b)
    case Err(i) => Err(NoSuchBucket(path[i].name, path[i].span))
  }

  /** `goToBucket(tx, path)` (path.go:49-57), starting at the root bucket `root`. */
  method GoToBucket(root: Bucket, path: seq<BoltItem>) returns (r: Result<Bucket, ResolveError>)
    ensures r == Resolved(root, path)
    ensures path == [] ==> r == Ok(root)
  {
    var b := root;
    ghost var names := Names(path);
    for k := 0 to |path|
      invariant Walk(root, names[..k]) == Ok(b)
    {
      assert names[..k + 1][..k] == names[..k];
      var c := Child(b, path[k].name);
      if c.None? {
        WalkStopsAtError(root, names, k + 1);
        return Err(NoSuchBucket(path[k].name, path[k].span));
      }
      b := c.value;
    }
    assert names[..|path|] == names;
    return Ok(b);
  }

  /** Once a prefix of the path is missing, the walk fails there. */
  lemma {:induction false} WalkStopsAtError(root: Bucket, names: seq<seq<byte>>, k: nat)
    requires k <= |names| && Walk(root, names[..k]).Err?
    ensures Walk(root, names) == Walk(root, names[..k])
    decreases |names| - k
  {
    if k < |names| {
      var p := names[..k + 1];
      assert p[..|p| - 1] == names[..k];
      WalkStopsAtError(root, names, k + 1);
    } else {
      assert names[..k] == names;
    }
  }

  /** Following a path one segment further. */
  lemma {:induction false} DescendSnoc(b: Bucket, names: seq<seq<byte>>, x: seq<byte>)
    ensures Descend(b, names + [x]) == match Descend(b, names) case None => None case Some(c) => Child(c, x)
  {
    if names != [] {
      assert (names + [x])[1..] == names[1..] + [x];
      match Child(b, names[0])
      case None =>
      case Some(c) => DescendSnoc(c, names[1..], x);
    }
  }

  /**
   * The walk succeeds exactly when every segment names a child of the
   * bucket reached before it, and ends at that path's last bucket
   * (utils.go:16-24, path.go:51-56).
   */
  lemma {:induction false} WalkFollowsPath(root: Bucket, names: seq<seq<byte>>)
    ensures Walk(root, names).Ok? <==> Descend(root, names).Some?
    ensures Walk(root, names).Ok? ==> Walk(root, names).value == Descend(root, names).value
  {
    if names != [] {
      var p := names[..|names| - 1];
      WalkFollowsPath(root, p);
      DescendSnoc(root, p, names[|names| - 1]);
      assert p + [names[|names| - 1]] == names;
    }
  }

  /**
   * The walk fails at segment `i` exactly when the first `i` segments lead
   * to a bucket that has no child called `names[i]`; later segments are
   * never looked at.
   */
  lemma {:induction false} WalkFailsAtFirstMissing(root: Bucket, names: seq<seq<byte>>, i: nat)
    ensures Walk(root, names) == Err(i) <==>
      i < |names| && Walk(root, names[..i]).Ok? && names[i] !in Walk(root, names[..i]).value.children
  {
    if names != [] {
      var n := |names| - 1;
      var p := names[..n];
      WalkFailsAtFirstMissing(root, p, i);
      if i < n {
        assert p[..i] == names[..i];
        if Walk(root, names) == Err(i) {
          assert Walk(root, p) == Err(i);
        }
        if Walk(root, names[..i]).Ok? && names[i] !in Walk(root, names[..i]).value.children {
          assert p[i] == names[i];
          assert Walk(root, p) == Err(i);
        }
      } else if i == n {
        assert names[..i] == p;
        if Walk(root, names) == Err(i) {
          assert Walk(root, p).Ok? by {
            if Walk(root, p).Err? {
              assert Walk(root, p).error < n;
            }
          }
        }
      }
    }
  }

  /** The error message names the missing bucket: its hex digits read back to the name. */
  lemma MessageNamesBucket(e: ResolveError)
    ensures var m := Message(e);
      |m| == 2 * |e.name| + 21 && UnHex(m[7..|m| - 14]) == Some(e.name)
  {
    HexRoundTrip(e.name);
    var m := Message(e);
    assert m[7..|m| - 14] == Hex(e.name);
  }

  // ---------------------------------------------------------------------------
  // utils.go
  // ---------------------------------------------------------------------------

  /** The separator `" -> "` between the segments of a described path. */
  const Arrow: seq<byte> := [0x20, 0x2D, 0x3E, 0x20]

  /** How `pathStr` shows one segment: its text-mode display (utils.go:30-34). */
  function SegmentText(isPrint: PrintPredicate, name: seq<byte>): seq<byte>
  {
    Display(FormattedName(isPrint, name, false))
  }

  /** The shown segments of a path. */
  function Segments(isPrint: PrintPredicate, path: seq<seq<byte>>): (r: seq<seq<byte>>)
    ensures |r| == |path| && forall i :: 0 <= i < |path| ==> r[i] == SegmentText(isPrint, path[i])
  {
    seq(|path|, i requires 0 <= i < |path| => SegmentText(isPrint, path[i]))
  }

  /** What `pathStr(path)` promises: the shown segments joined by `" -> "`. */
  function PathText(isPrint: PrintPredicate, path: seq<seq<byte>>): seq<byte>
  {
    Join(Segments(isPrint, path), Arrow)
  }

  /** Every part followed by `" -> "`: what the loop of `pathStr` accumulates. */
  function Terminated(parts: seq<seq<byte>>): seq<byte>
  {
    if parts == [] then [] else Terminated(parts[..|parts| - 1]) + parts[|parts| - 1] + Arrow
  }

  /** `strings.TrimSuffix(s, suffix)`. */
  function TrimSuffix(s: seq<byte>, suffix: seq<byte>): seq<byte>
  {
    if |suffix| <= |s| && s[|s| - |suffix|..] == suffix then s[..|s| - |suffix|] else s
  }

  /** `pathStr(path)` (utils.go:27-37). */
  method PathStr(isPrint: PrintPredicate, path: seq<seq<byte>>) returns (s: seq<byte>)
    ensures s == PathText(isPrint, path)
  {
    ghost var parts := Segments(isPrint, path);
    var acc: seq<byte> := [];
    for k := 0 to |path|
      invariant acc == Terminated(parts[..k])
    {
      assert parts[..k + 1][..k] == parts[..k];
      var n := FormattedName(isPrint, path[k], false);
      if |n| == 1 {
        acc := acc + n[0] + Arrow;
      } else {
        acc := acc + (LeftBracket + Join(n, CommaSpace) + RightBracket) + Arrow;
      }
    }
    assert parts[..|path|] == parts;
    TrimTerminated(parts);
    s := TrimSuffix(acc, Arrow);
  }

  /** Joining one more part. */
  lemma {:induction false} JoinSnoc(parts: seq<seq<byte>>, x: seq<byte>, sep: seq<byte>)
    requires parts != []
    ensures Join(parts + [x], sep) == Join(parts, sep) + sep + x
  {
    var q := parts + [x];
    assert q[1..] == parts[1..] + [x];
    if |parts| == 1 {
      assert q[1..] == [x];
    } else {
      JoinSnoc(parts[1..], x, sep);
      assert parts[0] + sep + (Join(parts[1..], sep) + sep + x) == parts[0] + sep + Join(parts[1..], sep) + sep + x;
    }
  }

  /** The accumulated text is the joined text with one separator too many at the end. */
  lemma {:induction false} TerminatedJoin(parts: seq<seq<byte>>)
    requires parts != []
    ensures Terminated(parts) == Join(parts, Arrow) + Arrow
  {
    var p := parts[..|parts| - 1];
    var x := parts[|parts| - 1];
    assert p + [x] == parts;
    if p == [] {
      assert Terminated(parts) == [] + x + Arrow;
    } else {
      TerminatedJoin(p);
      JoinSnoc(p, x, Arrow);
    }
  }

  /** Trimming the last separator leaves exactly the joined text, and no trailing `" -> "` (utils.go:36). */
  lemma TrimTerminated(parts: seq<seq<byte>>)
    ensures TrimSuffix(Terminated(parts), Arrow) == Join(parts, Arrow)
  {
    if parts != [] {
      TerminatedJoin(parts);
      var j := Join(parts, Arrow);
      assert (j + Arrow)[|j + Arrow| - |Arrow|..] == Arrow;
      assert (j + Arrow)[..|j + Arrow| - |Arrow|] == j;
    }
  }

  /** A path of one segment is described by that segment's display alone. */
  lemma PathTextOne(isPrint: PrintPredicate, name: seq<byte>)
    ensures PathText(isPrint, [name]) == SegmentText(isPrint, name)
  {
    assert Segments(isPrint, [name]) == [SegmentText(isPrint, name)];
  }

  /** The fixed texts of the older error messages (utils.go:19, 21). */
  const InvalidPathBucket: seq<byte> := Ascii("invalid path, bucket ")
  const DoesNotContain: seq<byte> := Ascii(" does not contain bucket ")
  const InvalidPathRoot: seq<byte> := Ascii("invalid path, root bucket does not contain bucket ")

  /** The older error for segment `i` of `path` missing (utils.go:18-21). */
  function MissingText(isPrint: PrintPredicate, path: seq<seq<byte>>, i: nat): seq<byte>
    requires i < |path|
  {
    if i > 0 then InvalidPathBucket + PathText(isPrint, path[..i]) + DoesNotContain + PathText(isPrint, [path[i]])
    else InvalidPathRoot + PathText(isPrint, [path[i]])
  }

  /** What the older `goToBucket(root, path)` (utils.go:15-25) returns. */
  function LegacyResolved(isPrint: PrintPredicate, root: Bucket, path: seq<seq<byte>>): Result<Bucket, seq<byte>>
  {
    match Walk(root, path)
    case Ok(b) => Ok(b)
    case Err(i) => Err(MissingText(isPrint, path, i))
  }

  /** The older `goToBucket(root, path)` (utils.go:15-25). */
  method LegacyGoToBucket(isPrint: PrintPredicate, root: Bucket, path: seq<seq<byte>>) returns (r: Result<Bucket, seq<byte>>)
    ensures r == LegacyResolved(isPrint, root, path)
    ensures path == [] ==> r == Ok(root)
  {
    var b := root;
    for i := 0 to |path|
      invariant Walk(root, path[..i]) == Ok(b)
    {
      assert path[..i + 1][..i] == path[..i];
      var c := Child(b, path[i]);
      if c.None? {
        WalkStopsAtError(root, path, i + 1);
        var missing := PathStr(isPrint, [path[i]]);
        if i > 0 {
          var walked := PathStr(isPrint, path[..i]);
          return Err(InvalidPathBucket + walked + DoesNotContain + missing);
        }
        return Err(InvalidPathRoot + missing);
      }
      b := c.value;
    }
    assert path[..|path|] == path;
    return Ok(b);
  }

  /**
   * The older error names the missing segment by its display and, past the
   * first segment, the path walked before it (utils.go:17-21).
   */
  lemma LegacyErrorNamesSegment(isPrint: PrintPredicate, root: Bucket, path: seq<seq<byte>>, i: nat)
    requires Walk(root, path) == Err(i)
    ensures i == 0 ==> LegacyResolved(isPrint, root, path) == Err(InvalidPathRoot + SegmentText(isPrint, path[0]))
    ensures i > 0 ==>
      LegacyResolved(isPrint, root, path) ==
        Err(InvalidPathBucket + Join(Segments(isPrint, path[..i]), Arrow) + DoesNotContain + SegmentText(isPrint, path[i]))
  {
    PathTextOne(isPrint, path[i]);
  }

  /**
   * Both versions walk the same tree the same way: they succeed on the same
   * paths, at the same bucket. Both are defined through `Walk`, so this
   * holds by unfolding the two definitions; it is the link that lets the
   * lemmas about `Walk` speak of either version.
   */
  lemma VersionsAgree(isPrint: PrintPredicate, root: Bucket, path: seq<BoltItem>)
    ensures Resolved(root, path).Ok? <==> LegacyResolved(isPrint, root, Names(path)).Ok?
    ensures Resolved(root, path).Ok? ==> Resolved(root, path).value == LegacyResolved(isPrint, root, Names(path)).value
  {
  }
}

/**
 * `tokenizeName` as the source runs it (format.go:45-92): a loop over the
 * buffer `slices.Clone` made (format.go:32), where a Binary token is a
 * slice of that buffer and `append` to it writes into the buffer in place.
 *
 * A Binary token is held as the bounds of its slice. The slice always ends
 * where the scan stands, so each in-place `append` copies bytes onto
 * themselves: `TokenizeName` proves that the buffer keeps its content and
 * that the tokens it returns are `Tokenize`'s.
 */
module NameBuffer {

  import opened Bytes
  import opened Runs
  import opened Quoting
  import opened Tokenizer

  /** An element of the source's `[]any` result: a string, or a slice `buf[lo:hi]`. */
  datatype Item = TextItem(text: seq<byte>) | SliceItem(lo: nat, hi: nat)

  /** Every slice lies inside a buffer of `n` bytes. */
  predicate InBounds(items: seq<Item>, n: nat)
  {
    forall k :: 0 <= k < |items| && items[k].SliceItem? ==> items[k].lo <= items[k].hi <= n
  }

  function ResolveItem(it: Item, buf: seq<byte>): Token
    requires it.SliceItem? ==> it.lo <= it.hi <= |buf|
  {
    match it
    case TextItem(t) => Text(t)
    case SliceItem(lo, hi) => Binary(buf[lo..hi])
  }

  /** The tokens the items stand for, read against the buffer `buf`. */
  function Resolve(items: seq<Item>, buf: seq<byte>): (r: seq<Token>)
    requires InBounds(items, |buf|)
    ensures |r| == |items|
    ensures forall k :: 0 <= k < |items| ==> r[k].Text? == items[k].TextItem?
  {
    seq(|items|, k requires 0 <= k < |items| => ResolveItem(items[k], buf))
  }

  /**
   * `append(buf[dst-m:dst], buf[src:src+n]...)` when the capacity of the
   * destination slice reaches `dst + n`: `n` bytes copied, with `copy`'s
   * overlap semantics, to `buf[dst..dst+n]`.
   */
  method AppendInPlace(buf: array<byte>, dst: nat, src: nat, n: nat)
    requires dst + n <= buf.Length && src + n <= buf.Length
    modifies buf
    ensures buf[..] == old(buf[..dst]) + old(buf[src..src + n]) + old(buf[dst + n..])
  {
    var chunk := buf[src..src + n];
    for k := 0 to n
      invariant forall m :: 0 <= m < buf.Length ==> buf[m] == if dst <= m < dst + k then chunk[m - dst] else old(buf[m])
    {
      buf[dst + k] := chunk[k];
    }
    ghost var want := old(buf[..dst]) + chunk + old(buf[dst + n..]);
    assert forall m :: 0 <= m < buf.Length ==> buf[..][m] == want[m];
  }

  /** Appending a slice onto its own end rewrites every byte with itself. */
  lemma SelfCopy(buf: seq<byte>, dst: nat, n: nat)
    requires dst + n <= |buf|
    ensures buf[..dst] + buf[dst..dst + n] + buf[dst + n..] == buf
  {
  }

  lemma ResolveAppend(items: seq<Item>, buf: seq<byte>, it: Item)
    requires InBounds(items, |buf|) && (it.SliceItem? ==> it.lo <= it.hi <= |buf|)
    ensures InBounds(items + [it], |buf|)
    ensures Resolve(items + [it], buf) == Resolve(items, buf) + [ResolveItem(it, buf)]
  {
  }

  /** `r[len(r)-1] = append(lr, ...)` on the items: the last slice grows by `n` bytes. */
  function ExtendItems(items: seq<Item>, n: nat): (items': seq<Item>)
    requires items != [] && items[|items| - 1].SliceItem?
    ensures |items'| == |items|
  {
    var last := items[|items| - 1];
    items[..|items| - 1] + [SliceItem(last.lo, last.hi + n)]
  }

  /** Extending the last slice by the bytes right after it is `ExtendLast` on the tokens. */
  lemma ResolveExtend(items: seq<Item>, buf: seq<byte>, n: nat)
    requires InBounds(items, |buf|) && items != [] && items[|items| - 1].SliceItem?
    requires items[|items| - 1].hi + n <= |buf|
    ensures var last := items[|items| - 1];
      && InBounds(ExtendItems(items, n), |buf|)
      && Resolve(ExtendItems(items, n), buf) == ExtendLast(Resolve(items, buf), buf[last.hi..last.hi + n])
  {
    var last := items[|items| - 1];
    assert buf[last.lo..last.hi + n] == buf[last.lo..last.hi] + buf[last.hi..last.hi + n];
  }

  /** The loop's invariant on the item list: the last item is a slice ending at `i`. */
  predicate EndsAt(items: seq<Item>, i: nat)
  {
    items == [] || (items[|items| - 1].SliceItem? && items[|items| - 1].hi == i)
  }

  /** The last item is a string: `printable` in the source. */
  predicate EndsText(items: seq<Item>)
  {
    items != [] && items[|items| - 1].TextItem?
  }

  /** The items after the printable run `buf[i..j]`, as format.go:50-73 builds them. */
  function PrintableItems(buf: seq<byte>, stringify: bool, i: nat, j: nat, items: seq<Item>): seq<Item>
    requires i <= j <= |buf| && EndsAt(items, i)
  {
    if j == i then items
    else if j - i < 3 && |items| > 0 then ExtendItems(items, j - i)
    else items + [TextItem(RunText(buf[i..j], stringify))]
  }

  lemma ResolvePrintable(buf: seq<byte>, stringify: bool, i: nat, j: nat, items: seq<Item>, items': seq<Item>)
    requires i <= j <= |buf| && EndsAt(items, i) && InBounds(items, |buf|)
    requires items' == PrintableItems(buf, stringify, i, j, items)
    ensures EndsBinary(Resolve(items, buf))
    ensures InBounds(items', |buf|)
    ensures Resolve(items', buf) == WithPrintable(buf, stringify, i, j, Resolve(items, buf))
    ensures EndsText(items') || EndsAt(items', j)
  {
    if j > i {
      if j - i < 3 && |items| > 0 {
        ResolveExtend(items, buf, j - i);
      } else {
        ResolveAppend(items, buf, TextItem(RunText(buf[i..j], stringify)));
      }
    }
  }

  /** The items after the unprintable run `buf[j..k]`, as format.go:80-88 builds them. */
  function UnprintableItems(j: nat, k: nat, items: seq<Item>): seq<Item>
    requires j <= k && (EndsText(items) || EndsAt(items, j))
  {
    if EndsText(items) || items == [] then items + [SliceItem(j, k)] else ExtendItems(items, k - j)
  }

  /** The end of an unprintable run, written as its start plus its size. */
  lemma UnprintableItemsTo(j: nat, size: nat, k: nat, items: seq<Item>)
    requires k == j + size && (EndsText(items) || EndsAt(items, j))
    ensures UnprintableItems(j, j + size, items) == UnprintableItems(j, k, items)
  {
  }

  lemma ResolveUnprintable(buf: seq<byte>, j: nat, k: nat, items: seq<Item>, items': seq<Item>)
    requires j <= k <= |buf| && (EndsText(items) || EndsAt(items, j)) && InBounds(items, |buf|)
    requires items' == UnprintableItems(j, k, items)
    ensures InBounds(items', |buf|)
    ensures Resolve(items', buf) == WithUnprintable(Resolve(items, buf), buf[j..k])
    ensures EndsAt(items', k)
  {
    if EndsText(items) || items == [] {
      ResolveAppend(items, buf, SliceItem(j, k));
    } else {
      ResolveExtend(items, buf, k - j);
    }
  }

  /**
   * One iteration that does not reach the end of the name: the printable
   * run `b[i..j]` and the unprintable run `b[j..k]` after it, read on the items.
   */
  lemma ContinueStep(isPrint: PrintPredicate, b: seq<byte>, stringify: bool, i: nat, items: seq<Item>,
                     size1: nat, items1: seq<Item>, j: nat, size2: nat, items2: seq<Item>, k: nat)
    requires i < |b| && InBounds(items, |b|) && EndsAt(items, i)
    requires i + size1 == PrintableEnd(isPrint, b, i) && i + size1 < |b|
    requires items1 == PrintableItems(b, stringify, i, i + size1, items)
    requires j == i + size1 && (EndsText(items1) || EndsAt(items1, j))
    requires j + size2 == UnprintableEnd(isPrint, b, j)
    requires items2 == UnprintableItems(j, j + size2, items1)
    requires k == j + size2
    ensures InBounds(items2, |b|) && EndsAt(items2, k)
    ensures TokenizeFrom(isPrint, b, stringify, i, Resolve(items, b)) == TokenizeFrom(isPrint, b, stringify, k, Resolve(items2, b))
  {
    ResolvePrintable(b, stringify, i, j, items, items1);
    UnprintableItemsTo(j, size2, k, items1);
    ResolveUnprintable(b, j, k, items1, items2);
    IterationThrough(isPrint, b, stringify, i, j, k, Resolve(items, b), Resolve(items1, b), Resolve(items2, b));
  }

  /** The iteration whose printable run `b[i..i+size]` reaches the end of the name, read on the items. */
  lemma ExitStep(isPrint: PrintPredicate, b: seq<byte>, stringify: bool, i: nat, items: seq<Item>,
                 size: nat, items1: seq<Item>)
    requires i < |b| && InBounds(items, |b|) && EndsAt(items, i)
    requires i + size == PrintableEnd(isPrint, b, i) && i + size == |b|
    requires items1 == PrintableItems(b, stringify, i, i + size, items)
    ensures InBounds(items1, |b|)
    ensures TokenizeFrom(isPrint, b, stringify, i, Resolve(items, b)) == Resolve(items1, b)
  {
    ResolvePrintable(b, stringify, i, i + size, items, items1);
    assert Iteration(isPrint, b, stringify, i, Resolve(items, b)) == State(|b|, Resolve(items1, b));
  }

  /**
   * format.go:50-73: the printable run `name[i..i+size]` with flags `flags`
   * folded into the last Binary token, or appended as a string.
   */
  method AddPrintable(name: array<byte>, ghost b: seq<byte>, stringify: bool, i: nat, size: nat, flags: Flags,
                      items: seq<Item>, printable: bool)
    returns (items': seq<Item>, printable': bool)
    requires name[..] == b && i + size <= |b| && EndsAt(items, i) && printable == EndsText(items)
    requires flags == FlagsIn(b, i, i + size)
    modifies name
    ensures name[..] == b
    ensures items' == PrintableItems(b, stringify, i, i + size, items)
    ensures printable' == EndsText(items')
    ensures EndsText(items') || EndsAt(items', i + size)
  {
    items', printable' := items, printable;
    if size > 0 {
      if size < 3 && |items| > 0 {
        AppendInPlace(name, items[|items| - 1].hi, i, size);
        SelfCopy(b, i, size);
        items' := ExtendItems(items, size);
      } else {
        var s := name[i..i + size];
        if stringify {
          FlagsOfSlice(b, i, i + size);
          s := QuoteRun(s, flags);
        }
        items' := items + [TextItem(s)];
        printable' := true;
      }
    }
  }

  /**
   * format.go:80-88: the unprintable run `name[i..i+size]` appended as a new
   * slice after a string, or appended in place to the last slice.
   */
  method AddUnprintable(name: array<byte>, ghost b: seq<byte>, i: nat, size: nat, items: seq<Item>, printable: bool)
    returns (items': seq<Item>, printable': bool)
    requires name[..] == b && i + size <= |b|
    requires (EndsText(items) || EndsAt(items, i)) && printable == EndsText(items)
    modifies name
    ensures name[..] == b
    ensures items' == UnprintableItems(i, i + size, items)
    ensures !printable'
  {
    if printable || |items| == 0 {
      items' := items + [SliceItem(i, i + size)];
      printable' := false;
    } else {
      AppendInPlace(name, items[|items| - 1].hi, i, size);
      SelfCopy(b, i, size);
      items' := ExtendItems(items, size);
      printable' := printable;
    }
  }

  /** Equal buffers have runs that end at the same place. */
  lemma SameEnds(isPrint: PrintPredicate, x: seq<byte>, y: seq<byte>, i: nat)
    requires x == y && i <= |x|
    ensures PrintableEnd(isPrint, x, i) == PrintableEnd(isPrint, y, i)
    ensures UnprintableEnd(isPrint, x, i) == UnprintableEnd(isPrint, y, i)
  {
  }

  /**
   * `tokenizeName(name, stringify)` on the cloned buffer `name`. The buffer
   * keeps its bytes, and the result is `Tokenize`'s.
   */
  method TokenizeName(isPrint: PrintPredicate, name: array<byte>, stringify: bool) returns (r: seq<Token>)
    modifies name
    ensures name[..] == old(name[..])
    ensures r == Tokenize(isPrint, old(name[..]), stringify)
  {
    ghost var b := name[..];
    var items: seq<Item> := [];
    var printable := false;
    var i := 0;
    while i < name.Length
      invariant i <= name.Length && name[..] == b
      invariant InBounds(items, |b|) && EndsAt(items, i) && !printable
      invariant TokenizeFrom(isPrint, b, stringify, i, Resolve(items, b)) == Tokenize(isPrint, b, stringify)
      decreases name.Length - i
    {
      ghost var i0, items0 := i, items;
      var size, flags := PrintableRun(isPrint, name[..], i);
      SameEnds(isPrint, name[..], b, i);
      items, printable := AddPrintable(name, b, stringify, i, size, flags, items, printable);
      ghost var size1, items1 := size, items;
      i := i + size;
      if i == name.Length {
        ExitStep(isPrint, b, stringify, i0, items0, size1, items1);
        break;
      }
      ghost var j := i;
      size := UnprintableRun(isPrint, name[..], i);
      SameEnds(isPrint, name[..], b, i);
      items, printable := AddUnprintable(name, b, i, size, items, printable);
      i := i + size;
      ContinueStep(isPrint, b, stringify, i0, items0, size1, items1, j, size, items, i);
    }
    r := Resolve(items, name[..]);
  }
}

/** Header fields in a byte buffer (lib/headers.c, lib/headers.h): written one after the other, and
    found again by scanning. Item and key delimiters are charsets to the scanners. */
module Headers {
  import opened Bytes
  import opened Scan
  import opened Buffers

  const OTHERS := "0123456789_-"
  const NAME_CHARS := UPPER + LOWER + OTHERS

  // ---------- what the scanners compute ----------

  function NameLength(s: string): nat {
    SkipIn(s, NAME_CHARS)
  }

  /** Where the value starts: past the name, the key delimiters and white space. */
  function ValueStart(s: string, keyDelim: string): (n: nat)
    ensures n <= |s|
  {
    var p := NameLength(s);
    var q := p + SkipIn(s[p..], keyDelim);
    q + SkipSpace(s[q..])
  }

  /** The items of a header block, each with the delimiters that follow it. */
  function Items(text: string, itemDelim: string): seq<string>
    decreases |text|
  {
    if text == "" then []
    else [text[..SkipPast(text, itemDelim)]] + Items(text[SkipPast(text, itemDelim)..], itemDelim)
  }

  predicate Names(item: string, name: string) {
    SameText(item[..NameLength(item)], name)
  }

  /** Number of the first item with this name, -1 when there is none. */
  function FirstNamed(items: seq<string>, name: string): (i: int)
    ensures -1 <= i < |items|
    ensures i >= 0 ==> Names(items[i], name)
    ensures forall k :: 0 <= k < (if i >= 0 then i else |items|) ==> !Names(items[k], name)
  {
    if items == [] then -1
    else if Names(items[0], name) then 0
    else
      var i := FirstNamed(items[1..], name);
      assert forall k :: 0 < k < |items| ==> items[k] == items[1..][k - 1];
      if i < 0 then -1 else i + 1
  }

  /** Cutting a block into items loses nothing, and every item has at least one byte. */
  lemma {:induction false} ItemsJoin(text: string, itemDelim: string)
    ensures Flatten(Items(text, itemDelim)) == text
    ensures forall i :: 0 <= i < |Items(text, itemDelim)| ==> Items(text, itemDelim)[i] != ""
    decreases |text|
  {
    if text != "" {
      var n := SkipPast(text, itemDelim);
      ItemsJoin(text[n..], itemDelim);
      assert ([text[..n]] + Items(text[n..], itemDelim))[1..] == Items(text[n..], itemDelim);
      assert text == text[..n] + text[n..];
    }
  }

  /** Where the i-th item starts. */
  function Offset(items: seq<string>, i: nat): nat
    requires i <= |items|
  {
    |Flatten(items[..i])|
  }

  // ---------- the lookups ----------

  method HeadersNext(s: string, itemDelim: string) returns (n: nat)
    ensures n == SkipPast(s, itemDelim)
  {
    n := ScanPast(s, itemDelim);
  }

  method HeadersNameLen(s: string) returns (n: nat)
    ensures n == NameLength(s)
  {
    n := ScanCharsetNSkip(s, NAME_CHARS);
  }

  method HeadersLength(s: string, itemDelim: string) returns (n: nat)
    ensures n == SkipOut(s, itemDelim)
  {
    n := ScanNonCharsetNSkip(s, itemDelim);
  }

  method HeadersValue(s: string, keyDelim: string) returns (pos: nat)
    ensures pos == ValueStart(s, keyDelim)
  {
    pos := ScanCharsetNSkip(s, NAME_CHARS);
    var n := ScanCharsetNSkip(s[pos..], keyDelim);
    pos := pos + n;
    n := ScanWhiteNSkip(s[pos..]);
    pos := pos + n;
  }

  /** One step of the loops below. */
  lemma NextItem(text: string, x: nat, itemDelim: string)
    requires x < |text|
    ensures var c := SkipPast(text[x..], itemDelim);
            && 0 < c <= |text| - x
            && Items(text[x..], itemDelim) == [text[x..x + c]] + Items(text[x + c..], itemDelim)
  {
    var c := SkipPast(text[x..], itemDelim);
    assert text[x..][..c] == text[x..x + c] && text[x..][c..] == text[x + c..];
  }

  lemma NoItems(text: string, x: nat, itemDelim: string)
    requires x == |text|
    ensures Items(text[x..], itemDelim) == []
  {
  }

  lemma DropItem(items: seq<string>, i: nat, first: string, rest: seq<string>)
    requires i <= |items| && items[i..] == [first] + rest
    ensures i < |items| && items[i] == first && items[i + 1..] == rest
  {
    assert items[i] == items[i..][0] && items[i + 1..] == items[i..][1..];
  }

  method HeadersFindB(b: ByteBuffer, name: string, itemDelim: string) returns (ret: int)
    requires b.Bounded()
    ensures ret == FirstNamed(Items(b.Text(), itemDelim), name)
  {
    hide Items;
    hide SkipPast;
    hide FirstNamed;
    var text := b.block[..b.write];
    ghost var items := Items(text, itemDelim);
    ret := 0;
    var x := 0;
    assert text[0..] == text;
    while x < |text|
      invariant 0 <= x <= |text| && 0 <= ret <= |items|
      invariant items[ret..] == Items(text[x..], itemDelim)
      invariant forall k :: 0 <= k < ret ==> !Names(items[k], name)
      decreases |text| - x
    {
      var c := HeadersNext(text[x..], itemDelim);
      NextItem(text, x, itemDelim);
      DropItem(items, ret, text[x..x + c], Items(text[x + c..], itemDelim));
      var found := HasName(text[x..x + c], name);
      if found {
        FirstNamedIs(items, name, ret);
        return;
      }
      x := x + c;
      ret := ret + 1;
    }
    NoItems(text, x, itemDelim);
    NoneNamed(items, name);
    ret := -1;
  }

  lemma NoneNamed(items: seq<string>, name: string)
    requires forall k :: 0 <= k < |items| ==> !Names(items[k], name)
    ensures FirstNamed(items, name) == -1
  {
  }

  /** The comparison in the loop of `HeadersFindB`. */
  method HasName(item: string, name: string) returns (found: bool)
    ensures found == Names(item, name)
  {
    var n := HeadersNameLen(item);
    found := false;
    if n == |name| {
      found := StrNCaseCmp(item[..n], name);
    }
  }

  lemma FirstNamedIs(items: seq<string>, name: string, i: nat)
    requires i < |items| && Names(items[i], name)
    requires forall k :: 0 <= k < i ==> !Names(items[k], name)
    ensures FirstNamed(items, name) == i
  {
  }

  /** The position and the length, without delimiters, of the item with this number. */
  method HeadersAt(b: ByteBuffer, index: nat, itemDelim: string) returns (at: Option<(nat, nat)>)
    requires b.Bounded()
    ensures var items := Items(b.Text(), itemDelim);
            at == if index < |items| then Some((Offset(items, index), SkipOut(items[index], itemDelim))) else None
  {
    hide Items;
    hide SkipPast;
    hide Flatten;
    var text := b.block[..b.write];
    ghost var items := Items(text, itemDelim);
    var i := 0;
    var x := 0;
    assert text[0..] == text;
    OffsetZero(items);
    while x < |text|
      invariant 0 <= x <= |text| && 0 <= i <= |items| && i <= index
      invariant items[i..] == Items(text[x..], itemDelim)
      invariant x == Offset(items, i)
      decreases |text| - x
    {
      var c := HeadersNext(text[x..], itemDelim);
      NextItem(text, x, itemDelim);
      DropItem(items, i, text[x..x + c], Items(text[x + c..], itemDelim));
      if i == index {
        var l := HeadersLength(text[x..x + c], itemDelim);
        return Some((x, l));
      }
      NextOffset(items, i);
      x := x + c;
      i := i + 1;
    }
    NoItems(text, x, itemDelim);
    at := None;
  }

  lemma OffsetZero(items: seq<string>)
    ensures Offset(items, 0) == 0
  {
  }

  lemma NextOffset(items: seq<string>, i: nat)
    requires i < |items|
    ensures Offset(items, i + 1) == Offset(items, i) + |items[i]|
  {
    assert items[..i + 1] == items[..i] + [items[i]];
    FlattenAppend(items[..i], [items[i]]);
    assert [items[i]][1..] == [];
  }

  method HeadersSize(b: ByteBuffer, itemDelim: string) returns (i: nat)
    requires b.Bounded()
    ensures i == |Items(b.Text(), itemDelim)|
  {
    hide Items;
    hide SkipPast;
    var text := b.block[..b.write];
    i := 0;
    var x := 0;
    assert text[0..] == text;
    while x != |text|
      invariant 0 <= x <= |text|
      invariant i + |Items(text[x..], itemDelim)| == |Items(text, itemDelim)|
      decreases |text| - x
    {
      var c := HeadersNext(text[x..], itemDelim);
      NextItem(text, x, itemDelim);
      x := x + c;
      i := i + 1;
    }
    NoItems(text, x, itemDelim);
  }

  /** The value of the first field with this name, as position and length. The length is a size_t
      and wraps when scanning for the value runs past the end of its item. */
  function Lookup(text: string, name: string, itemDelim: string, keyDelim: string): Option<(nat, nat)> {
    var items := Items(text, itemDelim);
    var i := FirstNamed(items, name);
    if i < 0 then None
    else
      var at := Offset(items, i);
      var n := ValueStart(From(text, at), keyDelim);
      Some((at + n, LengthLeft(SkipOut(items[i], itemDelim), n)))
  }

  function From(text: string, at: nat): string {
    if at <= |text| then text[at..] else ""
  }

  function LengthLeft(l: nat, n: nat): nat {
    (l + SIZE_T - n % SIZE_T) % SIZE_T
  }

  const SIZE_T: nat := 0x1_0000_0000_0000_0000

  lemma OffsetInText(text: string, itemDelim: string, i: nat)
    requires i <= |Items(text, itemDelim)|
    ensures Offset(Items(text, itemDelim), i) <= |text|
  {
    var items := Items(text, itemDelim);
    ItemsJoin(text, itemDelim);
    FlattenAppend(items[..i], items[i..]);
    assert items == items[..i] + items[i..];
  }

  method HeadersGetLen(b: ByteBuffer, name: string, itemDelim: string, keyDelim: string)
    returns (value: Option<(nat, nat)>)
    requires b.Bounded()
    ensures value == Lookup(b.Text(), name, itemDelim, keyDelim)
  {
    hide Items;
    hide FirstNamed;
    hide ValueStart;
    hide SkipOut;
    hide Flatten;
    var text := b.block[..b.write];
    var i := HeadersFindB(b, name, itemDelim);
    if i != -1 {
      var at := HeadersAt(b, i, itemDelim);
      var (x, l) := at.value;
      OffsetInText(text, itemDelim, i);
      var n := HeadersValue(text[x..], keyDelim);
      return Some((x + n, LengthLeft(l, n)));
    }
    value := None;
  }
}

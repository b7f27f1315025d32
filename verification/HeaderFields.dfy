/** Writing header fields, and finding again what was written (section 3.2 of RFC 7230). */
module HeaderFields {
  import opened Bytes
  import opened Scan
  import opened Buffers
  import opened Headers

  datatype Field = Field(name: string, value: string)

  function Line(f: Field, itemDelim: string, keyDelim: string): string {
    f.name + keyDelim + f.value + itemDelim
  }

  function Lines(fields: seq<Field>, itemDelim: string, keyDelim: string): (r: seq<string>)
    ensures |r| == |fields|
    ensures forall i :: 0 <= i < |fields| ==> r[i] == Line(fields[i], itemDelim, keyDelim)
  {
    seq(|fields|, i requires 0 <= i < |fields| => Line(fields[i], itemDelim, keyDelim))
  }

  function Serialized(fields: seq<Field>, itemDelim: string, keyDelim: string): string {
    Flatten(Lines(fields, itemDelim, keyDelim))
  }

  // ---------- writing ----------

  /** The properties of an object, one line each. Grows by four bytes for both delimiters, so that longer ones
      break the assertion in `buffer_write` once they used up what was free before. */
  method HeadersFromObj(b: ByteBuffer, obj: seq<Field>, itemDelim: string, keyDelim: string) returns (count: nat)
    requires b.Bounded() && |obj| * (|itemDelim| + |keyDelim| - 4) <= b.Avail()
    modifies b, b.block
    ensures b.Bounded() && (b.block == old(b.block) || fresh(b.block)) && b.read == old(b.read)
    ensures b.Text() == old(b.Text()) + Serialized(obj, itemDelim, keyDelim)
    ensures count == |obj|
  {
    count := 0;
    assert Lines(obj[..0], itemDelim, keyDelim) == [];
    ghost var d := |itemDelim| + |keyDelim| - 4;
    while count < |obj|
      invariant count <= |obj| && b.Bounded() && b.read == old(b.read)
      invariant b.block == old(b.block) || fresh(b.block)
      invariant b.Text() == old(b.Text()) + Serialized(obj[..count], itemDelim, keyDelim)
      invariant b.Avail() == old(b.Avail()) - count * d
    {
      RoomForNext(count, |obj|, d, old(b.Avail()));
      WriteField(b, obj[count], itemDelim, keyDelim);
      OneLineMore(old(b.Text()), obj, count, itemDelim, keyDelim);
      count := count + 1;
    }
    assert obj[..count] == obj;
  }

  lemma RoomForNext(m: nat, n: nat, d: int, room: nat)
    requires m < n && n * d <= room
    ensures d <= room - m * d && (m + 1) * d == m * d + d
  {
    if d > 0 {
      assert (m + 1) * d <= n * d;
    } else {
      assert m * d <= 0;
    }
  }

  method WriteField(b: ByteBuffer, f: Field, itemDelim: string, keyDelim: string)
    requires b.Bounded() && |itemDelim| + |keyDelim| <= 4 + b.Avail()
    modifies b, b.block
    ensures b.Bounded() && fresh(b.block) && b.read == old(b.read)
    ensures b.Text() == old(b.Text()) + Line(f, itemDelim, keyDelim)
    ensures b.Avail() == old(b.Avail()) + 4 - (|itemDelim| + |keyDelim|)
  {
    b.Grow(|f.name| + 2 + |f.value| + 2);
    b.Write(f.name);
    b.Write(keyDelim);
    b.Write(f.value);
    b.Write(itemDelim);
    FourWrites(old(b.Text()), f.name, keyDelim, f.value, itemDelim);
  }

  /** Growing as the source does, the assertion in `buffer_write` holds for all four writes of a field
      exactly if the delimiters fit the four bytes reserved for them and what was free before. */
  lemma FieldFitsExactlyIf(s: BufferState, f: Field, itemDelim: string, keyDelim: string)
    requires Sane(s)
    ensures AllFit(AfterGrow(s, |f.name| + 2 + |f.value| + 2), Writes([f.name, keyDelim, f.value, itemDelim]))
            <==> |keyDelim| + |itemDelim| <= 4 + (s.size - |s.text|)
  {
    var writes := [f.name, keyDelim, f.value, itemDelim];
    RoomForAll(AfterGrow(s, |f.name| + 2 + |f.value| + 2), writes);
    WrittenInAll(f.name, writes[1..]);
    WrittenInAll(keyDelim, writes[1..][1..]);
    WrittenInAll(f.value, [itemDelim]);
    WrittenInAll(itemDelim, []);
    assert writes == [f.name] + writes[1..] && writes[1..] == [keyDelim] + writes[1..][1..];
    assert writes[1..][1..] == [f.value] + [itemDelim] && [itemDelim] == [itemDelim] + [];
  }

  lemma WrittenInAll(first: string, rest: seq<string>)
    ensures |Written(Writes([first] + rest))| == |first| + |Written(Writes(rest))|
  {
    assert ([first] + rest)[1..] == rest;
  }

  lemma FourWrites(text: string, a: string, b: string, c: string, d: string)
    ensures text + a + b + c + d == text + (a + b + c + d)
  {
  }

  lemma OneLineMore(text: string, obj: seq<Field>, i: nat, itemDelim: string, keyDelim: string)
    requires i < |obj|
    ensures text + Serialized(obj[..i], itemDelim, keyDelim) + Line(obj[i], itemDelim, keyDelim)
            == text + Serialized(obj[..i + 1], itemDelim, keyDelim)
  {
    var front, line := Lines(obj[..i], itemDelim, keyDelim), Line(obj[i], itemDelim, keyDelim);
    assert Lines(obj[..i + 1], itemDelim, keyDelim) == front + [line];
    FlattenAppend(front, [line]);
    FlattenOne(line);
    FourWrites(text, Flatten(front), line, "", "");
    assert Flatten(front) + line + "" + "" == Flatten(front) + line;
    assert text + Flatten(front) + line + "" + "" == text + Flatten(front) + line;
  }

  // ---------- replacing ----------

  /** What removing a name leaves. The number of the item is taken for its byte offset. */
  function Unset(text: string, name: string, itemDelim: string): string {
    var i := FirstNamed(Items(text, itemDelim), name);
    if i < 0 then text
    else
      NoMoreItemsThanBytes(text, itemDelim);
      text[..i] + text[i + SkipPast(text[i..], itemDelim)..]
  }

  lemma {:induction false} NoMoreItemsThanBytes(text: string, itemDelim: string)
    ensures |Items(text, itemDelim)| <= |text|
    decreases |text|
  {
    if text != "" {
      NoMoreItemsThanBytes(text[SkipPast(text, itemDelim)..], itemDelim);
    }
  }

  /** The bytes behind what is left are cleared, if an item was removed. */
  method HeadersUnsetB(b: ByteBuffer, name: string, itemDelim: string) returns (i: int)
    requires b.Bounded()
    modifies b, b.block
    ensures b.Bounded() && b.block == old(b.block) && b.read == old(b.read)
    ensures b.Text() == Unset(old(b.Text()), name, itemDelim)
    ensures i == FirstNamed(Items(old(b.Text()), itemDelim), name)
    ensures if i < 0 then b.block[..] == old(b.block[..])
            else forall k :: b.write <= k < b.block.Length ==> b.block[k] == '\0'
  {
    hide Items;
    hide FirstNamed;
    hide SkipPast;
    i := HeadersFindB(b, name, itemDelim);
    if i >= 0 {
      NoMoreItemsThanBytes(b.Text(), itemDelim);
      assert b.block[i..b.write] == b.Text()[i..];
      var c := HeadersNext(b.block[i..b.write], itemDelim);
      CutOut(b.block, i, i + c, b.write);
      b.write := b.write - c;
      Clear(b.block, b.write);
    }
  }

  /** `memcpy` of what lies behind the item onto its place. */
  method CutOut(a: array<char>, x: nat, y: nat, end: nat)
    requires x <= y <= end <= a.Length
    modifies a
    ensures a[..end - (y - x)] == old(a[..end])[..x] + old(a[..end])[y..]
  {
    ghost var was := a[..end];
    for k := 0 to end - y
      invariant forall j :: 0 <= j < x ==> a[j] == was[j]
      invariant forall j :: x <= j < x + k ==> a[j] == was[j + (y - x)]
      invariant forall j :: x + k <= j < end ==> a[j] == was[j]
    {
      a[x + k] := a[y + k];
    }
  }

  /** `memset` of the unused rest. */
  method Clear(a: array<char>, from: nat)
    requires from <= a.Length
    modifies a
    ensures a[..from] == old(a[..from])
    ensures forall j :: from <= j < a.Length ==> a[j] == '\0'
  {
    for k := from to a.Length
      invariant a[..from] == old(a[..from])
      invariant forall j :: from <= j < k ==> a[j] == '\0'
    {
      a[k] := '\0';
    }
  }

  function SetTo(text: string, name: string, value: string, itemDelim: string): string {
    Unset(text, name, itemDelim) + Line(Field(name, value), itemDelim, ": ")
  }

  /** Sets a field. The read position does not move, so it stays in front of the write position exactly if
      it is not behind the text that results. */
  method HeadersSet(b: ByteBuffer, name: string, value: string, itemDelim: string) returns (size: nat)
    requires b.Bounded() && |itemDelim| <= 2 + (b.Size() - |Unset(b.Text(), name, itemDelim)|)
    modifies b, b.block
    ensures b.Bounded() && fresh(b.block) && b.read == old(b.read)
    ensures b.Text() == SetTo(old(b.Text()), name, value, itemDelim)
    ensures b.Valid() <==> old(b.read) <= |SetTo(old(b.Text()), name, value, itemDelim)|
    ensures size == |name| + 2 + |value| + 2
  {
    if b.block.Length > 0 {
      var _ := HeadersUnsetB(b, name, itemDelim);
    } else {
      assert Items("", itemDelim) == [];
      assert FirstNamed([], name) == -1;
    }
    WriteField(b, Field(name, value), itemDelim, ": ");
    size := |name| + 2 + |value| + 2;
  }

  // ---------- the round trip ----------

  predicate IsEol(c: char) {
    c == '\r' || c == '\n'
  }

  predicate IsNameChar(c: char) {
    'A' <= c <= 'Z' || 'a' <= c <= 'z' || '0' <= c <= '9' || c == '-' || c == '_'
  }

  /** A name of letters, digits, hyphens and underscores; a value without CR, LF or NUL. */
  predicate PlainField(f: Field) {
    && (forall i :: 0 <= i < |f.name| ==> IsNameChar(f.name[i]))
    && forall i :: 0 <= i < |f.value| ==> !IsEol(f.value[i]) && f.value[i] != '\0'
  }

  /** Besides, the value has content, and does not start with white space or a colon. */
  predicate GoodField(f: Field) {
    PlainField(f) && f.value != "" && !IsSpace(f.value[0]) && f.value[0] != ':'
  }

  /** The white space there is besides the ends of lines. */
  predicate IsBlank(c: char) {
    c == ' ' || c == '\t' || c == '\U{0B}' || c == '\U{0C}'
  }

  lemma SpacesAre(c: char)
    ensures IsSpace(c) <==> IsBlank(c) || IsEol(c)
  {
  }

  /** Items end with delimiters the reader knows, among them NUL, which ends every charset; the key with a colon
      and white space. */
  predicate GoodDelims(itemDelim: string, keyDelim: string, readItem: string, readKey: string) {
    && itemDelim != "" && (forall i :: 0 <= i < |itemDelim| ==> itemDelim[i] in readItem || itemDelim[i] == '\0')
    && (forall i :: 0 <= i < |readItem| ==> IsEol(readItem[i]))
    && keyDelim != "" && keyDelim[0] == ':' && (forall i :: 1 <= i < |keyDelim| ==> IsBlank(keyDelim[i]))
    && (readKey == ":" || readKey == ": ")
  }

  lemma UpperCase(c: char)
    ensures c in UPPER <==> 'A' <= c <= 'Z'
  {
    if 'A' <= c <= 'Z' {
      Alphabet((c - 'A') as int);
    }
  }

  lemma LowerCase(c: char)
    ensures c in LOWER <==> 'a' <= c <= 'z'
  {
    if 'a' <= c <= 'z' {
      Alphabet((c - 'a') as int);
    }
  }

  lemma OtherNameChars(c: char)
    ensures c in OTHERS <==> '0' <= c <= '9' || c == '-' || c == '_'
  {
    if '0' <= c <= '9' {
      assert OTHERS[(c - '0') as int] == c;
    } else if c == '-' || c == '_' {
      assert OTHERS[if c == '_' then 10 else 11] == c;
    }
  }

  lemma InEither(s: string, t: string, u: string, c: char)
    ensures c in s + t + u <==> c in s || c in t || c in u
  {
  }

  lemma NameCharsAre(c: char)
    ensures c in NAME_CHARS <==> IsNameChar(c)
  {
    UpperCase(c);
    LowerCase(c);
    OtherNameChars(c);
    InEither(UPPER, LOWER, OTHERS, c);
  }

  lemma NameCharsAreOrdinary()
    ensures forall c :: Member(c, NAME_CHARS) <==> IsNameChar(c) || c == '\0'
  {
    forall c: char
      ensures Member(c, NAME_CHARS) <==> IsNameChar(c) || c == '\0'
    {
      NameCharsAre(c);
    }
  }

  /** The parts of a line that something follows. */
  lemma LineChars(f: Field, itemDelim: string, keyDelim: string, rest: string, i: nat)
    requires i < |f.name| + |keyDelim| + |f.value| + |itemDelim|
    ensures var a, b, c := |f.name|, |f.name| + |keyDelim|, |f.name| + |keyDelim| + |f.value|;
            (Line(f, itemDelim, keyDelim) + rest)[i] ==
            if i < a then f.name[i] else if i < b then keyDelim[i - a]
            else if i < c then f.value[i - b] else itemDelim[i - c]
  {
  }

  /** A line up to its delimiters. */
  function Head(f: Field, keyDelim: string): string {
    f.name + keyDelim + f.value
  }

  lemma HeadIsPlain(f: Field, itemDelim: string, keyDelim: string, readItem: string, readKey: string)
    requires PlainField(f) && GoodDelims(itemDelim, keyDelim, readItem, readKey)
    ensures forall i :: 0 <= i < |Head(f, keyDelim)| ==> !Member(Head(f, keyDelim)[i], readItem)
  {
    NameCharsAreOrdinary();
  }

  lemma ItemEnds(head: string, itemDelim: string, rest: string, readItem: string)
    requires forall i :: 0 <= i < |head| ==> !Member(head[i], readItem)
    requires itemDelim != "" && forall i :: 0 <= i < |itemDelim| ==> Member(itemDelim[i], readItem)
    requires rest != "" ==> !Member(rest[0], readItem)
    ensures var t := head + (itemDelim + rest);
            SkipOut(t, readItem) == |head| && SkipPast(t, readItem) == |head| + |itemDelim|
  {
    var t := head + (itemDelim + rest);
    assert t[|head|] == itemDelim[0] && t[|head|..] == itemDelim + rest;
    SkipOutIs(t, readItem, |head|);
    SkipInIs(itemDelim + rest, readItem, |itemDelim|);
  }

  lemma FirstLineEnds(f: Field, itemDelim: string, keyDelim: string, readItem: string, readKey: string, rest: string)
    requires PlainField(f) && GoodDelims(itemDelim, keyDelim, readItem, readKey)
    requires rest != "" ==> !Member(rest[0], readItem)
    ensures var t := Line(f, itemDelim, keyDelim) + rest;
            && SkipOut(t, readItem) == |f.name| + |keyDelim| + |f.value|
            && SkipPast(t, readItem) == |Line(f, itemDelim, keyDelim)|
  {
    DelimsAreMembers(itemDelim, keyDelim, readItem, readKey);
    hide PlainField;
    hide Member;
    hide SkipOut;
    hide SkipPast;
    HeadIsPlain(f, itemDelim, keyDelim, readItem, readKey);
    ItemEnds(Head(f, keyDelim), itemDelim, rest, readItem);
    Associate(Head(f, keyDelim), itemDelim, rest);
  }

  lemma DelimsAreMembers(itemDelim: string, keyDelim: string, readItem: string, readKey: string)
    requires GoodDelims(itemDelim, keyDelim, readItem, readKey)
    ensures itemDelim != "" && forall i :: 0 <= i < |itemDelim| ==> Member(itemDelim[i], readItem)
  {
  }

  lemma NameEnds(f: Field, itemDelim: string, keyDelim: string, readItem: string, readKey: string, rest: string)
    requires PlainField(f) && GoodDelims(itemDelim, keyDelim, readItem, readKey)
    ensures NameLength(Line(f, itemDelim, keyDelim) + rest) == |f.name|
  {
    var t := Line(f, itemDelim, keyDelim) + rest;
    NameCharsAreOrdinary();
    forall i | 0 <= i < |f.name|
      ensures Member(t[i], NAME_CHARS)
    {
      LineChars(f, itemDelim, keyDelim, rest, i);
    }
    LineChars(f, itemDelim, keyDelim, rest, |f.name|);
    SkipInIs(t, NAME_CHARS, |f.name|);
  }

  /** Can a value start like this? Not with white space, and with a colon only if the reader stops at some
      character of the key delimiter. */
  predicate StartsValue(c: char, keyDelim: string, readKey: string) {
    !IsSpace(c) && (c == ':' ==> exists i :: 0 <= i < |keyDelim| && keyDelim[i] !in readKey)
  }

  /** Scanning for the value skips the key delimiter, and stops right behind it exactly if what is there can
      start a value. */
  lemma ValueStarts(f: Field, itemDelim: string, keyDelim: string, readItem: string, readKey: string, rest: string)
    requires PlainField(f) && GoodDelims(itemDelim, keyDelim, readItem, readKey)
    requires (f.value + itemDelim)[0] != '\0'
    ensures var p, n := |f.name| + |keyDelim|, ValueStart(Line(f, itemDelim, keyDelim) + rest, readKey);
            n >= p && (n == p <==> StartsValue((f.value + itemDelim)[0], keyDelim, readKey))
  {
    var tail := f.value + (itemDelim + rest);
    NameEnds(f, itemDelim, keyDelim, readItem, readKey, rest);
    LineTail(f, itemDelim, keyDelim, rest);
    KeyDelimEnds(keyDelim, readKey, tail);
    assert tail[0] == (f.value + itemDelim)[0];
    hide *;
    ValueStartIs(Line(f, itemDelim, keyDelim) + rest, |f.name|, keyDelim + tail, readKey);
  }

  lemma ValueStartIs(t: string, p: nat, behind: string, readKey: string)
    requires NameLength(t) == p && p <= |t| && t[p..] == behind
    ensures var k := SkipIn(behind, readKey); ValueStart(t, readKey) == p + k + SkipSpace(behind[k..])
  {
    DropTwice(t, p, SkipIn(behind, readKey));
  }

  lemma LineTail(f: Field, itemDelim: string, keyDelim: string, rest: string)
    ensures var t := Line(f, itemDelim, keyDelim) + rest;
            |f.name| <= |t| && t[|f.name|..] == keyDelim + (f.value + (itemDelim + rest))
  {
  }

  lemma DropTwice(t: string, i: nat, j: nat)
    requires i + j <= |t|
    ensures t[i..][j..] == t[i + j..]
  {
  }

  lemma SkipSpaceOver(s: string, m: nat)
    requires m <= |s| && forall i :: 0 <= i < m ==> IsSpace(s[i])
    ensures SkipSpace(s) >= m && (m < |s| ==> (SkipSpace(s) == m <==> !IsSpace(s[m])))
  {
    var n := SkipSpace(s);
    if n < m {
      assert false;
    }
    if n > m {
      assert IsSpace(s[m]);
    }
  }

  lemma SkipInAll(s: string, m: nat, charset: string)
    requires m < |s|
    ensures SkipIn(s, charset) > m <==> forall i :: 0 <= i <= m ==> Member(s[i], charset)
  {
    var n := SkipIn(s, charset);
    if n <= m {
      assert !Member(s[n], charset);
    }
  }

  lemma KeyDelimEnds(keyDelim: string, readKey: string, tail: string)
    requires keyDelim != "" && keyDelim[0] == ':' && forall i :: 1 <= i < |keyDelim| ==> IsBlank(keyDelim[i])
    requires (readKey == ":" || readKey == ": ") && tail != "" && tail[0] != '\0'
    ensures var s := keyDelim + tail; var k := SkipIn(s, readKey); var n := k + SkipSpace(s[k..]);
            n >= |keyDelim| && (n == |keyDelim| <==> StartsValue(tail[0], keyDelim, readKey))
  {
    var s := keyDelim + tail;
    var k, m := SkipIn(s, readKey), |keyDelim|;
    assert s[m] == tail[0] && forall i :: 0 <= i < m ==> s[i] == keyDelim[i];
    SkipInAll(s, 0, readKey);
    SkipInAll(s, m, readKey);
    if k <= m {
      assert forall i :: 0 <= i < m - k ==> s[k..][i] == keyDelim[k + i];
      assert s[k..][m - k] == tail[0];
      SkipSpaceOver(s[k..], m - k);
      if k < m {
        assert keyDelim[k] !in readKey;
      } else {
        assert forall i :: 0 <= i < m ==> keyDelim[i] in readKey;
      }
    } else {
      assert forall i :: 0 <= i < m ==> Member(s[i], readKey);
      assert Member(tail[0], readKey);
    }
  }

  /** The items of serialised fields are their lines. */
  lemma {:induction false} ItemsAreLines(
      fields: seq<Field>, itemDelim: string, keyDelim: string, readItem: string, readKey: string)
    requires GoodDelims(itemDelim, keyDelim, readItem, readKey)
    requires forall i :: 0 <= i < |fields| ==> PlainField(fields[i])
    ensures Items(Serialized(fields, itemDelim, keyDelim), readItem) == Lines(fields, itemDelim, keyDelim)
    decreases fields
  {
    if fields != [] {
      hide Items;
      hide SkipPast;
      hide Flatten;
      var line, rest := Line(fields[0], itemDelim, keyDelim), fields[1..];
      var lines := Lines(rest, itemDelim, keyDelim);
      assert Lines(fields, itemDelim, keyDelim) == [line] + lines;
      ItemsAreLines(rest, itemDelim, keyDelim, readItem, readKey);
      NextLineStarts(rest, itemDelim, keyDelim, readItem, readKey);
      FirstLineEnds(fields[0], itemDelim, keyDelim, readItem, readKey, Flatten(lines));
      FirstItem(line, lines, readItem);
    }
  }

  lemma FirstItem(line: string, lines: seq<string>, readItem: string)
    requires line != "" && SkipPast(line + Flatten(lines), readItem) == |line|
    requires Items(Flatten(lines), readItem) == lines
    ensures Items(Flatten([line] + lines), readItem) == [line] + lines
  {
    hide SkipPast;
    var t := line + Flatten(lines);
    assert ([line] + lines)[1..] == lines;
    assert t[..|line|] == line && t[|line|..] == Flatten(lines);
  }

  lemma NextLineStarts(fields: seq<Field>, itemDelim: string, keyDelim: string, readItem: string, readKey: string)
    requires GoodDelims(itemDelim, keyDelim, readItem, readKey)
    requires forall i :: 0 <= i < |fields| ==> PlainField(fields[i])
    ensures var t := Serialized(fields, itemDelim, keyDelim); t != "" ==> !Member(t[0], readItem)
  {
    if fields != [] {
      var lines := Lines(fields, itemDelim, keyDelim);
      assert Flatten(lines) == lines[0] + Flatten(lines[1..]);
      LineChars(fields[0], itemDelim, keyDelim, Flatten(lines[1..]), 0);
      NameCharsAreOrdinary();
    }
  }

  /** Field i is the first with this name, letter case aside. */
  predicate IsFirst(fields: seq<Field>, name: string, i: nat) {
    && i < |fields| && SameLetters(fields[i].name, name)
    && forall k :: 0 <= k < i ==> !SameLetters(fields[k].name, name)
  }

  lemma LineNames(f: Field, name: string, itemDelim: string, keyDelim: string, readItem: string, readKey: string)
    requires PlainField(f) && GoodDelims(itemDelim, keyDelim, readItem, readKey)
    ensures Names(Line(f, itemDelim, keyDelim), name) <==> SameLetters(f.name, name)
  {
    hide SameText;
    SameTextExactlyIf(f.name, name);
    var line := Line(f, itemDelim, keyDelim);
    NameEnds(f, itemDelim, keyDelim, readItem, readKey, "");
    assert line + "" == line;
    assert line[..|f.name|] == f.name;
  }

  lemma TextFromLine(lines: seq<string>, i: nat)
    requires i < |lines|
    ensures Offset(lines, i) + |lines[i]| <= |Flatten(lines)|
    ensures Flatten(lines)[Offset(lines, i)..] == lines[i] + Flatten(lines[i + 1..])
  {
    FlattenAppend(lines[..i], lines[i..]);
    assert lines == lines[..i] + lines[i..];
    assert lines[i..][1..] == lines[i + 1..];
  }

  /** A value found at a position, with a length. */
  predicate IsAt(text: string, found: Option<(nat, nat)>, value: string) {
    && found.Some? && found.value.0 + found.value.1 <= |text|
    && text[found.value.0..found.value.0 + found.value.1] == value
  }

  /** Plain fields, written with delimiters the reader knows into less bytes than a size_t can count. */
  ghost predicate WrittenPlain(fields: seq<Field>, itemDelim: string, keyDelim: string, readItem: string, readKey: string) {
    && GoodDelims(itemDelim, keyDelim, readItem, readKey)
    && (forall i :: 0 <= i < |fields| ==> PlainField(fields[i]))
    && |Serialized(fields, itemDelim, keyDelim)| < 0x1_0000_0000_0000_0000
  }

  ghost predicate WrittenWell(fields: seq<Field>, itemDelim: string, keyDelim: string, readItem: string, readKey: string) {
    WrittenPlain(fields, itemDelim, keyDelim, readItem, readKey) && forall i :: 0 <= i < |fields| ==> GoodField(fields[i])
  }

  lemma WellIsPlain(fields: seq<Field>, itemDelim: string, keyDelim: string, readItem: string, readKey: string)
    requires WrittenWell(fields, itemDelim, keyDelim, readItem, readKey)
    ensures WrittenPlain(fields, itemDelim, keyDelim, readItem, readKey)
  {
  }

  /** Round trip: fields that were serialised are found again. Looking up a name gives the value of the first
      field of that name, letter case aside, exactly if the value is not empty and its first character can start
      a value. */
  lemma RoundTripExactlyIf(fields: seq<Field>, name: string, i: nat,
                           itemDelim: string, keyDelim: string, readItem: string, readKey: string)
    requires WrittenPlain(fields, itemDelim, keyDelim, readItem, readKey) && IsFirst(fields, name, i) && i < |fields|
    requires fields[i].value == "" ==> IsEol(itemDelim[0])
    ensures var text, value := Serialized(fields, itemDelim, keyDelim), fields[i].value;
            IsAt(text, Lookup(text, name, readItem, readKey), value)
            <==> value != "" && StartsValue(value[0], keyDelim, readKey)
  {
    hide *;
    FieldNumber(fields, name, i, itemDelim, keyDelim, readItem, readKey);
    WrittenItems(fields, itemDelim, keyDelim, readItem, readKey);
    FieldInText(fields, i, itemDelim, keyDelim, readItem, readKey);
    LookupIs(Serialized(fields, itemDelim, keyDelim), name, readItem, readKey, Lines(fields, itemDelim, keyDelim), i);
  }

  /** Good fields always come back. */
  lemma RoundTrip(fields: seq<Field>, name: string, i: nat,
                  itemDelim: string, keyDelim: string, readItem: string, readKey: string)
    requires WrittenWell(fields, itemDelim, keyDelim, readItem, readKey) && IsFirst(fields, name, i) && i < |fields|
    ensures var text := Serialized(fields, itemDelim, keyDelim);
            IsAt(text, Lookup(text, name, readItem, readKey), fields[i].value)
  {
    hide IsAt;
    hide Lookup;
    hide Serialized;
    hide IsFirst;
    RoundTripExactlyIf(fields, name, i, itemDelim, keyDelim, readItem, readKey);
  }

  lemma WrittenItems(fields: seq<Field>, itemDelim: string, keyDelim: string, readItem: string, readKey: string)
    requires WrittenPlain(fields, itemDelim, keyDelim, readItem, readKey)
    ensures Items(Serialized(fields, itemDelim, keyDelim), readItem) == Lines(fields, itemDelim, keyDelim)
  {
    ItemsAreLines(fields, itemDelim, keyDelim, readItem, readKey);
  }

  /** Field i in the text: where scanning for its value starts, and what is there. */
  lemma FieldInText(fields: seq<Field>, i: nat,
                    itemDelim: string, keyDelim: string, readItem: string, readKey: string)
    requires WrittenPlain(fields, itemDelim, keyDelim, readItem, readKey) && i < |fields|
    requires fields[i].value == "" ==> IsEol(itemDelim[0])
    ensures var text, value := Serialized(fields, itemDelim, keyDelim), fields[i].value;
            var lines := Lines(fields, itemDelim, keyDelim);
            var at := Offset(lines, i);
            && at <= |text|
            && var n := ValueStart(text[at..], readKey);
               IsAt(text, Some((at + n, LengthLeft(SkipOut(lines[i], readItem), n))), value)
               <==> value != "" && StartsValue(value[0], keyDelim, readKey)
  {
    hide ValueStart;
    hide SkipOut;
    hide Flatten;
    hide Line;
    hide LengthLeft;
    hide IsAt;
    var f, lines := fields[i], Lines(fields, itemDelim, keyDelim);
    var text, at, rest, line := Flatten(lines), Offset(lines, i), Flatten(lines[i + 1..]), lines[i];
    hide Offset;
    TextFromLine(lines, i);
    FirstLineEnds(f, itemDelim, keyDelim, readItem, readKey, "");
    NothingAppended(line);
    ValueStarts(f, itemDelim, keyDelim, readItem, readKey, rest);
    hide *;
    ValueInLine(f, itemDelim, keyDelim, rest);
    FoundExactlyIf(text, at, line + rest, |f.name| + |keyDelim|, ValueStart(text[at..], readKey), f.value);
    EndStartsNoValue(f.value, itemDelim, keyDelim, readKey);
  }

  lemma EndStartsNoValue(value: string, itemDelim: string, keyDelim: string, readKey: string)
    requires itemDelim != "" && (value == "" ==> IsEol(itemDelim[0]))
    ensures StartsValue((value + itemDelim)[0], keyDelim, readKey)
            <==> value != "" && StartsValue(value[0], keyDelim, readKey)
  {
  }

  /** A value of which scanning starts at `n` comes back exactly if that is where it starts. */
  lemma FoundExactlyIf(text: string, at: nat, s: string, p: nat, n: nat, value: string)
    requires at <= |text| < 0x1_0000_0000_0000_0000 && text[at..] == s && p + |value| <= |s|
    requires s[p..p + |value|] == value && p <= n <= |s|
    ensures IsAt(text, Some((at + n, LengthLeft(p + |value|, n))), value) <==> n == p
  {
    assert |s| == |text| - at;
    if n == p {
      AtOffset(text, at, s, p, value);
    }
  }

  lemma LookupIs(text: string, name: string, itemDelim: string, keyDelim: string, items: seq<string>, i: nat)
    requires Items(text, itemDelim) == items && FirstNamed(items, name) == i && Offset(items, i) <= |text|
    ensures var n := ValueStart(text[Offset(items, i)..], keyDelim);
            Lookup(text, name, itemDelim, keyDelim)
            == Some((Offset(items, i) + n, LengthLeft(SkipOut(items[i], itemDelim), n)))
  {
    hide Items;
    hide ValueStart;
    hide SkipOut;
    hide FirstNamed;
    hide Offset;
    hide LengthLeft;
  }

  lemma NothingAppended(line: string)
    ensures line + "" == line
  {
  }

  lemma AtOffset(text: string, at: nat, s: string, p: nat, value: string)
    requires at <= |text| && text[at..] == s && p + |value| <= |s| && s[p..p + |value|] == value
    ensures IsAt(text, Some((at + p, |value|)), value)
  {
    assert text[at + p..at + p + |value|] == s[p..p + |value|];
  }

  lemma ValueInLine(f: Field, itemDelim: string, keyDelim: string, rest: string)
    ensures var p := |f.name| + |keyDelim|; var line := Line(f, itemDelim, keyDelim);
            p + |f.value| <= |line| && (line + rest)[p..p + |f.value|] == f.value
  {
  }

  lemma FieldNumber(fields: seq<Field>, name: string, i: nat,
                    itemDelim: string, keyDelim: string, readItem: string, readKey: string)
    requires WrittenPlain(fields, itemDelim, keyDelim, readItem, readKey) && IsFirst(fields, name, i)
    ensures FirstNamed(Lines(fields, itemDelim, keyDelim), name) == i
  {
    var lines := Lines(fields, itemDelim, keyDelim);
    forall k | 0 <= k < |fields|
      ensures Names(lines[k], name) <==> SameLetters(fields[k].name, name)
    {
      LineNames(fields[k], name, itemDelim, keyDelim, readItem, readKey);
    }
    FirstNamedIs(lines, name, i);
  }

  /** A name that no field has is not found. */
  lemma MissingIsNotFound(fields: seq<Field>, name: string,
                          itemDelim: string, keyDelim: string, readItem: string, readKey: string)
    requires WrittenPlain(fields, itemDelim, keyDelim, readItem, readKey)
    requires forall k :: 0 <= k < |fields| ==> !SameLetters(fields[k].name, name)
    ensures Lookup(Serialized(fields, itemDelim, keyDelim), name, readItem, readKey) == None
  {
    var lines := Lines(fields, itemDelim, keyDelim);
    ItemsAreLines(fields, itemDelim, keyDelim, readItem, readKey);
    forall k | 0 <= k < |fields|
      ensures !Names(lines[k], name)
    {
      LineNames(fields[k], name, itemDelim, keyDelim, readItem, readKey);
    }
    NoneNamed(lines, name);
  }

  /** Scanning for an empty value runs on to the next line, and the length, less than nothing, wraps around. */
  lemma EmptyValueWraps(fields: seq<Field>, name: string, i: nat,
                        itemDelim: string, keyDelim: string, readItem: string, readKey: string)
    requires WrittenPlain(fields, itemDelim, keyDelim, readItem, readKey) && IsFirst(fields, name, i) && i < |fields|
    requires fields[i].value == "" && forall k :: 0 <= k < |itemDelim| ==> IsEol(itemDelim[k])
    ensures var text := Serialized(fields, itemDelim, keyDelim); var lines := Lines(fields, itemDelim, keyDelim);
            Lookup(text, name, readItem, readKey)
            == Some((Offset(lines, i + 1), 0x1_0000_0000_0000_0000 - |itemDelim|))
  {
    hide *;
    FieldNumber(fields, name, i, itemDelim, keyDelim, readItem, readKey);
    WrittenItems(fields, itemDelim, keyDelim, readItem, readKey);
    EmptyField(fields, i, itemDelim, keyDelim, readItem, readKey);
    LookupIs(Serialized(fields, itemDelim, keyDelim), name, readItem, readKey, Lines(fields, itemDelim, keyDelim), i);
  }

  lemma EmptyField(fields: seq<Field>, i: nat,
                   itemDelim: string, keyDelim: string, readItem: string, readKey: string)
    requires WrittenPlain(fields, itemDelim, keyDelim, readItem, readKey) && i < |fields|
    requires fields[i].value == "" && forall k :: 0 <= k < |itemDelim| ==> IsEol(itemDelim[k])
    ensures var text := Serialized(fields, itemDelim, keyDelim); var lines := Lines(fields, itemDelim, keyDelim);
            var at := Offset(lines, i);
            && at <= |text|
            && var n := ValueStart(text[at..], readKey);
               && at + n == Offset(lines, i + 1)
               && LengthLeft(SkipOut(lines[i], readItem), n) == 0x1_0000_0000_0000_0000 - |itemDelim|
  {
    hide ValueStart;
    hide SkipOut;
    hide Flatten;
    hide LengthLeft;
    var f, lines := fields[i], Lines(fields, itemDelim, keyDelim);
    var line, rest := lines[i], Flatten(lines[i + 1..]);
    TextFromLine(lines, i);
    NextOffset(lines, i);
    FirstLineEnds(f, itemDelim, keyDelim, readItem, readKey, "");
    NothingAppended(line);
    assert lines[i + 1..] == Lines(fields[i + 1..], itemDelim, keyDelim);
    LineStartsText(fields[i + 1..], itemDelim, keyDelim);
    hide Offset;
    NoValueStarts(f, itemDelim, keyDelim, readItem, readKey, rest);
    hide *;
    LessThanNothing(|f.name| + |keyDelim|, |itemDelim|, |Serialized(fields, itemDelim, keyDelim)|);
  }

  lemma LessThanNothing(l: nat, d: nat, size: nat)
    requires 0 < d && l + d <= size < 0x1_0000_0000_0000_0000
    ensures LengthLeft(l, l + d) == 0x1_0000_0000_0000_0000 - d
  {
  }

  lemma LineStartsText(fields: seq<Field>, itemDelim: string, keyDelim: string)
    requires keyDelim != "" && keyDelim[0] == ':' && forall i :: 0 <= i < |fields| ==> PlainField(fields[i])
    ensures var t := Flatten(Lines(fields, itemDelim, keyDelim)); t != "" ==> !IsSpace(t[0])
  {
    if fields != [] {
      var lines := Lines(fields, itemDelim, keyDelim);
      assert Flatten(lines) == lines[0] + Flatten(lines[1..]);
      LineChars(fields[0], itemDelim, keyDelim, Flatten(lines[1..]), 0);
    }
  }

  lemma NoValueStarts(f: Field, itemDelim: string, keyDelim: string, readItem: string, readKey: string, rest: string)
    requires PlainField(f) && f.value == "" && GoodDelims(itemDelim, keyDelim, readItem, readKey)
    requires forall k :: 0 <= k < |itemDelim| ==> IsEol(itemDelim[k])
    requires rest != "" ==> !IsSpace(rest[0])
    ensures ValueStart(Line(f, itemDelim, keyDelim) + rest, readKey) == |f.name| + |keyDelim| + |itemDelim|
  {
    var tail := "" + (itemDelim + rest);
    NameEnds(f, itemDelim, keyDelim, readItem, readKey, rest);
    LineTail(f, itemDelim, keyDelim, rest);
    DelimsEnd(keyDelim, readKey, itemDelim, rest);
    assert tail == itemDelim + rest;
    hide *;
    ValueStartIs(Line(f, itemDelim, keyDelim) + rest, |f.name|, keyDelim + tail, readKey);
  }

  lemma DelimsEnd(keyDelim: string, readKey: string, itemDelim: string, rest: string)
    requires keyDelim != "" && keyDelim[0] == ':' && forall i :: 1 <= i < |keyDelim| ==> IsBlank(keyDelim[i])
    requires itemDelim != "" && forall k :: 0 <= k < |itemDelim| ==> IsEol(itemDelim[k])
    requires (readKey == ":" || readKey == ": ") && (rest != "" ==> !IsSpace(rest[0]))
    ensures var s := keyDelim + (itemDelim + rest); var k := SkipIn(s, readKey);
            k + SkipSpace(s[k..]) == |keyDelim| + |itemDelim|
  {
    var s, m := keyDelim + (itemDelim + rest), |keyDelim|;
    var k, d := SkipIn(s, readKey), |itemDelim|;
    assert s[m] == itemDelim[0];
    SkipInAll(s, 0, readKey);
    SkipInAll(s, m, readKey);
    assert 1 <= k <= m;
    assert forall i :: 0 <= i < m - k ==> s[k..][i] == keyDelim[k + i];
    assert forall i :: m - k <= i < m + d - k ==> s[k..][i] == itemDelim[i - (m - k)];
    assert rest != "" ==> s[k..][m + d - k] == rest[0];
    SkipSpaceIs(s[k..], m + d - k);
  }

  // ---------- setting a field ----------

  lemma AppendLine(fields: seq<Field>, f: Field, itemDelim: string)
    ensures Serialized(fields, itemDelim, ": ") + Line(f, itemDelim, ": ") == Serialized(fields + [f], itemDelim, ": ")
  {
    var lines := Lines(fields, itemDelim, ": ");
    assert Lines(fields + [f], itemDelim, ": ") == lines + [Line(f, itemDelim, ": ")];
    FlattenAppend(lines, [Line(f, itemDelim, ": ")]);
    FlattenOne(Line(f, itemDelim, ": "));
  }

  lemma RemoveFirst(fields: seq<Field>, name: string,
                    itemDelim: string, keyDelim: string, readItem: string, readKey: string)
    requires WrittenWell(fields, itemDelim, keyDelim, readItem, readKey) && IsFirst(fields, name, 0)
    ensures Unset(Serialized(fields, itemDelim, keyDelim), name, readItem)
            == Serialized(fields[1..], itemDelim, keyDelim)
  {
    var text, line := Serialized(fields, itemDelim, keyDelim), Line(fields[0], itemDelim, keyDelim);
    var rest := Serialized(fields[1..], itemDelim, keyDelim);
    FirstLineThen(fields, itemDelim, keyDelim);
    NextLineStarts(fields[1..], itemDelim, keyDelim, readItem, readKey);
    FirstLineEnds(fields[0], itemDelim, keyDelim, readItem, readKey, rest);
    UnsetOf(fields, name, 0, itemDelim, keyDelim, readItem, readKey);
    hide *;
    assert text[0..] == text && text[..0] == "" && text[|line|..] == rest && "" + rest == rest;
  }

  // ---------- later fields ----------

  /** Items are cut apart wherever delimiters end. */
  lemma {:induction false} ItemsSplit(a: string, b: string, itemDelim: string)
    requires a != "" && Member(a[|a| - 1], itemDelim) && (b != "" ==> !Member(b[0], itemDelim))
    ensures Items(a + b, itemDelim) == Items(a, itemDelim) + Items(b, itemDelim)
    decreases |a|
  {
    hide SkipOut;
    hide SkipIn;
    var n := SkipPast(a, itemDelim);
    SkipsAlike(a, b, itemDelim);
    hide SkipPast;
    assert (a + b)[..n] == a[..n] && (a + b)[n..] == a[n..] + b;
    if n < |a| {
      assert a[n..][|a| - n - 1] == a[|a| - 1];
      ItemsSplit(a[n..], b, itemDelim);
      Associate([a[..n]], Items(a[n..], itemDelim), Items(b, itemDelim));
    } else {
      assert a[n..] == "" && a[n..] + b == b;
    }
  }

  lemma SkipsAlike(a: string, b: string, itemDelim: string)
    requires a != "" && Member(a[|a| - 1], itemDelim) && (b != "" ==> !Member(b[0], itemDelim))
    ensures SkipPast(a + b, itemDelim) == SkipPast(a, itemDelim)
  {
    var o := SkipOut(a, itemDelim);
    var n := SkipIn(a[o..], itemDelim);
    SkipOutIs(a + b, itemDelim, o);
    assert (a + b)[o..] == a[o..] + b;
    assert n < |a[o..] + b| ==> (a[o..] + b)[n] == if o + n < |a| then a[o..][n] else b[0];
    SkipInIs(a[o..] + b, itemDelim, n);
  }

  /** Skipping past an item does not go beyond a place where delimiters end. */
  lemma SkipStopsAt(s: string, m: nat, itemDelim: string)
    requires 0 < m < |s| && Member(s[m - 1], itemDelim) && !Member(s[m], itemDelim)
    ensures SkipPast(s, itemDelim) <= m
  {
    hide SkipOut;
    hide SkipIn;
    var o := SkipOut(s, itemDelim);
    assert o < m;
    assert s[o..][m - o] == s[m];
  }

  lemma LineIsLong(f: Field, itemDelim: string, keyDelim: string, readItem: string, readKey: string)
    requires GoodField(f) && GoodDelims(itemDelim, keyDelim, readItem, readKey)
    ensures |Line(f, itemDelim, keyDelim)| >= 3
  {
  }

  lemma {:induction false} OffsetIsLarge(lines: seq<string>, k: nat)
    requires k <= |lines| && forall i :: 0 <= i < |lines| ==> |lines[i]| >= 3
    ensures Offset(lines, k) >= 3 * k
  {
    if k > 0 {
      OffsetIsLarge(lines, k - 1);
      NextOffset(lines, k - 1);
    }
  }

  /** Behind a line its delimiters end. */
  lemma LineEnds(fields: seq<Field>, k: nat,
                 itemDelim: string, keyDelim: string, readItem: string, readKey: string)
    requires WrittenWell(fields, itemDelim, keyDelim, readItem, readKey) && k < |fields|
    ensures var text := Serialized(fields, itemDelim, keyDelim); var lines := Lines(fields, itemDelim, keyDelim);
            var end := Offset(lines, k + 1);
            && 0 < Offset(lines, k) + 3 <= end <= |text| && Member(text[end - 1], readItem)
            && (end < |text| ==> !Member(text[end], readItem))
            && text[end..] == Serialized(fields[k + 1..], itemDelim, keyDelim)
  {
    var lines, rest := Lines(fields, itemDelim, keyDelim), fields[k + 1..];
    var line := Line(fields[k], itemDelim, keyDelim);
    LineIsLong(fields[k], itemDelim, keyDelim, readItem, readKey);
    NextOffset(lines, k);
    TextFromLine(lines, k);
    assert lines[k + 1..] == Lines(rest, itemDelim, keyDelim);
    NextLineStarts(rest, itemDelim, keyDelim, readItem, readKey);
    LineEndsInDelim(fields[k], itemDelim, keyDelim);
    LineInText(Flatten(lines), Offset(lines, k), line, Flatten(lines[k + 1..]));
  }

  lemma LineEndsInDelim(f: Field, itemDelim: string, keyDelim: string)
    requires itemDelim != ""
    ensures var line := Line(f, itemDelim, keyDelim); line[|line| - 1] == itemDelim[|itemDelim| - 1]
  {
  }

  lemma LineInText(text: string, at: nat, line: string, rest: string)
    requires at <= |text| && text[at..] == line + rest && line != ""
    ensures at + |line| <= |text| && text[at + |line| - 1] == line[|line| - 1] && text[at + |line|..] == rest
  {
    assert |text[at..]| == |line| + |rest|;
    assert text[at + |line| - 1] == text[at..][|line| - 1];
    assert text[at + |line|..] == text[at..][|line|..];
  }

  function Others(fields: seq<Field>, i: nat): seq<Field>
    requires i < |fields|
  {
    fields[..i] + fields[i + 1..]
  }

  /** From the third field on the bytes removed lie in front of the line before, so that the line itself stays. */
  lemma UnsetMissesLater(fields: seq<Field>, name: string, i: nat,
                         itemDelim: string, keyDelim: string, readItem: string, readKey: string)
    requires WrittenWell(fields, itemDelim, keyDelim, readItem, readKey) && IsFirst(fields, name, i) && 2 <= i < |fields|
    ensures Unset(Serialized(fields, itemDelim, keyDelim), name, readItem)
            != Serialized(Others(fields, i), itemDelim, keyDelim)
  {
    hide *;
    WellIsPlain(fields, itemDelim, keyDelim, readItem, readKey);
    var text, lines := Serialized(fields, itemDelim, keyDelim), Lines(fields, itemDelim, keyDelim);
    var m, at := Offset(lines, i - 1), Offset(lines, i);
    OffsetIsBehind(fields, i - 1, itemDelim, keyDelim, readItem, readKey);
    LineEnds(fields, i - 2, itemDelim, keyDelim, readItem, readKey);
    LineEnds(fields, i - 1, itemDelim, keyDelim, readItem, readKey);
    UnsetOf(fields, name, i, itemDelim, keyDelim, readItem, readKey);
    CutInFront(text, i, m, at, readItem);
    var before := text[..i] + text[i + SkipPast(text[i..], readItem)..at];
    LineStays(fields, name, i, before, itemDelim, keyDelim, readItem, readKey);
  }

  lemma OffsetIsBehind(fields: seq<Field>, k: nat,
                       itemDelim: string, keyDelim: string, readItem: string, readKey: string)
    requires WrittenWell(fields, itemDelim, keyDelim, readItem, readKey) && k <= |fields|
    ensures Offset(Lines(fields, itemDelim, keyDelim), k) >= 3 * k
  {
    var lines := Lines(fields, itemDelim, keyDelim);
    forall j | 0 <= j < |lines|
      ensures |lines[j]| >= 3
    {
      LineIsLong(fields[j], itemDelim, keyDelim, readItem, readKey);
    }
    OffsetIsLarge(lines, k);
  }

  /** Cutting out the item from i on, when delimiters end at m and again at `at`. */
  lemma CutInFront(text: string, i: nat, m: nat, at: nat, itemDelim: string)
    requires i < m < at <= |text| && Member(text[m - 1], itemDelim) && !Member(text[m], itemDelim)
    requires Member(text[at - 1], itemDelim) && (at < |text| ==> !Member(text[at], itemDelim))
    ensures var c := SkipPast(text[i..], itemDelim);
            && i + c <= m
            && text[..i] + text[i + c..] == text[..i] + text[i + c..at] + text[at..]
            && Items(text[..i] + text[i + c..at] + text[at..], itemDelim)
               == Items(text[..i] + text[i + c..at], itemDelim) + Items(text[at..], itemDelim)
  {
    hide SkipPast;
    hide Items;
    assert text[i..][m - i - 1] == text[m - 1] && text[i..][m - i] == text[m];
    SkipStopsAt(text[i..], m - i, itemDelim);
    var c := SkipPast(text[i..], itemDelim);
    var before := text[..i] + text[i + c..at];
    assert before[|before| - 1] == text[at - 1];
    assert text[i + c..] == text[i + c..at] + text[at..];
    ItemsSplit(before, text[at..], itemDelim);
  }

  lemma UnsetOf(fields: seq<Field>, name: string, i: nat,
                itemDelim: string, keyDelim: string, readItem: string, readKey: string)
    requires WrittenPlain(fields, itemDelim, keyDelim, readItem, readKey) && IsFirst(fields, name, i)
    ensures var text := Serialized(fields, itemDelim, keyDelim);
            && i <= |text|
            && Unset(text, name, readItem) == text[..i] + text[i + SkipPast(text[i..], readItem)..]
  {
    hide *;
    WrittenItems(fields, itemDelim, keyDelim, readItem, readKey);
    FieldNumber(fields, name, i, itemDelim, keyDelim, readItem, readKey);
    var text := Serialized(fields, itemDelim, keyDelim);
    NoMoreItemsThanBytes(text, readItem);
    UnsetAt(text, name, readItem, i);
  }

  /** Two fields of different names have different lines, so a text that keeps the line is not what is wanted. */
  lemma LineStays(fields: seq<Field>, name: string, i: nat, before: string,
                  itemDelim: string, keyDelim: string, readItem: string, readKey: string)
    requires WrittenWell(fields, itemDelim, keyDelim, readItem, readKey) && IsFirst(fields, name, i) && i >= 1
    requires var after := Serialized(fields[i..], itemDelim, keyDelim);
             Items(before + after, readItem) == Items(before, readItem) + Items(after, readItem)
    ensures before + Serialized(fields[i..], itemDelim, keyDelim) != Serialized(Others(fields, i), itemDelim, keyDelim)
  {
    hide Items;
    hide Serialized;
    hide Names;
    var lines := Lines(fields, itemDelim, keyDelim);
    ItemsAreLines(fields[i..], itemDelim, keyDelim, readItem, readKey);
    ItemsAreLines(Others(fields, i), itemDelim, keyDelim, readItem, readKey);
    assert Lines(fields[i..], itemDelim, keyDelim) == lines[i..];
    assert Lines(Others(fields, i), itemDelim, keyDelim) == lines[..i] + lines[i + 1..];
    LineNames(fields[i], name, itemDelim, keyDelim, readItem, readKey);
    LineNames(fields[i - 1], name, itemDelim, keyDelim, readItem, readKey);
    KeptTwice(Items(before, readItem), lines, i);
  }

  lemma KeptTwice(front: seq<string>, lines: seq<string>, i: nat)
    requires 1 <= i < |lines|
    ensures front + lines[i..] == lines[..i] + lines[i + 1..] ==> lines[i] == lines[i - 1]
  {
    if front + lines[i..] == lines[..i] + lines[i + 1..] {
      assert |front| == i - 1;
      assert (front + lines[i..])[i - 1] == lines[i];
    }
  }

  /** The second field: the first line loses all but its first byte. */
  lemma UnsetSecond(fields: seq<Field>, name: string,
                    itemDelim: string, keyDelim: string, readItem: string, readKey: string)
    requires WrittenWell(fields, itemDelim, keyDelim, readItem, readKey) && IsFirst(fields, name, 1)
    ensures var first, second := Line(fields[0], itemDelim, keyDelim), Line(fields[1], itemDelim, keyDelim);
            Unset(Serialized(fields, itemDelim, keyDelim), name, readItem)
            == first[..1] + second + Serialized(fields[2..], itemDelim, keyDelim)
  {
    var first, second := Line(fields[0], itemDelim, keyDelim), Line(fields[1], itemDelim, keyDelim);
    var tail := Serialized(fields[2..], itemDelim, keyDelim);
    UnsetOf(fields, name, 1, itemDelim, keyDelim, readItem, readKey);
    TwoLinesThen(fields, itemDelim, keyDelim);
    NextLineStarts(fields[1..], itemDelim, keyDelim, readItem, readKey);
    LineIsLong(fields[0], itemDelim, keyDelim, readItem, readKey);
    FirstLineEnds(fields[0], itemDelim, keyDelim, readItem, readKey, second + tail);
    hide *;
    SkipFromSecond(first + (second + tail), readItem);
    AllButFirstByte(first, second + tail);
    Associate(first[..1], second, tail);
  }

  lemma AllButFirstByte(first: string, rest: string)
    requires first != ""
    ensures var text := first + rest; text[..1] + text[1 + (|first| - 1)..] == first[..1] + rest
  {
  }

  lemma SkipFromSecond(s: string, itemDelim: string)
    requires s != "" && SkipOut(s, itemDelim) > 0
    ensures SkipPast(s[1..], itemDelim) == SkipPast(s, itemDelim) - 1
  {
    var o := SkipOut(s[1..], itemDelim);
    assert SkipOut(s, itemDelim) == 1 + o;
    assert s[1..][o..] == s[1 + o..];
  }

  lemma TwoLinesThen(fields: seq<Field>, itemDelim: string, keyDelim: string)
    requires |fields| >= 2
    ensures var rest := Line(fields[1], itemDelim, keyDelim) + Serialized(fields[2..], itemDelim, keyDelim);
            && Serialized(fields[1..], itemDelim, keyDelim) == rest
            && Serialized(fields, itemDelim, keyDelim) == Line(fields[0], itemDelim, keyDelim) + rest
  {
    FirstLineThen(fields, itemDelim, keyDelim);
    FirstLineThen(fields[1..], itemDelim, keyDelim);
    assert fields[1..][1..] == fields[2..];
  }

  lemma FirstLineThen(fields: seq<Field>, itemDelim: string, keyDelim: string)
    requires fields != []
    ensures Serialized(fields, itemDelim, keyDelim)
            == Line(fields[0], itemDelim, keyDelim) + Serialized(fields[1..], itemDelim, keyDelim)
  {
    assert Lines(fields, itemDelim, keyDelim)[1..] == Lines(fields[1..], itemDelim, keyDelim);
  }

  /** Does removing field i work? It does for the first field, and for the second if its line is the first
      line without that one's first byte. */
  predicate RemovesCleanly(fields: seq<Field>, i: nat, itemDelim: string, keyDelim: string)
    requires i < |fields|
  {
    i == 0 || (i == 1 && IsTail(Line(fields[1], itemDelim, keyDelim), Line(fields[0], itemDelim, keyDelim)))
  }

  predicate IsTail(t: string, s: string) {
    s != "" && t == s[1..]
  }

  /** Removing a field leaves the others, and nothing else, exactly in these cases: the number of its item is
      taken for a byte offset, which is right for the first field alone. */
  lemma UnsetRemovesExactlyIf(fields: seq<Field>, name: string, i: nat,
                              itemDelim: string, keyDelim: string, readItem: string, readKey: string)
    requires WrittenWell(fields, itemDelim, keyDelim, readItem, readKey) && IsFirst(fields, name, i) && i < |fields|
    ensures Unset(Serialized(fields, itemDelim, keyDelim), name, readItem)
            == Serialized(Others(fields, i), itemDelim, keyDelim)
            <==> RemovesCleanly(fields, i, itemDelim, keyDelim)
  {
    if i == 0 {
      RemoveFirst(fields, name, itemDelim, keyDelim, readItem, readKey);
      assert Others(fields, 0) == fields[1..];
    } else if i == 1 {
      var first, second := Line(fields[0], itemDelim, keyDelim), Line(fields[1], itemDelim, keyDelim);
      UnsetSecond(fields, name, itemDelim, keyDelim, readItem, readKey);
      LineIsLong(fields[0], itemDelim, keyDelim, readItem, readKey);
      FirstLineThen(Others(fields, 1), itemDelim, keyDelim);
      assert Others(fields, 1)[0] == fields[0] && Others(fields, 1)[1..] == fields[2..];
      TailExactlyIf(first, second, Serialized(fields[2..], itemDelim, keyDelim));
    } else {
      UnsetMissesLater(fields, name, i, itemDelim, keyDelim, readItem, readKey);
    }
  }

  lemma TailExactlyIf(s: string, t: string, rest: string)
    requires s != ""
    ensures s[..1] + t + rest == s + rest <==> IsTail(t, s)
  {
    assert s[..1] + s[1..] == s;
    if s[..1] + t + rest == s + rest {
      assert |t| == |s| - 1;
      assert s[..1] + t == (s[..1] + t + rest)[..|s|] == (s + rest)[..|s|] == s;
      assert t == (s[..1] + t)[1..];
    }
  }

  /** Setting a field that there is replaces it by one at the end in exactly the same cases. */
  lemma SetReplacesExactlyIf(fields: seq<Field>, f: Field, i: nat, itemDelim: string)
    requires WrittenWell(fields, itemDelim, ": ", itemDelim, ":") && IsFirst(fields, f.name, i) && i < |fields|
    ensures SetTo(Serialized(fields, itemDelim, ": "), f.name, f.value, itemDelim)
            == Serialized(Others(fields, i) + [f], itemDelim, ": ")
            <==> RemovesCleanly(fields, i, itemDelim, ": ")
  {
    hide *;
    UnsetRemovesExactlyIf(fields, f.name, i, itemDelim, ": ", itemDelim, ":");
    AppendLine(Others(fields, i), f, itemDelim);
    SetAppends(Serialized(fields, itemDelim, ": "), f, itemDelim);
    SameBehind(Unset(Serialized(fields, itemDelim, ": "), f.name, itemDelim),
               Serialized(Others(fields, i), itemDelim, ": "), Line(f, itemDelim, ": "));
  }

  lemma SetAppends(text: string, f: Field, itemDelim: string)
    ensures SetTo(text, f.name, f.value, itemDelim) == Unset(text, f.name, itemDelim) + Line(f, itemDelim, ": ")
  {
  }

  lemma SameBehind(a: string, b: string, rest: string)
    ensures a + rest == b + rest <==> a == b
  {
    if a + rest == b + rest {
      assert a == (a + rest)[..|a|] && b == (b + rest)[..|b|];
    }
  }

  /** Setting a name that no field has adds a field at the end. */
  lemma SetAddsMissing(fields: seq<Field>, f: Field, itemDelim: string)
    requires WrittenPlain(fields, itemDelim, ": ", itemDelim, ":")
    requires forall k :: 0 <= k < |fields| ==> !SameLetters(fields[k].name, f.name)
    ensures SetTo(Serialized(fields, itemDelim, ": "), f.name, f.value, itemDelim)
            == Serialized(fields + [f], itemDelim, ": ")
  {
    var lines := Lines(fields, itemDelim, ": ");
    ItemsAreLines(fields, itemDelim, ": ", itemDelim, ":");
    AppendLine(fields, f, itemDelim);
    forall k | 0 <= k < |fields|
      ensures !Names(lines[k], f.name)
    {
      LineNames(fields[k], f.name, itemDelim, ": ", itemDelim, ":");
    }
    NoneNamed(lines, f.name);
  }

  /** For one, removing the second of two fields joins the names of both. */
  lemma UnsetLaterFieldGarbles()
    ensures var fields := [Field("a", "1"), Field("b", "2")];
            Unset(Serialized(fields, "\n", ": "), "b", "\n") == "ab: 2\n"
  {
    var fields := [Field("a", "1"), Field("b", "2")];
    SecondField(fields);
    TwoFieldsText(fields);
    GarbledText(Serialized(fields, "\n", ": "));
    hide *;
    UnsetAt(Serialized(fields, "\n", ": "), "b", "\n", 1);
  }

  lemma UnsetAt(text: string, name: string, itemDelim: string, i: nat)
    requires FirstNamed(Items(text, itemDelim), name) == i && i <= |text|
    ensures Unset(text, name, itemDelim) == text[..i] + text[i + SkipPast(text[i..], itemDelim)..]
  {
    hide Items;
    hide FirstNamed;
    hide SkipPast;
  }

  lemma TwoLines(a: string, b: string)
    ensures Flatten([a, b]) == a + b
  {
    assert [a, b][1..] == [b];
    FlattenOne(b);
  }

  lemma TwoFieldsText(fields: seq<Field>)
    requires fields == [Field("a", "1"), Field("b", "2")]
    ensures Serialized(fields, "\n", ": ") == "a: 1\nb: 2\n"
  {
    var a, b := Line(fields[0], "\n", ": "), Line(fields[1], "\n", ": ");
    TwoLines(a, b);
    hide Flatten;
    assert Lines(fields, "\n", ": ") == [a, b];
    assert a == "a: 1\n" && b == "b: 2\n";
  }

  lemma SecondField(fields: seq<Field>)
    requires fields == [Field("a", "1"), Field("b", "2")]
    ensures FirstNamed(Items(Serialized(fields, "\n", ": "), "\n"), "b") == 1
  {
    hide *;
    TwoWritten(fields);
    FieldNumber(fields, "b", 1, "\n", ": ", "\n", ":");
    WrittenItems(fields, "\n", ": ", "\n", ":");
  }

  lemma TwoWritten(fields: seq<Field>)
    requires fields == [Field("a", "1"), Field("b", "2")]
    ensures WrittenPlain(fields, "\n", ": ", "\n", ":") && IsFirst(fields, "b", 1)
  {
    TwoFieldsText(fields);
    hide Serialized;
    assert !SameLetters("a", "b") by {
      hide SameText;
      SameTextExactlyIf("a", "b");
      assert Lower("a"[0]) != Lower("b"[0]);
    }
  }

  lemma GarbledText(text: string)
    requires text == "a: 1\nb: 2\n"
    ensures SkipPast(text[1..], "\n") == 4 && text[..1] + text[5..] == "ab: 2\n"
  {
    SkipOutIs(text[1..], "\n", 3);
    assert text[1..][3..] == "\nb: 2\n";
    SkipInIs("\nb: 2\n", "\n", 1);
  }
}

/** Byte blocks, their concatenation, and the two canonical ways the library cuts a byte stream:
    into chunks of a fixed size and into lines. */
module Bytes {

  newtype byte = i: int | 0 <= i < 256

  type Block = seq<byte>

  const NEWLINE: byte := 10

  datatype Option<+T> = None | Some(value: T)

  // ---------- concatenation ----------

  function Flatten<T>(blocks: seq<seq<T>>): seq<T> {
    if blocks == [] then [] else blocks[0] + Flatten(blocks[1..])
  }

  lemma FlattenCons<T>(b: seq<T>, rest: seq<seq<T>>)
    ensures Flatten([b] + rest) == b + Flatten(rest)
  {
    assert ([b] + rest)[1..] == rest;
  }

  lemma {:induction false} FlattenAppend<T>(a: seq<seq<T>>, b: seq<seq<T>>)
    ensures Flatten(a + b) == Flatten(a) + Flatten(b)
  {
    if a == [] {
      assert a + b == b;
    } else {
      FlattenAppend(a[1..], b);
      assert a + b == [a[0]] + (a[1..] + b);
      FlattenCons(a[0], a[1..] + b);
    }
  }

  lemma FlattenOne<T>(b: seq<T>)
    ensures Flatten([b]) == b
  {
    assert [b][1..] == [];
  }

  lemma FlattenMiddle<T>(before: seq<seq<T>>, b: seq<T>, after: seq<seq<T>>)
    ensures Flatten(before + [b] + after) == Flatten(before) + b + Flatten(after)
  {
    FlattenAppend(before + [b], after);
    FlattenSnoc(before, b);
  }

  lemma FlattenSnoc<T>(a: seq<seq<T>>, b: seq<T>)
    ensures Flatten(a + [b]) == Flatten(a) + b
  {
    FlattenAppend(a, [b]);
    FlattenOne(b);
  }

  lemma {:induction false} FlattenIsEmpty<T>(blocks: seq<seq<T>>)
    ensures Flatten(blocks) == [] <==> forall i :: 0 <= i < |blocks| ==> blocks[i] == []
  {
    if blocks != [] {
      FlattenIsEmpty(blocks[1..]);
      assert forall i :: 0 < i < |blocks| ==> blocks[i] == blocks[1..][i - 1];
      assert forall i :: 0 <= i < |blocks| - 1 ==> blocks[1..][i] == blocks[i + 1];
    }
  }

  lemma Associate<T>(a: seq<T>, b: seq<T>, c: seq<T>)
    ensures a + (b + c) == a + b + c
  {
  }

  // ---------- chunks of a fixed size ----------

  /** The c-byte chunking of a byte stream: full chunks, then what is left. */
  function Chunks(c: nat, s: Block): (r: seq<Block>)
    requires c > 0
    decreases |s|
  {
    if s == [] then [] else if |s| <= c then [s] else [s[..c]] + Chunks(c, s[c..])
  }

  /** Every block but the last has exactly c bytes, and the last has 1 to c. */
  ghost predicate IsChunking(c: nat, blocks: seq<Block>) {
    && (forall i :: 0 <= i < |blocks| - 1 ==> |blocks[i]| == c)
    && (blocks != [] ==> 1 <= |blocks[|blocks| - 1]| <= c)
  }

  /** `Chunks` loses nothing and has the shape of a chunking. */
  lemma {:induction false} ChunksAreAChunking(c: nat, s: Block)
    requires c > 0
    ensures Flatten(Chunks(c, s)) == s
    ensures IsChunking(c, Chunks(c, s))
    decreases |s|
  {
    if s == [] {
    } else if |s| <= c {
      FlattenOne(s);
    } else {
      ChunksAreAChunking(c, s[c..]);
      FlattenCons(s[..c], Chunks(c, s[c..]));
      assert s == s[..c] + s[c..];
    }
  }

  /** There is only one chunking of a given byte stream. */
  lemma {:induction false} ChunkingIsUnique(c: nat, blocks: seq<Block>)
    requires c > 0 && IsChunking(c, blocks)
    ensures blocks == Chunks(c, Flatten(blocks))
  {
    if |blocks| == 1 {
      FlattenOne(blocks[0]);
    } else if |blocks| > 1 {
      var rest := blocks[1..];
      assert rest[|rest| - 1] == blocks[|blocks| - 1];
      ChunkingIsUnique(c, rest);
      assert rest[0] != [] ==> Flatten(rest) != [];
      assert Flatten(blocks)[..c] == blocks[0];
      assert Flatten(blocks)[c..] == Flatten(rest);
    }
  }

  lemma DivideOneMore(n: nat, c: nat)
    requires c > 0
    ensures (n + c) / c == n / c + 1
  {
    var q, r := n / c, n % c;
    assert n + c == (q + 1) * c + r;
    DivisionIs(n + c, c, q + 1, r);
  }

  lemma TimesIsMonotone(a: nat, b: nat, c: nat)
    requires a <= b
    ensures a * c <= b * c
  {
  }

  lemma DivisionIs(n: nat, c: nat, q: nat, r: nat)
    requires c > 0 && r < c && n == q * c + r
    ensures n / c == q
  {
    if n / c < q {
      TimesIsMonotone(n / c + 1, q, c);
    } else if n / c > q {
      TimesIsMonotone(q + 1, n / c, c);
    }
  }

  lemma DivideUpToOne(n: nat, c: nat)
    requires 1 <= n <= c
    ensures n / c == if n < c then 0 else 1
  {
    if n < c {
      DivisionIs(n, c, 0, n);
    } else {
      DivisionIs(n, c, 1, 0);
    }
  }

  /** How many blocks of a chunking have full size. */
  function FullBlocks(c: nat, blocks: seq<Block>): nat {
    if blocks != [] && |blocks[|blocks| - 1]| < c then |blocks| - 1 else |blocks|
  }

  lemma {:induction false} FullBlocksAreCounted(c: nat, blocks: seq<Block>)
    requires c > 0 && IsChunking(c, blocks)
    ensures FullBlocks(c, blocks) == |Flatten(blocks)| / c
  {
    if |blocks| == 1 {
      FlattenOne(blocks[0]);
      DivideUpToOne(|blocks[0]|, c);
    } else if |blocks| > 1 {
      FullBlocksAreCounted(c, blocks[1..]);
      OneBlockMore(c, blocks[0], blocks[1..]);
      assert blocks == [blocks[0]] + blocks[1..];
    }
  }

  lemma OneBlockMore(c: nat, first: Block, rest: seq<Block>)
    requires c > 0 && |first| == c && rest != []
    ensures |Flatten([first] + rest)| / c == |Flatten(rest)| / c + 1
    ensures FullBlocks(c, [first] + rest) == FullBlocks(c, rest) + 1
  {
    hide Flatten;
    FlattenCons(first, rest);
    DivideOneMore(|Flatten(rest)|, c);
  }

  // ---------- lines ----------

  /** Length of the first line of `s`, its newline included; all of `s` when it has none. */
  function LineLength(s: Block): (n: nat)
    ensures n <= |s|
    ensures s != [] ==> n > 0
    ensures forall i :: 0 <= i < n - 1 ==> s[i] != NEWLINE
    ensures n < |s| ==> n > 0 && s[n - 1] == NEWLINE
  {
    if s == [] then 0 else if s[0] == NEWLINE then 1 else 1 + LineLength(s[1..])
  }

  /** The lines of `s`, each with its newline; the last one may lack it. */
  function SplitLines(s: Block): (r: seq<Block>)
    decreases |s|
  {
    if s == [] then [] else [s[..LineLength(s)]] + SplitLines(s[LineLength(s)..])
  }

  predicate EndsLine(b: Block) {
    b != [] && b[|b| - 1] == NEWLINE
  }

  /** One line: not empty, and a newline, which is byte 10, at most at its end. */
  ghost predicate IsLine(b: Block) {
    b != [] && forall i :: 0 <= i < |b| - 1 ==> b[i] != 10
  }

  /** Whole lines, of which only the last may be unfinished. */
  ghost predicate IsLining(blocks: seq<Block>) {
    && (forall i :: 0 <= i < |blocks| ==> IsLine(blocks[i]))
    && (forall i :: 0 <= i < |blocks| - 1 ==> EndsLine(blocks[i]))
  }

  lemma LiningCons(line: Block, rest: seq<Block>)
    requires IsLine(line) && IsLining(rest) && (rest != [] ==> EndsLine(line))
    ensures IsLining([line] + rest)
  {
  }

  lemma LineIs(s: Block)
    requires s != []
    ensures var n := LineLength(s); IsLine(s[..n]) && (s[n..] != [] ==> EndsLine(s[..n])) && s == s[..n] + s[n..]
  {
    hide LineLength;
  }

  lemma SplitUnfolds(s: Block)
    requires s != []
    ensures SplitLines(s) == [s[..LineLength(s)]] + SplitLines(s[LineLength(s)..])
  {
    hide LineLength;
  }

  lemma NoLinesOfNothing()
    ensures SplitLines([]) == []
  {
  }

  /** `SplitLines` loses nothing and cuts after each newline and nowhere else. */
  lemma {:induction false} SplitLinesIsALining(s: Block)
    ensures Flatten(SplitLines(s)) == s
    ensures IsLining(SplitLines(s))
    decreases |s|
  {
    if s != [] {
      hide LineLength;
      hide SplitLines;
      var n := LineLength(s);
      NoLinesOfNothing();
      LineIs(s);
      SplitUnfolds(s);
      SplitLinesIsALining(s[n..]);
      FlattenCons(s[..n], SplitLines(s[n..]));
      LiningCons(s[..n], SplitLines(s[n..]));
    }
  }

  lemma LineLengthIs(s: Block, n: nat)
    requires n <= |s| && (s != [] ==> n > 0)
    requires forall i :: 0 <= i < n - 1 ==> s[i] != NEWLINE
    requires n < |s| ==> s[n - 1] == NEWLINE
    ensures LineLength(s) == n
  {
  }

  lemma SplitFirst(line: Block, tail: Block)
    requires IsLine(line) && (tail != [] ==> EndsLine(line))
    ensures SplitLines(line + tail) == [line] + SplitLines(tail)
  {
    LineLengthIs(line + tail, |line|);
    assert (line + tail)[..|line|] == line && (line + tail)[|line|..] == tail;
  }

  /** There is only one way to cut a byte stream into lines. */
  lemma {:induction false} LiningIsUnique(blocks: seq<Block>)
    requires IsLining(blocks)
    ensures blocks == SplitLines(Flatten(blocks))
  {
    if blocks != [] {
      hide SplitLines;
      var line, rest := blocks[0], blocks[1..];
      assert IsLine(line) && (rest != [] ==> EndsLine(line));
      LiningIsUnique(rest);
      SplitFirst(line, Flatten(rest));
      assert blocks == [line] + rest;
    }
  }
}

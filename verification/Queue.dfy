/** The chunk queue (lib/queue.c, lib/queue.h): byte blocks with a sticky "done" marker.
    Functions named `After...` give the state an operation leaves; the class below updates its
    fields the way the C code does and is proved against them. */
module Queues {
  import opened Bytes

  datatype Item = Item(block: Block, done: bool)

  datatype QueueState = QueueState(items: seq<Item>, continuous: bool)

  const EMPTY := QueueState([], false)

  predicate Closed(q: QueueState) {
    q.items != [] && q.items[0].done
  }

  predicate Complete(q: QueueState) {
    q.items != [] && q.items[|q.items| - 1].done
  }

  /** At most one done marker; it is last and carries no bytes. */
  ghost predicate Shaped(q: QueueState) {
    forall i :: 0 <= i < |q.items| && q.items[i].done ==> i == |q.items| - 1 && q.items[i].block == []
  }

  function Blocks(items: seq<Item>): (r: seq<Block>)
    ensures |r| == |items|
    ensures forall i :: 0 <= i < |items| ==> r[i] == items[i].block
  {
    seq(|items|, i requires 0 <= i < |items| => items[i].block)
  }

  function ItemsOf(blocks: seq<Block>): (r: seq<Item>)
    ensures |r| == |blocks|
    ensures forall i :: 0 <= i < |blocks| ==> r[i] == Item(blocks[i], false)
  {
    seq(|blocks|, i requires 0 <= i < |blocks| => Item(blocks[i], false))
  }

  /** All bytes held, in order. */
  function Data(q: QueueState): Block {
    Flatten(Blocks(q.items))
  }

  /** The chunks held: every item but the done marker. */
  function Chunked(q: QueueState): seq<Block> {
    Blocks(if Complete(q) then q.items[..|q.items| - 1] else q.items)
  }

  /** An item that can still take bytes: one with bytes, or one that is not the done marker. */
  predicate IsChunk(item: Item) {
    item.block != [] || !item.done
  }

  /** Index of the last such item, -1 when there is none. */
  function LastChunk(items: seq<Item>): (i: int)
    ensures -1 <= i < |items|
    ensures i >= 0 ==> IsChunk(items[i])
    ensures forall j :: i < j < |items| ==> !IsChunk(items[j])
  {
    if items == [] then -1
    else if IsChunk(items[|items| - 1]) then |items| - 1
    else LastChunk(items[..|items| - 1])
  }

  // ---------- what each operation leaves ----------

  function AfterAdd(q: QueueState, chunk: Block): QueueState {
    if Complete(q) then q else q.(items := q.items + [Item(chunk, false)])
  }

  function AddAll(q: QueueState, chunks: seq<Block>): QueueState {
    if Complete(q) then q else q.(items := q.items + ItemsOf(chunks))
  }

  function Extend(q: QueueState, i: nat, data: Block): QueueState
    requires i < |q.items|
  {
    q.(items := q.items[i := q.items[i].(block := q.items[i].block + data)])
  }

  function AfterAppend(q: QueueState, data: Block): QueueState {
    var i := LastChunk(q.items);
    if i >= 0 then Extend(q, i, data) else AfterAdd(q, data)
  }

  function AfterWrite(q: QueueState, data: Block): QueueState {
    if q.continuous then AfterAppend(q, data) else AfterAdd(q, data)
  }

  /** Does the queue end in an unfinished line? */
  predicate EndsMidLine(q: QueueState) {
    var i := LastChunk(q.items);
    i >= 0 && q.items[i].block != [] && !EndsLine(q.items[i].block)
  }

  function AfterPutLine(q: QueueState, data: Block): QueueState {
    if EndsMidLine(q) then
      var n := LineLength(data);
      AddAll(Extend(q, LastChunk(q.items), data[..n]), SplitLines(data[n..]))
    else
      AddAll(q, SplitLines(data))
  }

  function AfterClose(q: QueueState): QueueState {
    if Complete(q) then q else q.(items := q.items + [Item([], true)])
  }

  function AfterContinuous(q: QueueState): QueueState {
    QueueState(if LastChunk(q.items) < 0 then q.items + [Item([], false)] else q.items, true)
  }

  function Front(q: QueueState): Item {
    if q.items == [] then Item([], false) else q.items[0]
  }

  /** The done marker stays when it is taken; every other item leaves. */
  function AfterNext(q: QueueState): QueueState {
    if q.items == [] || q.items[0].done then q else q.(items := q.items[1..])
  }

  // ---------- the class ----------

  class Queue {
    var items: seq<Item>
    var size: nat
    var continuous: bool

    ghost predicate Valid()
      reads this
    {
      size == |items|
    }

    ghost function State(): QueueState
      reads this
    {
      QueueState(items, continuous)
    }

    constructor ()
      ensures Valid() && State() == EMPTY && items == [] && size == 0 && !continuous
    {
      items, size, continuous := [], 0, false;
    }

    method FindLastChunk() returns (i: int)
      ensures i == LastChunk(items)
    {
      i := |items| - 1;
      while i >= 0
        invariant -1 <= i < |items|
        invariant LastChunk(items) == LastChunk(items[..i + 1])
      {
        if items[i].block != [] || !items[i].done {
          return;
        }
        assert items[..i + 1][..i] == items[..i];
        i := i - 1;
      }
    }

    method Next() returns (block: Block, done: bool)
      requires Valid()
      modifies this
      ensures Valid() && State() == AfterNext(old(State()))
      ensures Item(block, done) == Front(old(State()))
      ensures old(items) == [] ==> block == [] && !done
    {
      block, done := [], false;
      if items != [] {
        block, done := items[0].block, items[0].done;
        if !done {
          items := items[1..];
          size := size - 1;
        }
      }
    }

    /** Returns the index of the new item, -1 when the queue is complete. */
    method Add(chunk: Block) returns (i: int)
      requires Valid()
      modifies this
      ensures Valid() && State() == AfterAdd(old(State()), chunk)
      ensures i == if Complete(old(State())) then -1 else |items| - 1
    {
      if items != [] && items[|items| - 1].done {
        return -1;
      }
      items := items + [Item(chunk, false)];
      size := size + 1;
      i := |items| - 1;
    }

    /** Returns, like `Write` and `Append`, the index of the item that took the bytes, -1 when none did. */
    method Put(chunk: Block) returns (i: int)
      requires Valid()
      modifies this
      ensures Valid() && State() == AfterWrite(old(State()), chunk)
      ensures i == TookWrite(old(State()))
    {
      i := -1;
      if continuous {
        i := FindLastChunk();
      }
      if i >= 0 {
        if items[i].block == [] {
          assert [] + chunk == chunk;
          items := items[i := items[i].(block := chunk)];
        } else {
          items := items[i := items[i].(block := items[i].block + chunk)];
        }
      } else {
        i := Add(chunk);
      }
    }

    method Write(data: Block) returns (i: int)
      requires Valid()
      modifies this
      ensures Valid() && State() == AfterWrite(old(State()), data)
      ensures i == TookWrite(old(State()))
    {
      i := -1;
      if continuous {
        i := FindLastChunk();
      }
      if i >= 0 {
        items := items[i := items[i].(block := items[i].block + data)];
      } else {
        i := Add(data);
      }
    }

    method Append(data: Block) returns (i: int)
      requires Valid()
      modifies this
      ensures Valid() && State() == AfterAppend(old(State()), data)
      ensures i == TookAppend(old(State()))
    {
      i := FindLastChunk();
      if i >= 0 {
        items := items[i := items[i].(block := items[i].block + data)];
      } else {
        i := Add(data);
      }
    }

    /** Returns the index of the item that took the last bytes, -1 when none did. */
    method PutLine(data: Block) returns (i: int)
      requires Valid()
      modifies this
      ensures Valid() && State() == AfterPutLine(old(State()), data)
      ensures i == TookLine(old(State()), data)
    {
      var rest := data;
      i := FindLastChunk();
      if i >= 0 {
        var b := items[i].block;
        if b != [] && b[|b| - 1] != NEWLINE {
          var n := LineLength(data);
          i := Append(data[..n]);
          rest := data[n..];
        }
      }
      i := AddLines(rest, i);
    }

    /** The loop of `PutLine`; `found` is the item found before. */
    method AddLines(data: Block, found: int) returns (i: int)
      requires Valid()
      modifies this
      ensures Valid() && State() == AddAll(old(State()), SplitLines(data))
      ensures i == if data == [] then found else if Complete(old(State())) then -1 else |items| - 1
    {
      var rest := data;
      i := found;
      while rest != []
        invariant Valid() && (Complete(State()) <==> Complete(old(State())))
        invariant i == if rest == data then found else if Complete(State()) then -1 else |items| - 1
        invariant AddAll(State(), SplitLines(rest)) == AddAll(old(State()), SplitLines(data))
        decreases |rest|
      {
        var n := LineLength(rest);
        AddAllOneByOne(State(), rest[..n], SplitLines(rest[n..]));
        i := Add(rest[..n]);
        rest := rest[n..];
      }
      AddNothing(State(), SplitLines(rest));
    }

    /** The source asserts here that a queue whose front is done is complete. */
    method Close()
      requires Valid()
      requires Closed(State()) ==> Complete(State())
      modifies this
      ensures Valid() && State() == AfterClose(old(State()))
    {
      if items != [] && items[|items| - 1].done {
        return;
      }
      assert !Closed(State());
      items := items + [Item([], true)];
      size := size + 1;
    }

    method ByteCount() returns (bytes: nat)
      requires Valid()
      ensures bytes == |Data(State())|
    {
      if size == 0 {
        return 0;
      }
      bytes := 0;
      for k := 0 to |items|
        invariant bytes == |Flatten(Blocks(items[..k]))|
      {
        bytes := bytes + |items[k].block|;
        assert Blocks(items[..k + 1]) == Blocks(items[..k]) + [items[k].block];
        FlattenSnoc(Blocks(items[..k]), items[k].block);
      }
      assert items[..|items|] == items;
    }

    method Continuous()
      requires Valid()
      modifies this
      ensures Valid() && State() == AfterContinuous(old(State()))
      ensures continuous && (items == old(items) || items == old(items) + [Item([], false)])
    {
      continuous := true;
      var i := FindLastChunk();
      if i < 0 {
        items := items + [Item([], false)];
        size := size + 1;
      }
    }
  }

  /** The item that takes a write, as an index. */
  function TookWrite(q: QueueState): int {
    if q.continuous then TookAppend(q) else if Complete(q) then -1 else |q.items|
  }

  function TookAppend(q: QueueState): int {
    if LastChunk(q.items) >= 0 then LastChunk(q.items) else if Complete(q) then -1 else |q.items|
  }

  function TookLine(q: QueueState, data: Block): int {
    var rest := if EndsMidLine(q) then data[LineLength(data)..] else data;
    if rest == [] then LastChunk(q.items)
    else if Complete(q) then -1
    else |AfterPutLine(q, data).items| - 1
  }

  lemma AddAllOneByOne(q: QueueState, chunk: Block, rest: seq<Block>)
    ensures AddAll(AfterAdd(q, chunk), rest) == AddAll(q, [chunk] + rest)
  {
    assert ItemsOf([chunk] + rest) == [Item(chunk, false)] + ItemsOf(rest);
    assert !Complete(q) ==> q.items + ([Item(chunk, false)] + ItemsOf(rest)) == q.items + [Item(chunk, false)] + ItemsOf(rest);
  }

  lemma AddNothing(q: QueueState, none: seq<Block>)
    requires none == []
    ensures AddAll(q, none) == q
  {
    assert q.items + ItemsOf([]) == q.items;
  }

  /** The item named took the bytes: it ends in them, and it is the last chunk; otherwise nothing changed. */
  lemma TookHolds(q: QueueState, data: Block)
    ensures var i, q' := TookWrite(q), AfterWrite(q, data); TookBytes(q, q', i, data)
    ensures var i, q' := TookAppend(q), AfterAppend(q, data); TookBytes(q, q', i, data)
  {
  }

  ghost predicate TookBytes(q: QueueState, q': QueueState, i: int, data: Block) {
    if i < 0 then q' == q
    else i == LastChunk(q'.items) && EndsIn(q'.items[i].block, data)
  }

  predicate EndsIn(b: Block, data: Block) {
    |data| <= |b| && b[|b| - |data|..] == data
  }

  /** Putting lines names the last chunk if all the data went in, and none otherwise. */
  lemma TookLineHolds(q: QueueState, data: Block)
    requires Shaped(q)
    ensures TookLine(q, data) ==
            if Taken(q, PutLine(data)) == data then LastChunk(AfterPutLine(q, data).items) else -1
  {
    var n := LineLength(data);
    var rest := if EndsMidLine(q) then data[n..] else data;
    var q' := if EndsMidLine(q) then Extend(q, LastChunk(q.items), data[..n]) else q;
    SplitLinesIsALining(rest);
    if EndsMidLine(q) {
      SameLastChunk(q.items, q'.items);
    }
    if rest == [] {
      AddNothing(q', SplitLines(rest));
      assert EndsMidLine(q) ==> data[..n] == data;
    } else if !Complete(q') {
      LastOfAdded(q', SplitLines(rest));
    } else {
      assert EndsMidLine(q) ==> |data[..n]| < |data|;
    }
  }

  lemma {:induction false} SameLastChunk(a: seq<Item>, b: seq<Item>)
    requires |a| == |b| && forall i :: 0 <= i < |a| ==> IsChunk(a[i]) == IsChunk(b[i])
    ensures LastChunk(a) == LastChunk(b)
  {
  }

  lemma LastOfAdded(q: QueueState, lines: seq<Block>)
    requires lines != [] && !Complete(q)
    ensures var items := AddAll(q, lines).items; LastChunk(items) == |items| - 1
  {
  }

  // ---------- the bytes an operation adds ----------

  lemma ExtendAddsBytes(q: QueueState, data: Block)
    requires LastChunk(q.items) >= 0
    ensures Data(Extend(q, LastChunk(q.items), data)) == Data(q) + data
  {
    var i, bs := LastChunk(q.items), Blocks(q.items);
    hide Flatten;
    assert forall j :: i < j < |bs| ==> bs[j] == [] by { assert forall j :: i < j < |bs| ==> !IsChunk(q.items[j]); }
    assert Blocks(Extend(q, i, data).items) == bs[i := bs[i] + data];
    LongerBlock(bs, i, data);
  }

  lemma LongerBlock(bs: seq<Block>, i: nat, data: Block)
    requires i < |bs| && forall j :: i < j < |bs| ==> bs[j] == []
    ensures Flatten(bs[i := bs[i] + data]) == Flatten(bs) + data
  {
    hide Flatten;
    var front, last, empties := bs[..i], bs[i], bs[i + 1..];
    FlattenIsEmpty(empties);
    FlattenMiddle(front, last, empties);
    FlattenMiddle(front, last + data, empties);
    assert bs == front + [last] + empties;
    assert bs[i := last + data] == front + [last + data] + empties;
    LongerMiddle(Flatten(front), last, data);
  }

  lemma LongerMiddle(before: Block, b: Block, data: Block)
    ensures before + (b + data) + [] == before + b + [] + data
  {
  }

  lemma AddAllAddsBytes(q: QueueState, chunks: seq<Block>)
    ensures Data(AddAll(q, chunks)) == if Complete(q) then Data(q) else Data(q) + Flatten(chunks)
  {
    if !Complete(q) {
      assert Blocks(q.items + ItemsOf(chunks)) == Blocks(q.items) + chunks;
      FlattenAppend(Blocks(q.items), chunks);
    }
  }

  // ---------- runs ----------

  datatype QueueOp =
    | Add(chunk: Block)
    | Write(data: Block)
    | Append(data: Block)
    | PutLine(data: Block)
    | Next
    | Close
    | Continuous

  function Step(q: QueueState, op: QueueOp): QueueState {
    match op
    case Add(b) => AfterAdd(q, b)
    case Write(b) => AfterWrite(q, b)
    case Append(b) => AfterAppend(q, b)
    case PutLine(b) => AfterPutLine(q, b)
    case Next => AfterNext(q)
    case Close => AfterClose(q)
    case Continuous => AfterContinuous(q)
  }

  /** The bytes the queue accepts from an operation. A complete queue still takes what is
      appended to its last chunk, and nothing else. */
  function Taken(q: QueueState, op: QueueOp): Block {
    match op
    case Add(b) => if Complete(q) then [] else b
    case Write(b) => if TookWrite(q) >= 0 then b else []
    case Append(b) => if TookAppend(q) >= 0 then b else []
    case PutLine(b) => if !Complete(q) then b else if EndsMidLine(q) then b[..LineLength(b)] else []
    case _ => []
  }

  function Given(q: QueueState, op: QueueOp): Block {
    if op.Next? then Front(q).block else []
  }

  function Run(q: QueueState, ops: seq<QueueOp>): QueueState
    decreases ops
  {
    if ops == [] then q else Run(Step(q, ops[0]), ops[1..])
  }

  function AllTaken(q: QueueState, ops: seq<QueueOp>): Block
    decreases ops
  {
    if ops == [] then [] else Taken(q, ops[0]) + AllTaken(Step(q, ops[0]), ops[1..])
  }

  function AllGiven(q: QueueState, ops: seq<QueueOp>): Block
    decreases ops
  {
    if ops == [] then [] else Given(q, ops[0]) + AllGiven(Step(q, ops[0]), ops[1..])
  }

  lemma StepMovesBytes(q: QueueState, op: QueueOp)
    requires Shaped(q)
    ensures Given(q, op) + Data(Step(q, op)) == Data(q) + Taken(q, op)
  {
    match op
    case Add(b) => AddOne(q, b);
    case Write(b) => if q.continuous { AppendAdds(q, b); } else { AddOne(q, b); }
    case Append(b) => AppendAdds(q, b);
    case PutLine(b) => PutLineAdds(q, b);
    case Next => NextGives(q);
    case Close => if !Complete(q) { NewItem(q, Item([], true)); }
    case Continuous => if LastChunk(q.items) < 0 { NewItem(q, Item([], false)); }
  }

  lemma NextGives(q: QueueState)
    requires Shaped(q)
    ensures Front(q).block + Data(AfterNext(q)) == Data(q)
  {
    if q.items != [] && !q.items[0].done {
      assert Blocks(q.items)[1..] == Blocks(q.items[1..]);
    }
  }

  lemma NewItem(q: QueueState, item: Item)
    ensures Data(QueueState(q.items + [item], q.continuous)) == Data(q) + item.block
  {
    assert Blocks(q.items + [item]) == Blocks(q.items) + [item.block];
    FlattenSnoc(Blocks(q.items), item.block);
  }

  lemma AddOne(q: QueueState, b: Block)
    ensures Data(AfterAdd(q, b)) == Data(q) + if Complete(q) then [] else b
  {
    if !Complete(q) { NewItem(q, Item(b, false)); }
  }

  lemma AppendAdds(q: QueueState, b: Block)
    ensures Data(AfterAppend(q, b)) == Data(q) + if LastChunk(q.items) >= 0 || !Complete(q) then b else []
  {
    if LastChunk(q.items) >= 0 { ExtendAddsBytes(q, b); } else { AddOne(q, b); }
  }

  lemma JoinAtCut(before: Block, b: Block, n: nat)
    requires n <= |b|
    ensures before + b[..n] + b[n..] == before + b
  {
    assert b == b[..n] + b[n..];
  }

  lemma PutLineAdds(q: QueueState, b: Block)
    requires Shaped(q)
    ensures Data(AfterPutLine(q, b)) == Data(q) + Taken(q, PutLine(b))
  {
    if EndsMidLine(q) {
      var n := LineLength(b);
      var q' := Extend(q, LastChunk(q.items), b[..n]);
      ExtendAddsBytes(q, b[..n]);
      SplitLinesIsALining(b[n..]);
      AddAllAddsBytes(q', SplitLines(b[n..]));
      JoinAtCut(Data(q), b, n);
    } else {
      AddAllAddsBytes(q, SplitLines(b));
      SplitLinesIsALining(b);
    }
  }

  /** An operation keeps the shape, except making continuous a queue that holds only its done
      marker: that one appends a chunk after the marker. */
  lemma StepKeepsShape(q: QueueState, op: QueueOp)
    requires Shaped(q)
    ensures Shaped(Step(q, op)) <==> !(op.Continuous? && q.items == [Item([], true)])
  {
    if op.Continuous? && LastChunk(q.items) < 0 && q.items != [] {
      assert !IsChunk(q.items[0]);
      assert q.items == [Item([], true)];
      assert Step(q, op).items[0].done;
    }
  }

  ghost predicate NeverContinuousWhenDrained(q: QueueState, ops: seq<QueueOp>)
    decreases ops
  {
    ops != [] ==>
      && !(ops[0].Continuous? && q.items == [Item([], true)])
      && NeverContinuousWhenDrained(Step(q, ops[0]), ops[1..])
  }

  lemma Regroup(given: Block, laterGiven: Block, held: Block, between: Block, first: Block, taken: Block, laterTaken: Block)
    requires given + between == first + taken
    requires laterGiven + held == between + laterTaken
    ensures (given + laterGiven) + held == first + (taken + laterTaken)
  {
    assert (given + laterGiven) + held == given + (laterGiven + held);
    assert given + (between + laterTaken) == (given + between) + laterTaken;
    assert (first + taken) + laterTaken == first + (taken + laterTaken);
  }

  /** Over every run: the shape is kept, and the bytes given out followed by the bytes held are
      the bytes held at first followed by the bytes accepted, in order. */
  lemma {:induction false} RunConservesBytes(q: QueueState, ops: seq<QueueOp>)
    requires Shaped(q) && NeverContinuousWhenDrained(q, ops)
    ensures Shaped(Run(q, ops))
    ensures AllGiven(q, ops) + Data(Run(q, ops)) == Data(q) + AllTaken(q, ops)
    decreases ops
  {
    if ops != [] {
      var q' := Step(q, ops[0]);
      StepKeepsShape(q, ops[0]);
      StepMovesBytes(q, ops[0]);
      RunConservesBytes(q', ops[1..]);
      Regroup(Given(q, ops[0]), AllGiven(q', ops[1..]), Data(Run(q', ops[1..])), Data(q'),
              Data(q), Taken(q, ops[0]), AllTaken(q', ops[1..]));
    }
  }

  /** Results of n successive takes. */
  function Nexts(q: QueueState, n: nat): (r: seq<Item>)
    ensures |r| == n
    decreases n
  {
    if n == 0 then [] else [Front(q)] + Nexts(AfterNext(q), n - 1)
  }

  lemma {:induction false} CompleteQueueDrains(q: QueueState, n: nat)
    requires Shaped(q) && Complete(q)
    ensures forall i :: 0 <= i < n ==>
              Nexts(q, n)[i] == if i < |q.items| - 1 then Item(q.items[i].block, false) else Item([], true)
    decreases n
  {
    if n > 0 {
      var rest := AfterNext(q);
      assert rest.items[|rest.items| - 1] == q.items[|q.items| - 1];
      CompleteQueueDrains(rest, n - 1);
      assert q.items[0] == Item(q.items[0].block, q.items[0].done);
    }
  }

  /** Closing twice is closing once; a closed queue then gives every chunk once, in order, and
      after that "done" for ever. */
  lemma ClosedQueueDrains(q: QueueState, n: nat)
    requires Shaped(q)
    ensures AfterClose(AfterClose(q)) == AfterClose(q)
    ensures forall i :: 0 <= i < n ==>
              Nexts(AfterClose(q), n)[i] ==
              if i < |Chunked(q)| then Item(Chunked(q)[i], false) else Item([], true)
  {
    CompleteQueueDrains(AfterClose(q), n);
    assert Chunked(AfterClose(q)) == Chunked(q);
  }

  // ---------- lines ----------

  /** An open queue whose chunks are the lines of the bytes it holds. */
  ghost predicate HoldsLines(q: QueueState) {
    && (forall i :: 0 <= i < |q.items| ==> !q.items[i].done)
    && IsLining(Blocks(q.items))
  }

  lemma LastOfOpenQueue(q: QueueState)
    requires forall i :: 0 <= i < |q.items| ==> !q.items[i].done
    ensures LastChunk(q.items) == |q.items| - 1
  {
  }

  lemma ExtendLine(q: QueueState, head: Block)
    requires HoldsLines(q) && EndsMidLine(q)
    requires forall i :: 0 <= i < |head| - 1 ==> head[i] != NEWLINE
    ensures var q' := Extend(q, LastChunk(q.items), head);
            HoldsLines(q') && (EndsLine(head) ==> !EndsMidLine(q'))
  {
    LastOfOpenQueue(q);
    var q' := Extend(q, |q.items| - 1, head);
    LastOfOpenQueue(q');
    LiningGrows(Blocks(q.items), head);
    assert Blocks(q'.items) == Blocks(q.items)[|q.items| - 1 := Blocks(q.items)[|q.items| - 1] + head];
  }

  lemma LiningGrows(lines: seq<Block>, head: Block)
    requires lines != [] && IsLining(lines) && !EndsLine(lines[|lines| - 1])
    requires forall i :: 0 <= i < |head| - 1 ==> head[i] != NEWLINE
    ensures IsLining(lines[|lines| - 1 := lines[|lines| - 1] + head])
  {
    LongerLine(lines[|lines| - 1], head);
  }

  lemma LongerLine(line: Block, head: Block)
    requires IsLine(line) && !EndsLine(line)
    requires forall i :: 0 <= i < |head| - 1 ==> head[i] != NEWLINE
    ensures IsLine(line + head)
    ensures EndsLine(head) ==> EndsLine(line + head)
  {
    assert forall i :: 0 <= i < |line| ==> (line + head)[i] == line[i];
  }

  lemma AddLines(q: QueueState, lines: seq<Block>)
    requires HoldsLines(q) && IsLining(lines) && (EndsMidLine(q) ==> lines == [])
    ensures HoldsLines(AddAll(q, lines))
  {
    LastOfOpenQueue(q);
    var q' := AddAll(q, lines);
    forall i | 0 <= i < |q'.items|
      ensures !q'.items[i].done && IsLine(q'.items[i].block)
      ensures i < |q'.items| - 1 ==> EndsLine(q'.items[i].block)
    {
      if i < |q.items| {
        assert q'.items[i] == q.items[i] && IsLine(Blocks(q.items)[i]);
        if i < |q.items| - 1 {
          assert EndsLine(Blocks(q.items)[i]);
        }
      } else {
        assert q'.items[i].block == lines[i - |q.items|];
      }
    }
  }

  lemma LineEndsOrIsAll(data: Block)
    ensures var n := LineLength(data); EndsLine(data[..n]) || SplitLines(data[n..]) == []
  {
  }

  lemma PutLineKeepsLines(q: QueueState, data: Block)
    requires HoldsLines(q)
    ensures HoldsLines(AfterPutLine(q, data)) && AfterPutLine(q, data).continuous == q.continuous
  {
    hide SplitLines;
    hide Flatten;
    if EndsMidLine(q) {
      var n := LineLength(data);
      ExtendLine(q, data[..n]);
      LineEndsOrIsAll(data);
      SplitLinesIsALining(data[n..]);
      AddLines(Extend(q, LastChunk(q.items), data[..n]), SplitLines(data[n..]));
    } else {
      SplitLinesIsALining(data);
      AddLines(q, SplitLines(data));
    }
  }

  /** Putting bytes keeps the chunks the lines of all bytes held, however these were cut. */
  lemma PutLineIsCanonical(q: QueueState, data: Block)
    requires HoldsLines(q)
    ensures var q' := AfterPutLine(q, data);
            HoldsLines(q') && q'.continuous == q.continuous
            && Data(q') == Data(q) + data && Blocks(q'.items) == SplitLines(Data(q) + data)
  {
    PutLineKeepsLines(q, data);
    PutLineAdds(q, data);
    LiningIsUnique(Blocks(AfterPutLine(q, data).items));
  }

  /** Putting a and then b is putting them together. */
  lemma PutLineComposes(q: QueueState, a: Block, b: Block)
    requires HoldsLines(q)
    ensures AfterPutLine(AfterPutLine(q, a), b) == AfterPutLine(q, a + b)
  {
    PutLineIsCanonical(q, a);
    PutLineIsCanonical(AfterPutLine(q, a), b);
    PutLineIsCanonical(q, a + b);
    BytesDetermineLines(AfterPutLine(AfterPutLine(q, a), b), AfterPutLine(q, a + b), Data(q), a, b);
  }

  lemma BytesDetermineLines(q1: QueueState, q2: QueueState, d: Block, a: Block, b: Block)
    requires HoldsLines(q1) && HoldsLines(q2) && q1.continuous == q2.continuous
    requires Data(q1) == d + a + b && Data(q2) == d + (a + b)
    ensures q1 == q2
  {
    assert d + a + b == d + (a + b);
    LiningIsUnique(Blocks(q1.items));
    LiningIsUnique(Blocks(q2.items));
    assert forall i :: 0 <= i < |q1.items| ==> q1.items[i] == Item(Blocks(q1.items)[i], false);
    assert forall i :: 0 <= i < |q2.items| ==> q2.items[i] == Item(Blocks(q2.items)[i], false);
    assert q1.items == q2.items;
  }
}

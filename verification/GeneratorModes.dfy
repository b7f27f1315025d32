/** Buffering mode cuts the written bytes into chunks of one size; continuous mode collects them. */
module GeneratorModes {
  import opened Bytes
  import opened Queues
  import opened AsyncIterators
  import opened Generators
  import opened GeneratorRuns
  import I = AsyncIterators
  import Q = Queues

  // ---------- buffering mode ----------

  /** The bytes-carrying chunks of an open queue; an empty write into an empty queue leaves a
      placeholder, which the next write fills. */
  function Held(q: QueueState): seq<Block> {
    if q.items == [Item([], false)] then [] else Blocks(q.items)
  }

  ghost predicate AllOfSize(blocks: seq<Block>, c: nat) {
    forall i :: 0 <= i < |blocks| ==> |blocks[i]| == c
  }

  ghost predicate OpenQueue(q: QueueState) {
    forall i :: 0 <= i < |q.items| ==> !q.items[i].done
  }

  /** Delivered chunks, then held chunks, are the chunking of all bytes accepted, and only full
      chunks are delivered, one per read. */
  ghost predicate Rechunking(g: GenState, c: nat) {
    && Sound(g) && g.buffering && g.chunkSize == c > 0
    && !Stopped(g.it) && OpenQueue(QueueOf(g))
    && IsChunking(c, Delivered(g.it.log) + Held(QueueOf(g)))
    && Flatten(Delivered(g.it.log) + Held(QueueOf(g))) == Flatten(g.accepted)
    && AllOfSize(Delivered(g.it.log), c)
    && |Delivered(g.it.log)| == |g.it.log|
  }

  /** And while a read waits no full chunk does. */
  ghost predicate Rechunked(g: GenState, c: nat) {
    && Rechunking(g, c)
    && (g.it.pending != [] ==> forall i :: 0 <= i < |QueueOf(g).items| ==> |QueueOf(g).items[i].block| < c)
  }

  // Facts about chunkings alone.

  lemma JoinChunkings(c: nat, full: seq<Block>, rest: seq<Block>)
    requires c > 0 && AllOfSize(full, c) && IsChunking(c, rest)
    ensures IsChunking(c, full + rest)
  {
  }

  /** The chunks held once `blk` is added: the last one and the new bytes are cut afresh. */
  function Recut(held: seq<Block>, blk: Block, c: nat): seq<Block>
    requires c > 0
  {
    if held == [] then Chunks(c, blk)
    else held[..|held| - 1] + Chunks(c, held[|held| - 1] + blk)
  }

  lemma RecutKeepsChunking(full: seq<Block>, held: seq<Block>, blk: Block, c: nat)
    requires c > 0 && AllOfSize(full, c) && IsChunking(c, full + held)
    ensures IsChunking(c, full + Recut(held, blk, c))
    ensures Flatten(full + Recut(held, blk, c)) == Flatten(full + held) + blk
  {
    if held == [] {
      assert full + held == full;
      ChunksAreAChunking(c, blk);
      JoinChunkings(c, full, Chunks(c, blk));
      FlattenAppend(full, Chunks(c, blk));
    } else {
      var last := held[|held| - 1];
      RecutLast(full + held, full + held[..|held| - 1], last, blk, c);
      assert full + Recut(held, blk, c) == full + held[..|held| - 1] + Chunks(c, last + blk);
    }
  }

  lemma RecutLast(all: seq<Block>, front: seq<Block>, last: Block, blk: Block, c: nat)
    requires c > 0 && IsChunking(c, all) && all == front + [last]
    ensures IsChunking(c, front + Chunks(c, last + blk))
    ensures Flatten(front + Chunks(c, last + blk)) == Flatten(all) + blk
  {
    hide Flatten;
    hide Chunks;
    assert forall i :: 0 <= i < |front| ==> front[i] == all[i];
    ChunksAreAChunking(c, last + blk);
    JoinChunkings(c, front, Chunks(c, last + blk));
    FlattenAppend(front, Chunks(c, last + blk));
    FlattenSnoc(front, last);
    Associate(Flatten(front), last, blk);
  }

  /** A short chunk is the only one held. */
  lemma ShortIsLast(full: seq<Block>, held: seq<Block>, c: nat)
    requires c > 0 && IsChunking(c, full + held) && held != [] && |held[0]| < c
    ensures |held| == 1
  {
    assert (full + held)[|full|] == held[0];
  }

  /** The number of full chunks delivered is as large as the reads and the bytes allow. */
  lemma CountDelivered(full: seq<Block>, held: seq<Block>, c: nat)
    requires c > 0 && AllOfSize(full, c) && IsChunking(c, full + held)
    ensures |full| <= |Flatten(full + held)| / c
    ensures (held == [] || |held[0]| < c) ==> |full| == |Flatten(full + held)| / c
  {
    FullBlocksAreCounted(c, full + held);
    if held == [] {
      assert full + held == full;
    } else {
      assert (full + held)[|full + held| - 1] == held[|held| - 1];
      if |held[0]| < c {
        ShortIsLast(full, held, c);
      }
    }
  }

  // The queue.

  lemma ResliceCuts(q: QueueState, front: seq<Item>, whole: Block, c: nat)
    requires c > 0 && OpenQueue(q) && q.items == front + [Item(whole, false)]
    ensures Resliced(q, |front|, c).items == front + ItemsOf(if whole == [] then [[]] else Chunks(c, whole))
  {
    if |whole| > c {
      assert q.items[|front| := Item(whole[..c], false)] == front + [Item(whole[..c], false)];
      FirstItem(front, whole[..c], Chunks(c, whole[c..]));
    } else {
      assert ItemsOf([whole]) == [Item(whole, false)];
    }
  }

  lemma FirstItem(front: seq<Item>, first: Block, rest: seq<Block>)
    ensures front + [Item(first, false)] + ItemsOf(rest) == front + ItemsOf([first] + rest)
  {
    assert ItemsOf([first] + rest) == [Item(first, false)] + ItemsOf(rest);
  }

  lemma HeldAre(q: QueueState, front: seq<Item>, chunks: seq<Block>)
    requires q.items == front + ItemsOf(chunks)
    requires forall i :: 0 <= i < |chunks| ==> chunks[i] != []
    requires chunks == [] ==> front == []
    ensures Held(q) == Blocks(front) + chunks
  {
    assert Blocks(front + ItemsOf(chunks)) == Blocks(front) + chunks;
    if chunks != [] {
      assert q.items[|q.items| - 1] == Item(chunks[|chunks| - 1], false);
    }
  }

  lemma ChunksNotEmpty(c: nat, s: Block)
    requires c > 0
    ensures forall i :: 0 <= i < |Chunks(c, s)| ==> Chunks(c, s)[i] != []
    ensures s != [] ==> Chunks(c, s) != []
  {
    ChunksAreAChunking(c, s);
  }

  /** Filling the last chunk, or a first one. */
  lemma FillLast(q: QueueState, front: seq<Item>, whole: Block, c: nat)
    requires c > 0 && OpenQueue(q) && q.items == front + [Item(whole, false)]
    requires whole == [] ==> front == []
    ensures OpenQueue(Resliced(q, |front|, c))
    ensures Held(Resliced(q, |front|, c)) == Blocks(front) + Chunks(c, whole)
  {
    ResliceCuts(q, front, whole, c);
    ChunksNotEmpty(c, whole);
    var q' := Resliced(q, |front|, c);
    forall i | 0 <= i < |q'.items|
      ensures !q'.items[i].done
    {
      if i < |front| {
        assert q'.items[i] == q.items[i];
      }
    }
    if whole == [] {
      assert q'.items == [Item([], false)];
    } else {
      HeldAre(q', front, Chunks(c, whole));
    }
  }

  lemma PutRecuts(q: QueueState, blk: Block, c: nat)
    requires c > 0 && OpenQueue(q) && IsChunking(c, Held(q))
    ensures OpenQueue(BufferedPut(q, blk, c)) && Held(BufferedPut(q, blk, c)) == Recut(Held(q), blk, c)
  {
    var n := |q.items|;
    LastOfOpenQueue(q);
    if n == 0 {
      FillLast(QueueState([] + [Item(blk, false)], false), [], blk, c);
    } else {
      var front, last := q.items[..n - 1], q.items[n - 1].block;
      var filled := QueueState(q.items[n - 1 := Item(last + blk, false)], false);
      assert q.items[n - 1 := Item(last + blk, false)] == front + [Item(last + blk, false)];
      if Held(q) == [] {
        assert last + blk == blk;
      } else {
        assert Held(q)[n - 1] == last && Held(q)[..n - 1] == Blocks(front);
      }
      FillLast(filled, front, last + blk, c);
    }
  }

  // The steps.

  lemma HandFull(g: GenState, c: nat)
    requires Rechunking(g, c) && g.it.pending != [] && QueueOf(g).items != []
    requires |Front(QueueOf(g)).block| >= c
    ensures Rechunking(Handed(g), c) && Handed(g).accepted == g.accepted
  {
    hide Delivered;
    hide Flatten;
    var q := QueueOf(g);
    var front, full, held := q.items[0].block, Delivered(g.it.log), Held(q);
    EmplaceDelivers(g.it, Data(front), false);
    HandedIsSound(g);
    assert held == Blocks(q.items);
    FrontIsFull(full, held, c);
    HeldNext(q);
    assert Delivered(Handed(g).it.log) == full + [front] && Held(QueueOf(Handed(g))) == held[1..];
    MoveFront(full, held);
  }

  lemma MoveFront(full: seq<Block>, held: seq<Block>)
    requires held != []
    ensures full + held == full + [held[0]] + held[1..]
  {
  }

  lemma HeldNext(q: QueueState)
    requires OpenQueue(q) && q.items != [] && forall i :: 0 <= i < |q.items| ==> q.items[i].block != []
    ensures Held(Q.AfterNext(q)) == Blocks(q.items)[1..]
  {
    assert Blocks(q.items[1..]) == Blocks(q.items)[1..];
    assert q.items[1..] != [] ==> q.items[1..][0] == q.items[1];
  }

  lemma FrontIsFull(full: seq<Block>, held: seq<Block>, c: nat)
    requires c > 0 && IsChunking(c, full + held) && held != [] && |held[0]| >= c
    ensures |held[0]| == c && (forall i :: 0 <= i < |held| ==> held[i] != [])
  {
    assert forall i :: 0 <= i < |held| ==> held[i] == (full + held)[|full| + i];
  }

  lemma NoFullChunkLeft(g: GenState, c: nat)
    requires Rechunking(g, c)
    requires g.it.pending == [] || QueueOf(g).items == [] || |Front(QueueOf(g)).block| < c
    ensures Rechunked(g, c)
  {
    var q := QueueOf(g);
    if q.items != [] && q.items != [Item([], false)] && |q.items[0].block| < c {
      assert Held(q)[0] == q.items[0].block;
      ShortIsLast(Delivered(g.it.log), Held(q), c);
    }
  }

  lemma {:induction false} DrainRechunks(g: GenState, c: nat)
    requires Rechunking(g, c)
    ensures Rechunked(OnDrain(g), c)
    ensures OnDrain(g).accepted == g.accepted && OnDrain(g).it.created == g.it.created
    decreases |g.it.pending|
  {
    if g.it.pending != [] && QueueOf(g).items != [] && |Front(QueueOf(g)).block| >= c {
      HandFull(g, c);
      DrainRechunks(Handed(g), c);
    } else {
      NoFullChunkLeft(g, c);
    }
  }

  /** Until the generator closes, `next` and `write` hand over chunks alike. */
  lemma {:induction false} UpdateIsDrain(g: GenState, c: nat)
    requires Rechunking(g, c)
    ensures OnUpdate(g) == OnDrain(g)
    decreases |g.it.pending|
  {
    if Updatable(g) {
      HandFull(g, c);
      UpdateIsDrain(Handed(g), c);
    }
  }

  lemma EnqueueRechunks(g: GenState, blk: Block, c: nat)
    requires Rechunking(g, c)
    ensures Rechunking(OnEnqueue(g, blk), c)
    ensures OnEnqueue(g, blk).accepted == g.accepted + [blk] && OnEnqueue(g, blk).it == g.it
  {
    var q, full := QueueOf(g), Delivered(g.it.log);
    EnqueueIsSound(g, blk);
    HeldIsChunking(full, Held(q), c);
    PutRecuts(q, blk, c);
    RecutKeepsChunking(full, Held(q), blk, c);
    FlattenSnoc(g.accepted, blk);
  }

  lemma HeldIsChunking(full: seq<Block>, held: seq<Block>, c: nat)
    requires IsChunking(c, full + held)
    ensures IsChunking(c, held)
  {
    assert forall i :: 0 <= i < |held| ==> held[i] == (full + held)[|full| + i];
  }

  lemma NextRechunks(g: GenState, argument: Value, c: nat)
    requires Rechunked(g, c)
    ensures var g' := OnNext(g, argument);
            Rechunked(g', c) && g'.accepted == g.accepted && g'.it.created == g.it.created + 1
  {
    var g1 := Asked(g, argument);
    AskedIsSound(g, argument);
    NextIsAskThenUpdate(g, argument);
    assert Rechunking(g1, c);
    UpdateIsDrain(g1, c);
    DrainRechunks(g1, c);
  }

  /** Writers write; they yield or enqueue past the chunking only while no read waits. */
  predicate BufferingOp(g: GenState, op: GenOp) {
    match op
    case Next(_) => true
    case Write(_) => true
    case Yield(_) => g.it.pending == []
    case Enqueue(_) => g.it.pending == []
    case _ => false
  }

  predicate BufferingRun(g: GenState, ops: seq<GenOp>)
    decreases ops
  {
    ops != [] ==> BufferingOp(g, ops[0]) && BufferingRun(GenStep(g, ops[0]), ops[1..])
  }

  lemma WriteRechunks(g: GenState, blk: Block, c: nat)
    requires Rechunked(g, c)
    ensures var g' := OnWrite(g, blk);
            Rechunked(g', c) && g'.accepted == g.accepted + [blk] && g'.it.created == g.it.created
  {
    EnqueueRechunks(g, blk, c);
    DrainRechunks(OnEnqueue(g, blk), c);
  }

  lemma BufferingStep(g: GenState, op: GenOp, c: nat)
    requires Rechunked(g, c) && BufferingOp(g, op)
    ensures var g' := GenStep(g, op);
            && Rechunked(g', c) && g'.accepted == g.accepted + WrittenBy(op)
            && g'.it.created == g.it.created + if op.Next? then 1 else 0
  {
    match op
    case Next(a) => NextRechunks(g, a, c);
    case Write(b) => WriteRechunks(g, b, c);
    case Yield(b) => EnqueueRechunks(g, b, c);
    case Enqueue(b) => EnqueueRechunks(g, b, c);
  }

  lemma {:induction false} BufferingRunRechunks(g: GenState, ops: seq<GenOp>, c: nat)
    requires Rechunked(g, c) && BufferingRun(g, ops)
    ensures var g' := GenRun(g, ops);
            && Rechunked(g', c) && g'.accepted == g.accepted + Written(ops)
            && g'.it.created == g.it.created + NextCalls(ops)
    decreases ops
  {
    if ops != [] {
      BufferingStep(g, ops[0], c);
      BufferingRunRechunks(GenStep(g, ops[0]), ops[1..], c);
      Associate(g.accepted, WrittenBy(ops[0]), Written(ops[1..]));
    }
  }

  function Min(a: nat, b: nat): nat {
    if a < b then a else b
  }

  /** How many chunks have been delivered after so many calls of `next`: as many as the bytes fill. */
  function Deliverable(asked: nat, total: Block, c: nat): nat
    requires c > 0
  {
    Min(asked, |total| / c)
  }

  /** What `Rechunked` says in terms of the reads asked for and the bytes written alone. */
  lemma RechunkedState(g: GenState, c: nat)
    requires c > 0
    requires Rechunked(g, c)
    ensures Delivered(g.it.log) + Held(QueueOf(g)) == Chunks(c, Flatten(g.accepted))
    ensures |Delivered(g.it.log)| == Deliverable(g.it.created, Flatten(g.accepted), c)
  {
    hide Delivered;
    hide Flatten;
    hide Chunks;
    var full, held := Delivered(g.it.log), Held(QueueOf(g));
    ChunkingIsUnique(c, full + held);
    CountDelivered(full, held, c);
    if g.it.pending != [] && held != [] {
      assert held[0] == QueueOf(g).items[0].block;
    }
  }

  /** Buffering mode does not depend on framing: for every chunk size c, every way to cut the
      input into writes and every interleaving with `next`, the chunks delivered and then those
      held are the c-byte chunking of all bytes written, and after n calls of `next` exactly
      min(n, bytes / c) chunks, all full, have been delivered. */
  lemma BufferingIsFramingIndependent(executor: bool, size: nat, c: nat, ops: seq<GenOp>)
    requires 0 < c == size % 0x1_0000_0000
    requires BufferingRun(OnBuffering(New(executor), size), ops)
    ensures var g := GenRun(OnBuffering(New(executor), size), ops); var total := Flatten(Written(ops));
            && Delivered(g.it.log) + Held(QueueOf(g)) == Chunks(c, total)
            && |Delivered(g.it.log)| == Deliverable(NextCalls(ops), total, c)
            && AllOfSize(Delivered(g.it.log), c)
            && Rechunked(g, c)
  {
    hide Flatten;
    hide Chunks;
    hide Delivered;
    var g := OnBuffering(New(executor), size);
    BufferingStarts(executor, size, c);
    BufferingRunRechunks(g, ops, c);
    assert [] + Written(ops) == Written(ops);
    RechunkedState(GenRun(g, ops), c);
  }

  lemma BufferingStarts(executor: bool, size: nat, c: nat)
    requires 0 < c == size % 0x1_0000_0000
    ensures Rechunked(OnBuffering(New(executor), size), c)
  {
  }

  /** A stop in buffering mode loses the tail: bytes that do not fill a chunk, and full chunks
      nobody had asked for yet, are never delivered, whatever is done afterwards. */
  lemma StopLosesBufferedTail(
      executor: bool, size: nat, c: nat, ops: seq<GenOp>, last: Value, later: seq<GenOp>)
    requires 0 < c == size % 0x1_0000_0000
    requires BufferingRun(OnBuffering(New(executor), size), ops)
    requires AllAllowed(OnStop(GenRun(OnBuffering(New(executor), size), ops), last), later)
    ensures var g := GenRun(OnStop(GenRun(OnBuffering(New(executor), size), ops), last), later);
            var total := Flatten(Written(ops));
            && Delivered(g.it.log) <= Chunks(c, total)
            && |Delivered(g.it.log)| == Deliverable(NextCalls(ops), total, c)
  {
    BufferingIsFramingIndependent(executor, size, c, ops);
    StopFreezesChunks(GenRun(OnBuffering(New(executor), size), ops), c, last, later);
  }

  lemma StopFreezesChunks(g: GenState, c: nat, last: Value, later: seq<GenOp>)
    requires Rechunked(g, c) && AllAllowed(OnStop(g, last), later)
    ensures Delivered(GenRun(OnStop(g, last), later).it.log) == Delivered(g.it.log)
  {
    StopFreezesDelivery(g, last, later);
  }

  // ---------- continuous mode ----------

  predicate CollectingOp(op: GenOp) {
    op.Write? || op.Yield? || op.Enqueue? || op.SetContinuous?
  }

  /** The callback a stop calls: the last one given. */
  function LastCallback(callback: Option<nat>, ops: seq<GenOp>): Option<nat>
    decreases ops
  {
    if ops == [] then callback
    else LastCallback(if ops[0].SetContinuous? && ops[0].callback.Some? then ops[0].callback else callback, ops[1..])
  }

  /** One open chunk collects all bytes written. */
  ghost predicate Collecting(g: GenState) {
    && g.it == FRESH && !g.buffering && g.calls == []
    && g.q == Some(QueueState([Item(Flatten(g.accepted), false)], true))
  }

  lemma CollectingStep(g: GenState, op: GenOp)
    requires Collecting(g) && CollectingOp(op)
    ensures var g' := GenStep(g, op);
            && Collecting(g') && g'.accepted == g.accepted + WrittenBy(op)
            && g'.callback == LastCallback(g.callback, [op])
  {
    match op
    case Write(b) => CollectingEnqueue(g, b);
    case Yield(b) => CollectingEnqueue(g, b);
    case Enqueue(b) => CollectingEnqueue(g, b);
    case SetContinuous(cb) =>
  }

  lemma CollectingEnqueue(g: GenState, b: Block)
    requires Collecting(g)
    ensures Collecting(OnEnqueue(g, b)) && OnEnqueue(g, b).accepted == g.accepted + [b]
  {
    var bytes := Flatten(g.accepted);
    FlattenSnoc(g.accepted, b);
    assert [Item(bytes, false)][0 := Item(bytes + b, false)] == [Item(bytes + b, false)];
  }

  lemma CollectingStarts(executor: bool, callback: Option<nat>)
    ensures var g := OnContinuous(New(executor), callback);
            Collecting(g) && g.accepted == [] && g.callback == callback
  {
    assert [] + [Item([], false)] == [Item([], false)];
  }

  lemma {:induction false} CollectingRun(g: GenState, ops: seq<GenOp>)
    requires Collecting(g) && forall i :: 0 <= i < |ops| ==> CollectingOp(ops[i])
    ensures var g' := GenRun(g, ops);
            && Collecting(g') && g'.accepted == g.accepted + Written(ops)
            && g'.callback == LastCallback(g.callback, ops)
    decreases ops
  {
    if ops != [] {
      CollectingStep(g, ops[0]);
      CollectingRun(GenStep(g, ops[0]), ops[1..]);
      Associate(g.accepted, WrittenBy(ops[0]), Written(ops[1..]));
    }
  }

  function CallsOf(callback: Option<nat>, argument: Value): seq<Call> {
    if callback.Some? then [Call(callback.value, argument)] else []
  }

  lemma StopHandsOver(g: GenState, last: Value)
    requires Collecting(g)
    ensures OnStop(g, last).calls == CallsOf(g.callback, ValueOf(Flatten(g.accepted)))
    ensures OnStop(OnStop(g, last), last).calls == OnStop(g, last).calls + CallsOf(g.callback, Undefined)
  {
    hide Flatten;
    var bytes := Flatten(g.accepted);
    var closed := [Item(bytes, false), Item([], true)];
    assert [Item(bytes, false)] + [Item([], true)] == closed;
    assert LastChunk(closed) == 0 by { assert closed[..1] == [Item(bytes, false)]; }
    assert closed[0 := Item([], false)] == [Item([], false), Item([], true)];
    assert LastChunk([Item([], false), Item([], true)]) == 0 by {
      assert [Item([], false), Item([], true)][..1] == [Item([], false)];
    }
  }

  lemma FinishHandsOver(g: GenState)
    requires Collecting(g)
    ensures g.callback.Some? ==> OnFinish(g).calls == CallsOf(g.callback, ValueOf(Flatten(g.accepted)))
    ensures g.callback.None? ==> OnFinish(g).calls == []
    ensures g.callback.Some? ==> OnFinish(OnFinish(g)).calls == OnFinish(g).calls + CallsOf(g.callback, Undefined)
  {
    hide Flatten;
    var g1 := g.(it := g.it.(closing := true));
    assert OnUpdate(g1) == g1;
  }

  /** Continuous mode collects everything: turned on before the first write and with no reader,
      the first stop, and likewise a finish, hands the callback exactly the concatenation of all
      writes, whether the callback was given before, between or after them. The callback is not
      forgotten: a second stop or finish calls it again, now with nothing. */
  lemma ContinuousCollectsAll(executor: bool, first: Option<nat>, ops: seq<GenOp>, last: Value)
    requires forall i :: 0 <= i < |ops| ==> CollectingOp(ops[i])
    ensures var g := GenRun(OnContinuous(New(executor), first), ops);
            var callback := LastCallback(first, ops);
            var calls := CallsOf(callback, ValueOf(Flatten(Written(ops))));
            && OnStop(g, last).calls == calls
            && OnFinish(g).calls == calls
            && OnStop(OnStop(g, last), last).calls == calls + CallsOf(callback, Undefined)
            && (callback.Some? ==> OnFinish(OnFinish(g)).calls == calls + CallsOf(callback, Undefined))
  {
    hide Flatten;
    CollectingStarts(executor, first);
    CollectingRun(OnContinuous(New(executor), first), ops);
    assert [] + Written(ops) == Written(ops);
    var g := GenRun(OnContinuous(New(executor), first), ops);
    StopHandsOver(g, last);
    FinishHandsOver(g);
  }
}

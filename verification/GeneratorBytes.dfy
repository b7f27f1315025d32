/** What the generator does with bytes in every mode and every mixture of modes: none is lost or doubled, the
    sizes reported, who is called back with what, and what ends it. */
module GeneratorBytes {
  import opened Bytes
  import opened Queues
  import opened AsyncIterators
  import opened Generators
  import opened GeneratorRuns
  import opened GeneratorModes
  import I = AsyncIterators
  import Q = Queues

  // ---------- conservation ----------

  /** The bytes callbacks were called with. */
  function Called(calls: seq<Call>): nat {
    if calls == [] then 0 else Called(calls[..|calls| - 1]) + |Payload(calls[|calls| - 1].argument)|
  }

  lemma CalledSnoc(calls: seq<Call>, c: Call)
    ensures Called(calls + [c]) == Called(calls) + |Payload(c.argument)|
  {
    assert (calls + [c])[..|calls|] == calls;
  }

  /** All bytes there are: delivered to readers, still queued, or handed to callbacks. */
  function Total(g: GenState): nat {
    |Flatten(Delivered(g.it.log))| + |Q.Data(QueueOf(g))| + Called(g.calls)
  }

  /** The bytes an operation brings in: what is accepted from a writer, and what a read hands to the callback. */
  function Brought(g: GenState, op: GenOp): nat {
    match op
    case Next(a) => if CallsBack(g) then |Payload(a)| else 0
    case Write(b) => if HandsOver(g) then |b| else |Flatten(Accepts(g, b))|
    case Yield(b) => if g.it.pending != [] then |b| else |Flatten(Accepts(g, b))|
    case Enqueue(b) => |Flatten(Accepts(g, b))|
    case _ => 0
  }

  /** The first read without an executor calls the callback. */
  predicate CallsBack(g: GenState) {
    !g.executor && !g.started && g.callback.Some?
  }

  /** Does the operation queue a block? */
  predicate PutsAside(g: GenState, op: GenOp) {
    match op
    case Write(_) => !HandsOver(g)
    case Yield(_) => g.it.pending == []
    case Enqueue(_) => true
    case _ => false
  }

  /** The last chunk of a complete queue is larger than the chunk size: buffering was turned on too late. */
  predicate Overgrown(g: GenState) {
    var items := QueueOf(g).items;
    g.buffering && Complete(QueueOf(g)) && LastChunk(items) >= 0 && |items[LastChunk(items)].block| > g.chunkSize
  }

  lemma HandedConserves(g: GenState)
    requires Shaped(QueueOf(g)) && g.it.pending != []
    ensures Total(Handed(g)) == Total(g) && Shaped(QueueOf(Handed(g)))
    ensures Handed(g).calls == g.calls
  {
    hide Flatten;
    hide Delivered;
    var q := QueueOf(g);
    var front := Front(q);
    EmplaceDelivers(g.it, ValueOf(front.block), front.done);
    if front.done {
      assert Delivered(g.it.log) + [] == Delivered(g.it.log);
    } else {
      FlattenSnoc(Delivered(g.it.log), front.block);
    }
    NextGives(q);
    StepKeepsShape(q, QueueOp.Next);
  }

  lemma {:induction false} UpdateConserves(g: GenState)
    requires Shaped(QueueOf(g))
    ensures Total(OnUpdate(g)) == Total(g)
    decreases |g.it.pending|
  {
    if Updatable(g) {
      HandedConserves(g);
      UpdateConserves(Closing(Handed(g), Front(QueueOf(g)).done));
    }
  }

  lemma {:induction false} DrainConserves(g: GenState)
    requires Shaped(QueueOf(g))
    ensures Total(OnDrain(g)) == Total(g)
    decreases |g.it.pending|
  {
    if g.it.pending != [] {
      HandedConserves(g);
      DrainConserves(Handed(g));
    }
  }

  lemma ReslicedBytes(q: QueueState, i: nat, c: nat)
    requires i < |q.items| && c > 0
    ensures |Q.Data(Resliced(q, i, c))| ==
            |Q.Data(q)| - if Complete(q) && |q.items[i].block| > c then |q.items[i].block| - c else 0
  {
    hide Flatten;
    hide Chunks;
    var blk := q.items[i].block;
    if |blk| > c {
      var bs := Blocks(q.items);
      var q' := q.(items := q.items[i := q.items[i].(block := blk[..c])]);
      var front, rest := bs[..i], bs[i + 1..];
      assert bs == front + [blk] + rest;
      assert Blocks(q'.items) == front + [blk[..c]] + rest;
      FlattenMiddle(front, blk, rest);
      FlattenMiddle(front, blk[..c], rest);
      AddAllAddsBytes(q', Chunks(c, blk[c..]));
      ChunksAreAChunking(c, blk[c..]);
    }
  }

  /** Queuing keeps the bytes exactly if no chunk has outgrown the chunk size in a complete queue. */
  lemma EnqueueConserves(g: GenState, blk: Block)
    requires Sound(g)
    ensures |Q.Data(QueueOf(OnEnqueue(g, blk)))| == |Q.Data(QueueOf(g))| + |Flatten(Accepts(g, blk))| <==> !Overgrown(g)
  {
    hide Flatten;
    hide BufferedPut;
    var q := QueueOf(g);
    AcceptedBytes(g, blk);
    if g.buffering {
      BufferedPutBytes(q, blk, g.chunkSize);
    } else {
      StepMovesBytes(q, QueueOp.Write(blk));
      NothingInFront(Q.Data(q));
      NothingInFront(Q.Data(Q.AfterWrite(q, blk)));
    }
  }

  lemma NothingInFront(b: Block)
    ensures [] + b == b
  {
  }

  /** How many bytes of a block are accepted. */
  lemma AcceptedBytes(g: GenState, blk: Block)
    ensures Accepts(g, blk) == [] ==> Flatten(Accepts(g, blk)) == []
    ensures Accepts(g, blk) != [] ==> Flatten(Accepts(g, blk)) == Accepts(g, blk)[0]
    ensures |Accepts(g, blk)| <= 1
  {
    if Accepts(g, blk) != [] {
      FlattenOne(Accepts(g, blk)[0]);
    }
  }

  lemma BufferedPutBytes(q: QueueState, blk: Block, c: nat)
    requires Shaped(q) && c > 0
    ensures var i := LastChunk(q.items); var size := if i >= 0 then |q.items[i].block| else 0;
            |Q.Data(BufferedPut(q, blk, c))| == |Q.Data(q)|
              + (if !Complete(q) then |blk| else if i < 0 then 0 else if size + |blk| <= c then |blk| else c - size)
  {
    hide Flatten;
    hide Resliced;
    var open := q.(continuous := true);
    StepMovesBytes(open, QueueOp.Write(blk));
    var q', i := Q.AfterWrite(open, blk).(continuous := false), TookWrite(open);
    NothingInFront(Q.Data(q));
    NothingInFront(Q.Data(q'));
    if i >= 0 {
      ReslicedBytes(q', i, c);
    }
  }

  /** A stop in continuous mode takes the last chunk out of the queue; without a callback it is gone. */
  predicate DropsChunk(g: GenState) {
    var items := QueueOf(g).items;
    && !g.it.closed && QueueOf(g).continuous && g.callback.None?
    && LastChunk(items) >= 0 && items[LastChunk(items)].block != []
  }

  lemma StopConserves(g: GenState, last: Value)
    requires Sound(g)
    ensures Total(OnStop(g, last)) == Total(g) <==> !DropsChunk(g)
  {
    hide Delivered;
    hide Flatten;
    hide AfterClose;
    hide Collected;
    hide I.AfterStop;
    hide Sound;
    hide LastChunk;
    StopReads(g, last);
    StopDeliversNothing(g.it, last);
    if !g.it.closed && g.q.Some? {
      var q' := AfterClose(g.q.value);
      CloseKeepsBytes(g.q.value);
      CloseKeepsLastChunk(g.q.value);
      CollectConserves(g.(q := Some(q')));
    } else {
      NoChunk();
    }
  }

  lemma NoChunk()
    ensures LastChunk([]) == -1
  {
  }

  lemma CloseKeepsBytes(q: QueueState)
    ensures Q.Data(AfterClose(q)) == Q.Data(q)
  {
    if !Complete(q) {
      NewItem(q, Item([], true));
    }
  }

  lemma CloseKeepsLastChunk(q: QueueState)
    ensures var q' := AfterClose(q);
            LastChunk(q'.items) == LastChunk(q.items) && q.items <= q'.items && q'.continuous == q.continuous
  {
    if !Complete(q) {
      assert (q.items + [Item([], true)])[..|q.items|] == q.items;
    }
  }

  lemma CollectConserves(g: GenState)
    requires g.q.Some?
    ensures var items := QueueOf(g).items; var i := LastChunk(items); var g' := Collected(g);
            |Q.Data(QueueOf(g'))| + Called(g'.calls) ==
            |Q.Data(QueueOf(g))| + Called(g.calls)
            - if QueueOf(g).continuous && g.callback.None? && i >= 0 then |items[i].block| else 0
  {
    var q := g.q.value;
    var i := LastChunk(q.items);
    assert g.calls + [] == g.calls;
    if q.continuous && i >= 0 {
      var block := q.items[i].block;
      TakeOutBytes(q, i);
      if g.callback.Some? {
        CalledSnoc(g.calls, Call(g.callback.value, ValueOf(block)));
      }
    }
  }

  lemma TakeOutBytes(q: QueueState, i: nat)
    requires i < |q.items|
    ensures |Q.Data(q.(items := q.items[i := q.items[i].(block := [])]))| == |Q.Data(q)| - |q.items[i].block|
  {
    hide Flatten;
    var bs := Blocks(q.items);
    var front, block, rest := bs[..i], bs[i], bs[i + 1..];
    assert bs == front + [block] + rest;
    assert Blocks(q.items[i := q.items[i].(block := [])]) == front + [[]] + rest;
    FlattenMiddle(front, block, rest);
    FlattenMiddle(front, [], rest);
  }

  lemma FinishConserves(g: GenState)
    requires Sound(g)
    ensures Total(OnFinish(g)) == Total(g)
  {
    hide Delivered;
    hide Flatten;
    var g1 := g.(it := g.it.(closing := true));
    var q := QueueOf(g);
    if q.continuous && g.callback.Some? {
      NextGives(q);
      CalledSnoc(g.calls, Call(g.callback.value, ValueOf(Front(q).block)));
    } else {
      UpdateConserves(g1);
      CloseConserves(OnUpdate(g1));
    }
  }

  lemma CloseConserves(g: GenState)
    ensures Total(OnCloseQueue(g)) == Total(g)
  {
    hide Delivered;
    if !Complete(QueueOf(g)) {
      NewItem(QueueOf(g), Item([], true));
    }
  }

  lemma SwitchConserves(g: GenState, callback: Option<nat>, size: nat)
    ensures Total(OnContinuous(g, callback)) == Total(g) && Total(OnBuffering(g, size)) == Total(g)
  {
    hide Delivered;
    if LastChunk(QueueOf(g).items) < 0 {
      NewItem(QueueOf(g), Item([], false));
    }
  }

  lemma NextConserves(g: GenState, argument: Value)
    requires Sound(g)
    ensures Total(OnNext(g, argument)) == Total(g) + Brought(g, GenOp.Next(argument))
  {
    hide Delivered;
    AskedIsSound(g, argument);
    NextReadDeliversNothing(g.it);
    NextIsAskThenUpdate(g, argument);
    UpdateConserves(Asked(g, argument));
    if CallsBack(g) {
      CalledSnoc(g.calls, Call(g.callback.value, argument));
    }
  }

  lemma HandOverConserves(g: GenState, b: Block)
    requires Sound(g) && g.it.pending != []
    ensures Total(HandOver(g, b)) == Total(g) + |b|
  {
    hide Delivered;
    EmplaceDelivers(g.it, Data(b), false);
    FlattenSnoc(Delivered(g.it.log), b);
  }

  /** Conservation, in every mode and every mixture of modes: an operation neither loses nor doubles a byte,
      exactly unless it stops a continuous generator that has bytes and no callback, or queues a block when a
      complete queue ends in a chunk larger than the chunk size. */
  lemma StepConserves(g: GenState, op: GenOp)
    requires Sound(g) && HasQueue(g, op)
    ensures Total(GenStep(g, op)) == Total(g) + Brought(g, op)
            <==> !(op.Stop? && DropsChunk(g)) && !(PutsAside(g, op) && Overgrown(g))
  {
    match op
    case Next(a) => NextConserves(g, a);
    case Write(b) => if HandsOver(g) { HandOverConserves(g, b); } else { PutAsideConserves(g, b); }
    case Yield(b) => if g.it.pending != [] { HandOverConserves(g, b); } else { PutAsideConserves(g, b); }
    case Enqueue(b) => PutAsideConserves(g, b);
    case Stop(v) => StopConserves(g, v);
    case CloseQueue => CloseConserves(g);
    case SetContinuous(cb) => SwitchConserves(g, cb, 0);
    case SetBuffering(c) => SwitchConserves(g, None, c);
    case Finish => FinishConserves(g);
  }

  lemma PutAsideConserves(g: GenState, b: Block)
    requires Sound(g)
    ensures Total(OnEnqueue(g, b)) == Total(g) + |Flatten(Accepts(g, b))| <==> !Overgrown(g)
    ensures Total(OnDrain(OnEnqueue(g, b))) == Total(OnEnqueue(g, b))
  {
    EnqueueConserves(g, b);
    EnqueueIsSound(g, b);
    DrainConserves(OnEnqueue(g, b));
  }

  function AllBrought(g: GenState, ops: seq<GenOp>): nat
    decreases ops
  {
    if ops == [] then 0 else Brought(g, ops[0]) + AllBrought(GenStep(g, ops[0]), ops[1..])
  }

  predicate Careful(g: GenState, ops: seq<GenOp>)
    decreases ops
  {
    ops != [] ==>
      && Allowed(g, ops[0]) && !(ops[0].Stop? && DropsChunk(g)) && !(PutsAside(g, ops[0]) && Overgrown(g))
      && Careful(GenStep(g, ops[0]), ops[1..])
  }

  /** So over every run without these: what was brought in was delivered, is queued or went to a callback. */
  lemma {:induction false} RunConserves(g: GenState, ops: seq<GenOp>)
    requires Sound(g) && Careful(g, ops)
    ensures Total(GenRun(g, ops)) == Total(g) + AllBrought(g, ops)
    decreases ops
  {
    if ops != [] {
      StepConserves(g, ops[0]);
      StepIsSound(g, ops[0]);
      RunConserves(GenStep(g, ops[0]), ops[1..]);
    }
  }

  // ---------- the sizes reported ----------

  lemma {:induction false} UpdateTouches(g: GenState)
    ensures OnUpdate(g) == g.(it := OnUpdate(g).it, q := OnUpdate(g).q)
    decreases |g.it.pending|
  {
    if Updatable(g) {
      UpdateTouches(Closing(Handed(g), Front(QueueOf(g)).done));
    }
  }

  lemma {:induction false} DrainTouches(g: GenState)
    ensures OnDrain(g) == g.(it := OnDrain(g).it, q := OnDrain(g).q)
    decreases |g.it.pending|
  {
    if g.it.pending != [] {
      DrainTouches(Handed(g));
    }
  }

  lemma StepKeepsMode(g: GenState, op: GenOp)
    requires !op.SetBuffering?
    ensures GenStep(g, op).buffering == g.buffering
  {
    match op
    case Next(a) => UpdateTouches(Asked(g, a));
    case Write(b) => DrainTouches(OnEnqueue(g, b));
    case Finish => UpdateTouches(g.(it := g.it.(closing := true)));
    case _ =>
  }

  /** The blocks of the operations that report a size. */
  function Reporting(ops: seq<GenOp>): seq<Block> {
    if ops == [] then []
    else (match ops[0] case Write(b) => [b] case Enqueue(b) => [b] case _ => []) + Reporting(ops[1..])
  }

  /** The sum of the sizes that writes and enqueues report. */
  function Reported(g: GenState, ops: seq<GenOp>): nat
    decreases ops
  {
    if ops == [] then 0
    else (match ops[0] case Write(b) => |b| + Merged(g) case Enqueue(b) => |b| + Merged(g) case _ => 0)
         + Reported(GenStep(g, ops[0]), ops[1..])
  }

  /** Without buffering the sizes reported add up to the bytes handed in, whatever became of them. */
  lemma {:induction false} ReportsWhatIsWritten(g: GenState, ops: seq<GenOp>)
    requires !g.buffering && forall i :: 0 <= i < |ops| ==> !ops[i].SetBuffering?
    ensures Reported(g, ops) == |Flatten(Reporting(ops))|
    decreases ops
  {
    if ops != [] {
      StepKeepsMode(g, ops[0]);
      ReportsWhatIsWritten(GenStep(g, ops[0]), ops[1..]);
      var first: seq<Block> := match ops[0] case Write(b) => [b] case Enqueue(b) => [b] case _ => [];
      FlattenAppend(first, Reporting(ops[1..]));
      if first != [] {
        FlattenOne(first[0]);
      }
    }
  }

  /** While buffering, the bytes of the chunk that is not full yet are reported once more with every block. */
  lemma RechunkedReportsOpenChunk(g: GenState, c: nat)
    requires Rechunked(g, c)
    ensures var held := Held(QueueOf(g)); Merged(g) == if held == [] then 0 else |held[|held| - 1]|
  {
    LastOfOpenQueue(QueueOf(g));
  }

  // ---------- the end ----------

  /** A stop closes the queue there is and, unless it is continuous, leaves its chunks and calls nobody. */
  lemma StopEnds(g: GenState, last: Value)
    requires Sound(g) && !g.it.closed
    ensures var g' := OnStop(g, last);
            && (g.q.Some? ==> Complete(QueueOf(g')))
            && (!QueueOf(g).continuous ==> Chunked(QueueOf(g')) == Chunked(QueueOf(g)) && g'.calls == g.calls)
  {
    hide I.AfterStop;
    CloseKeepsLastChunk(QueueOf(g));
    ChunkedAdd(QueueOf(g), []);
  }

  /** Once the iterator is closed, which a stop with a read pending does, further stops change nothing. */
  lemma StopTwice(g: GenState, last: Value, again: Value)
    requires g.it.closed || g.it.pending != []
    ensures OnStop(g, last).it.closed && OnStop(OnStop(g, last), again) == OnStop(g, last)
  {
    hide QueueClosed;
    StopReads(g, last);
  }

  /** A finish without a callback closes the queue, too, and calls nobody. */
  lemma FinishEnds(g: GenState)
    requires Sound(g) && !(QueueOf(g).continuous && g.callback.Some?)
    ensures var g' := OnFinish(g); Complete(QueueOf(g')) && g'.calls == g.calls && g'.it.closing
  {
    UpdateTouches(g.(it := g.it.(closing := true)));
    ClosingUpdateStays(g.(it := g.it.(closing := true)));
  }

  lemma {:induction false} ClosingUpdateStays(g: GenState)
    requires g.it.closing
    ensures OnUpdate(g).it.closing
    decreases |g.it.pending|
  {
    if Updatable(g) {
      ClosingUpdateStays(Closing(Handed(g), Front(QueueOf(g)).done));
    }
  }

  /** A complete queue takes nothing more from a generator that neither buffers nor collects. */
  lemma CompleteAcceptsNothing(g: GenState, b: Block)
    requires Sound(g) && Complete(QueueOf(g)) && !g.buffering && !QueueOf(g).continuous
    ensures OnEnqueue(g, b).accepted == g.accepted && QueueOf(OnEnqueue(g, b)) == QueueOf(g)
  {
  }

  // ---------- modes and callbacks ----------

  /** Turning a mode on moves no byte, settles no read and calls nobody. */
  lemma SwitchMovesNothing(g: GenState, callback: Option<nat>, size: nat)
    ensures var g' := OnContinuous(g, callback);
            && Q.Data(QueueOf(g')) == Q.Data(QueueOf(g)) && QueueOf(g').continuous
            && g'.it == g.it && g'.calls == g.calls && g'.accepted == g.accepted
    ensures var g' := OnBuffering(g, size);
            && QueueOf(g') == QueueOf(g) && g'.buffering && g'.chunkSize == size % 0x1_0000_0000
            && g'.it == g.it && g'.calls == g.calls && g'.accepted == g.accepted
  {
    if LastChunk(QueueOf(g).items) < 0 {
      NewItem(QueueOf(g), Item([], false));
      assert Q.Data(QueueOf(g)) + [] == Q.Data(QueueOf(g));
    }
  }

  /** What reads call back with: the executor takes the first read, if there is one, and the callback the next;
      after that nobody is called. */
  function ReadCalls(g: GenState, arguments: seq<Value>): seq<Call> {
    var k := if g.executor then 1 else 0;
    if !g.started && g.callback.Some? && k < |arguments| then [Call(g.callback.value, arguments[k])] else []
  }

  lemma NextCallsBack(g: GenState, argument: Value)
    requires Sound(g)
    ensures var g' := OnNext(g, argument);
            && g'.calls == g.calls + (if CallsBack(g) then [Call(g.callback.value, argument)] else [])
            && g'.callback == (if CallsBack(g) then None else g.callback)
            && !g'.executor && g'.started == (g.started || !g.executor)
  {
    NextIsAskThenUpdate(g, argument);
    UpdateTouches(Asked(g, argument));
    assert g.calls + [] == g.calls;
  }

  /** However many reads there are, they call the executor once and the callback once, with the argument of the
      first read that finds no executor; the callback is gone then, so that a stop does not call it any more. */
  lemma {:induction false} ReadsCallBackOnce(g: GenState, arguments: seq<Value>)
    requires Sound(g)
    ensures var g' := GenRun(g, GeneratorRuns.Nexts(arguments));
            && Sound(g') && g'.calls == g.calls + ReadCalls(g, arguments)
            && g'.executor == (g.executor && arguments == [])
            && g'.callback == (if ReadCalls(g, arguments) != [] then None else g.callback)
    decreases arguments
  {
    if arguments == [] {
      assert g.calls + [] == g.calls;
    } else {
      var g1 := OnNext(g, arguments[0]);
      FirstNext(g, arguments);
      NextCallsBack(g, arguments[0]);
      NextIsSound(g, arguments[0]);
      ReadsCallBackOnce(g1, arguments[1..]);
      assert g.calls + ([] + ReadCalls(g1, arguments[1..])) == g.calls + ReadCalls(g1, arguments[1..]);
    }
  }

  /** So a new generator that was given a callback calls it at its first read, or at its second if it has an
      executor. */
  lemma NewCallsBackOnce(executor: bool, fn: nat, arguments: seq<Value>)
    ensures var k, g' := if executor then 1 else 0,
                         GenRun(New(executor), [SetContinuous(Some(fn))] + GeneratorRuns.Nexts(arguments));
            && g'.calls == (if k < |arguments| then [Call(fn, arguments[k])] else [])
            && g'.executor == (executor && arguments == [])
  {
    var g, reads' := OnContinuous(New(executor), Some(fn)), GeneratorRuns.Nexts(arguments);
    NewContinuousIs(executor, fn);
    ReadsCallBackOnce(g, arguments);
    hide *;
    RunFirst(New(executor), SetContinuous(Some(fn)), reads');
    NoCallsBefore(g, arguments);
  }

  lemma NewContinuousIs(executor: bool, fn: nat)
    ensures var g := OnContinuous(New(executor), Some(fn));
            Sound(g) && g == GenStep(New(executor), SetContinuous(Some(fn)))
            && g.calls == [] && g.callback == Some(fn) && g.executor == executor && !g.started
  {
    assert Sound(New(executor));
    StepIsSound(New(executor), SetContinuous(Some(fn)));
  }

  lemma RunFirst(g: GenState, op: GenOp, ops: seq<GenOp>)
    ensures GenRun(g, [op] + ops) == GenRun(GenStep(g, op), ops)
  {
    hide GenStep;
    assert ([op] + ops)[1..] == ops;
  }

  lemma NoCallsBefore(g: GenState, arguments: seq<Value>)
    requires g.calls == [] && g.callback.Some? && !g.started
    ensures var k := if g.executor then 1 else 0;
            g.calls + ReadCalls(g, arguments) == if k < |arguments| then [Call(g.callback.value, arguments[k])] else []
  {
  }

  /** A write to a continuous generator whose readers took everything goes to the oldest read; an empty block
      settles it with nothing, where it would be an empty block in plain mode. */
  lemma ContinuousWriteIsRead(g: GenState, b: Block)
    requires Sound(g) && !g.buffering && g.chunkSize == 0
    requires g.q == Some(QueueState([], true)) && g.it.pending != []
    ensures var g' := OnWrite(g, b);
            && g'.it == AfterEmplace(g.it, if b == [] then Undefined else Data(b), false)
            && g'.q == g.q && g'.accepted == g.accepted + [b]
  {
    var g1 := OnEnqueue(g, b);
    assert [] + [Item(b, false)] == [Item(b, false)];
    assert g1.q == Some(QueueState([Item(b, false)], true));
    assert [Item(b, false)][1..] == [];
    assert OnDrain(Handed(g1)) == Handed(g1);
  }

  // ---------- collecting into a queue that is in use ----------

  /** Some chunks, and one that collects all bytes written since. */
  ghost predicate CollectingBehind(g: GenState, front: seq<Item>, bytes: Block) {
    && g.it.pending == [] && !g.buffering && !g.it.closed
    && g.q == Some(QueueState(front + [Item(bytes, false)], true))
  }

  lemma CollectBehind(g: GenState, front: seq<Item>, bytes: Block, op: GenOp)
    requires CollectingBehind(g, front, bytes) && CollectingOp(op)
    ensures var g' := GenStep(g, op);
            && CollectingBehind(g', front, bytes + Flatten(WrittenBy(op))) && g'.calls == g.calls
            && g'.callback == LastCallback(g.callback, [op])
  {
    var items := front + [Item(bytes, false)];
    LastOfAll(front, bytes);
    if !op.SetContinuous? {
      var b := WrittenBy(op)[0];
      FlattenOne(b);
      assert items[|front| := Item(bytes + b, false)] == front + [Item(bytes + b, false)];
      if op.Write? {
        assert OnDrain(OnEnqueue(g, b)) == OnEnqueue(g, b);
      }
    } else {
      assert bytes + [] == bytes;
    }
  }

  lemma LastOfAll(front: seq<Item>, bytes: Block)
    ensures LastChunk(front + [Item(bytes, false)]) == |front|
  {
  }

  lemma {:induction false} CollectAllBehind(g: GenState, front: seq<Item>, bytes: Block, ops: seq<GenOp>)
    requires CollectingBehind(g, front, bytes) && forall i :: 0 <= i < |ops| ==> CollectingOp(ops[i])
    ensures var g' := GenRun(g, ops);
            && CollectingBehind(g', front, bytes + Flatten(Written(ops))) && g'.calls == g.calls
            && g'.callback == LastCallback(g.callback, ops)
    decreases ops
  {
    if ops == [] {
      assert bytes + [] == bytes;
    } else {
      CollectBehind(g, front, bytes, ops[0]);
      CollectAllBehind(GenStep(g, ops[0]), front, bytes + Flatten(WrittenBy(ops[0])), ops[1..]);
      FlattenAppend(WrittenBy(ops[0]), Written(ops[1..]));
      Associate(bytes, Flatten(WrittenBy(ops[0])), Flatten(Written(ops[1..])));
    }
  }

  /** Continuous mode turned on when chunks are queued already: the stop hands the callback the last of these
      with all bytes written since, and leaves the chunks in front of it where they are. */
  lemma ContinuousCollectsBehind(g: GenState, callback: Option<nat>, front: seq<Item>, bytes: Block,
                                 ops: seq<GenOp>, last: Value)
    requires g.it.pending == [] && !g.buffering && !g.it.closed
    requires g.q.Some? && g.q.value.items == front + [Item(bytes, false)]
    requires forall i :: 0 <= i < |front| ==> !front[i].done
    requires forall i :: 0 <= i < |ops| ==> CollectingOp(ops[i])
    ensures var g1 := OnContinuous(g, callback); var g' := OnStop(GenRun(g1, ops), last);
            && g'.calls == g.calls + CallsOf(LastCallback(g1.callback, ops), ValueOf(bytes + Flatten(Written(ops))))
            && QueueOf(g').items == front + [Item([], false), Item([], true)]
  {
    hide Flatten;
    var g1 := OnContinuous(g, callback);
    LastOfAll(front, bytes);
    CollectAllBehind(g1, front, bytes, ops);
    var g2, all := GenRun(g1, ops), bytes + Flatten(Written(ops));
    hide GenRun;
    hide LastCallback;
    StopCollectsLast(g2, front, all, last);
  }

  lemma StopCollectsLast(g: GenState, front: seq<Item>, bytes: Block, last: Value)
    requires CollectingBehind(g, front, bytes) && forall i :: 0 <= i < |front| ==> !front[i].done
    ensures var g' := OnStop(g, last);
            && g'.calls == g.calls + CallsOf(g.callback, ValueOf(bytes))
            && QueueOf(g').items == front + [Item([], false), Item([], true)]
  {
    hide AfterStop;
    hide LastChunk;
    LastOfAll(front, bytes);
    CloseKeepsLastChunk(QueueOf(g));
    var items := front + [Item(bytes, false)] + [Item([], true)];
    assert items[|front| := Item([], false)] == front + [Item([], false), Item([], true)];
    assert g.calls + [] == g.calls;
  }
}

/** What whole runs of the generator guarantee: promise accounting, the order of plain mode, what a stop
    does to data that still waits, and how a closed queue drains. */
module GeneratorRuns {
  import opened Bytes
  import opened Queues
  import opened AsyncIterators
  import opened Generators
  import I = AsyncIterators
  import Q = Queues
  import G = Generators

  function Payload(value: Value): Block {
    if value.Data? then value.bytes else []
  }

  function DeliveredBy(s: Settlement): seq<Block> {
    if s.Resolved? && !s.done then [Payload(s.value)] else []
  }

  /** The chunks readers received, in the order of their reads. */
  function Delivered(log: seq<Settlement>): seq<Block> {
    if log == [] then [] else Delivered(log[..|log| - 1]) + DeliveredBy(log[|log| - 1])
  }

  /** The blocks a run's writers handed in. */
  function Written(ops: seq<GenOp>): seq<Block> {
    if ops == [] then [] else WrittenBy(ops[0]) + Written(ops[1..])
  }

  function WrittenBy(op: GenOp): seq<Block> {
    match op
    case Write(b) => [b]
    case Yield(b) => [b]
    case Enqueue(b) => [b]
    case _ => []
  }

  function NextCalls(ops: seq<GenOp>): nat {
    if ops == [] then 0 else (if ops[0].Next? then 1 else 0) + NextCalls(ops[1..])
  }

  lemma DeliveredSnoc(log: seq<Settlement>, s: Settlement)
    ensures Delivered(log + [s]) == Delivered(log) + DeliveredBy(s)
    ensures DeliveredBy(s) == [] ==> Delivered(log + [s]) == Delivered(log)
  {
    assert (log + [s])[..|log|] == log;
  }

  lemma {:induction false} RejectionsDeliverNothing(log: seq<Settlement>, waiting: seq<Read>, error: Value)
    ensures Delivered(log + Rejections(waiting, error)) == Delivered(log)
  {
    if waiting == [] {
      assert log + Rejections(waiting, error) == log;
    } else {
      var front := waiting[..|waiting| - 1];
      var last := I.Settlement.Rejected(waiting[|waiting| - 1].promise, error);
      RejectionsDeliverNothing(log, front, error);
      LastRejection(log, waiting, error);
      DeliveredSnoc(log + Rejections(front, error), last);
    }
  }

  lemma LastRejection(log: seq<Settlement>, waiting: seq<Read>, error: Value)
    requires waiting != []
    ensures var last := I.Settlement.Rejected(waiting[|waiting| - 1].promise, error);
            log + Rejections(waiting, error) == log + Rejections(waiting[..|waiting| - 1], error) + [last]
  {
  }

  lemma StopDeliversNothing(it: IterState, last: Value)
    ensures Delivered(I.AfterStop(it, last).log) == Delivered(it.log)
  {
    if it.pending != [] {
      var it' := AfterEmplace(it, last, true);
      DeliveredSnoc(it.log, Resolved(it.pending[0].promise, last, true));
      RejectionsDeliverNothing(it'.log, it'.pending, Null);
    }
  }

  lemma EmplaceDelivers(it: IterState, value: Value, done: bool)
    requires it.pending != []
    ensures Delivered(AfterEmplace(it, value, done).log) == Delivered(it.log) + if done then [] else [Payload(value)]
  {
    DeliveredSnoc(it.log, Resolved(it.pending[0].promise, value, done));
  }

  lemma NextReadDeliversNothing(it: IterState)
    ensures Delivered(I.AfterNext(it).log) == Delivered(it.log)
  {
    DeliveredSnoc(it.log, Resolved(it.created, Undefined, true));
  }

  // ---------- every step, every mode ----------

  /** In every run promises are accounted for, the queue keeps its shape, and the chunk size stays
      usable. */
  lemma {:induction false} RunIsSound(g: GenState, ops: seq<GenOp>)
    requires Sound(g) && AllAllowed(g, ops)
    ensures Sound(GenRun(g, ops))
    decreases ops
  {
    if ops != [] {
      StepIsSound(g, ops[0]);
      RunIsSound(GenStep(g, ops[0]), ops[1..]);
    }
  }

  // ---------- plain mode: order ----------

  /** Plain mode. The executor's generator may be stopped, closed or finished at any time; bytes
      are enqueued past the readers only while none waits. */
  predicate PlainOp(g: GenState, op: GenOp) {
    match op
    case Enqueue(_) => g.it.pending == []
    case CloseQueue => g.q.Some? && g.it.pending == []
    case Finish => g.q.Some? && g.it.pending == []
    case SetContinuous(_) => false
    case SetBuffering(_) => false
    case _ => true
  }

  predicate PlainRun(g: GenState, ops: seq<GenOp>)
    decreases ops
  {
    ops != [] ==> PlainOp(g, ops[0]) && PlainRun(GenStep(g, ops[0]), ops[1..])
  }

  /** What readers got, then what is queued. */
  function Stream(g: GenState): seq<Block> {
    Delivered(g.it.log) + Chunked(QueueOf(g))
  }

  /** No read waits while data waits, and what readers got, then what is queued, is what was
      accepted. */
  ghost predicate InOrder(g: GenState) {
    && Sound(g)
    && !g.buffering && !QueueOf(g).continuous
    && (g.it.pending == [] || QueueOf(g).items == [])
    && Stream(g) == g.accepted
  }

  lemma ChunkedNext(q: QueueState)
    requires Shaped(q) && q.items != [] && !q.items[0].done
    ensures [Front(q).block] + Chunked(Q.AfterNext(q)) == Chunked(q)
  {
    var chunks := if Complete(q) then q.items[..|q.items| - 1] else q.items;
    assert Complete(Q.AfterNext(q)) == Complete(q);
    assert (if Complete(q) then q.items[1..][..|q.items| - 2] else q.items[1..]) == chunks[1..];
    BlocksCons(chunks);
  }

  lemma BlocksCons(items: seq<Item>)
    requires items != []
    ensures Blocks(items) == [items[0].block] + Blocks(items[1..])
  {
  }

  lemma ChunkedAdd(q: QueueState, b: Block)
    ensures !Complete(q) ==> Chunked(AfterAdd(q, b)) == Chunked(q) + [b]
    ensures Chunked(AfterClose(q)) == Chunked(q)
  {
  }

  lemma HandedKeepsStream(g: GenState)
    requires Shaped(QueueOf(g)) && g.it.pending != [] && QueueOf(g).items != [] && !Front(QueueOf(g)).done
    ensures Stream(Handed(g)) == Stream(g) && Shaped(QueueOf(Handed(g)))
  {
    var front := Front(QueueOf(g));
    EmplaceDelivers(g.it, ValueOf(front.block), false);
    ChunkedNext(QueueOf(g));
    Associate(Delivered(g.it.log), [front.block], Chunked(Q.AfterNext(QueueOf(g))));
  }

  lemma {:induction false} UpdateKeepsOrder(g: GenState)
    requires Shaped(QueueOf(g)) && !g.buffering
    ensures var g' := OnUpdate(g);
            && Stream(g') == Stream(g)
            && g' == g.(it := g'.it, q := g'.q) && QueueOf(g').continuous == QueueOf(g).continuous
            && (g'.it.pending == [] || QueueOf(g').items == [])
    decreases |g.it.pending|
  {
    if Updatable(g) {
      if Front(QueueOf(g)).done {
        assert QueueOf(g).items == [Item([], true)];
        DoneDeliversNothing(g);
      } else {
        HandedKeepsStream(g);
        UpdateKeepsOrder(Handed(g));
      }
    }
  }

  lemma {:induction false} DoneDeliversNothing(g: GenState)
    requires QueueOf(g).items == [Item([], true)] && !g.buffering
    ensures var g' := OnUpdate(g);
            g' == g.(it := g'.it) && Delivered(g'.it.log) == Delivered(g.it.log) && g'.it.pending == []
    decreases |g.it.pending|
  {
    if g.it.pending != [] {
      EmplaceDelivers(g.it, Undefined, true);
      DoneDeliversNothing(Closing(Handed(g), true));
    }
  }

  /** The state in which `next` looks at the queue. */
  function Asked(g: GenState, argument: Value): GenState {
    Begun(g.(it := I.AfterNext(g.it)), argument)
  }

  lemma AskedIsSound(g: GenState, argument: Value)
    requires Sound(g)
    ensures var g1 := Asked(g, argument);
            && Sound(g1) && g1.it == I.AfterNext(g.it) && g1.q == g.q
            && g1.buffering == g.buffering && g1.chunkSize == g.chunkSize && g1.accepted == g.accepted
  {
    StepAccounts(g.it, IterOp.Next);
  }

  lemma AskedKeepsStream(g: GenState, argument: Value)
    requires Sound(g)
    ensures Stream(Asked(g, argument)) == Stream(g)
  {
    AskedIsSound(g, argument);
    NextReadDeliversNothing(g.it);
    SameStream(g, Asked(g, argument));
  }

  lemma SameStream(g: GenState, g': GenState)
    requires Chunked(QueueOf(g')) == Chunked(QueueOf(g)) && Delivered(g'.it.log) == Delivered(g.it.log)
    ensures Stream(g') == Stream(g)
  {
  }

  /** A read asked of a stopped iterator is settled at once, so only the queue is left to look at. */
  lemma NextIsAskThenUpdate(g: GenState, argument: Value)
    requires Sound(g)
    ensures var g1 := Asked(g, argument); var g' := OnNext(g, argument);
            g' == if Updatable(g1) || !Stopped(g1.it) then OnUpdate(g1) else g1.(it := g1.it.(closing := true))
  {
    AskedIsSound(g, argument);
  }

  lemma NextKeepsOrder(g: GenState, argument: Value)
    requires InOrder(g)
    ensures InOrder(OnNext(g, argument))
  {
    NextIsSound(g, argument);
    AskedIsSound(g, argument);
    AskedKeepsStream(g, argument);
    NextIsAskThenUpdate(g, argument);
    UpdateKeepsOrder(Asked(g, argument));
  }

  /** Enqueuing keeps the order exactly when no read waits. */
  lemma EnqueueKeepsOrder(g: GenState, b: Block)
    requires InOrder(g)
    ensures InOrder(OnEnqueue(g, b)) <==> g.it.pending == []
  {
    EnqueueIsSound(g, b);
    EnqueueKeepsStream(g, b);
  }

  lemma EnqueueKeepsStream(g: GenState, b: Block)
    requires !g.buffering && !QueueOf(g).continuous && Stream(g) == g.accepted
    ensures Stream(OnEnqueue(g, b)) == OnEnqueue(g, b).accepted
  {
    ChunkedAdd(QueueOf(g), b);
    Associate(Delivered(g.it.log), Chunked(QueueOf(g)), [b]);
  }

  lemma HandOverKeepsOrder(g: GenState, b: Block)
    requires InOrder(g) && g.it.pending != []
    ensures InOrder(HandOver(g, b))
  {
    StepAccounts(g.it, Emplace(Data(b), false));
    EmplaceDelivers(g.it, Data(b), false);
  }

  lemma StopKeepsOrder(g: GenState, last: Value)
    requires InOrder(g)
    ensures InOrder(OnStop(g, last))
  {
    StopKeepsStream(g, last);
    StopReads(g, last);
    hide OnStop;
    hide Stream;
  }

  lemma PlainStep(g: GenState, op: GenOp)
    requires InOrder(g) && PlainOp(g, op)
    ensures InOrder(GenStep(g, op))
  {
    match op
    case Next(a) => NextKeepsOrder(g, a);
    case Write(b) => WriteKeepsOrder(g, b);
    case Yield(b) => WriteKeepsOrder(g, b);
    case Enqueue(b) => EnqueueKeepsOrder(g, b);
    case Stop(v) => StopKeepsOrder(g, v);
    case CloseQueue => CloseKeepsOrder(g);
    case Finish => FinishKeepsOrder(g);
  }

  /** With no data waiting, writing and yielding are the same: to the oldest reader, or queued. */
  lemma WriteKeepsOrder(g: GenState, b: Block)
    requires InOrder(g)
    ensures InOrder(OnWrite(g, b)) && OnWrite(g, b) == OnYield(g, b)
  {
    if g.it.pending != [] { HandOverKeepsOrder(g, b); } else { EnqueueKeepsOrder(g, b); }
  }

  lemma CloseKeepsOrder(g: GenState)
    requires InOrder(g) && g.it.pending == []
    ensures InOrder(OnCloseQueue(g))
  {
    ChunkedAdd(QueueOf(g), []);
    SameStream(g, OnCloseQueue(g));
  }

  lemma FinishKeepsOrder(g: GenState)
    requires InOrder(g) && g.it.pending == []
    ensures InOrder(OnFinish(g))
  {
    FinishIsSound(g);
    ChunkedAdd(QueueOf(g), []);
    SameStream(g, OnFinish(g));
  }

  lemma {:induction false} PlainRunKeepsOrder(g: GenState, ops: seq<GenOp>)
    requires InOrder(g) && PlainRun(g, ops)
    ensures InOrder(GenRun(g, ops))
    decreases ops
  {
    if ops != [] {
      PlainStep(g, ops[0]);
      PlainRunKeepsOrder(GenStep(g, ops[0]), ops[1..]);
    }
  }

  predicate Ends(op: GenOp) {
    op.Stop? || op.CloseQueue? || op.Finish?
  }

  predicate Open(g: GenState) {
    !Complete(QueueOf(g)) && !g.buffering && !QueueOf(g).continuous && !Stopped(g.it)
  }

  lemma {:induction false} OpenUpdate(g: GenState)
    requires Sound(g) && Open(g)
    ensures Open(OnUpdate(g)) && OnUpdate(g).accepted == g.accepted
    decreases |g.it.pending|
  {
    if Updatable(g) {
      HandedIsSound(g);
      OpenUpdate(Handed(g));
    }
  }

  lemma OpenStep(g: GenState, op: GenOp)
    requires InOrder(g) && Open(g) && PlainOp(g, op) && !Ends(op)
    ensures Open(GenStep(g, op)) && GenStep(g, op).accepted == g.accepted + WrittenBy(op)
  {
    match op
    case Next(a) =>
      AskedIsSound(g, a);
      NextIsAskThenUpdate(g, a);
      OpenUpdate(Asked(g, a));
    case Write(b) =>
    case Yield(b) =>
    case Enqueue(b) =>
  }

  /** Until a generator is stopped, closed or finished, every block handed in is accepted. */
  lemma {:induction false} OpenRunAcceptsAll(g: GenState, ops: seq<GenOp>)
    requires InOrder(g) && Open(g) && PlainRun(g, ops)
    requires forall i :: 0 <= i < |ops| ==> !Ends(ops[i])
    ensures GenRun(g, ops).accepted == g.accepted + Written(ops)
    decreases ops
  {
    if ops != [] {
      PlainStep(g, ops[0]);
      OpenStep(g, ops[0]);
      OpenRunAcceptsAll(GenStep(g, ops[0]), ops[1..]);
      Associate(g.accepted, WrittenBy(ops[0]), Written(ops[1..]));
    }
  }

  /** Plain mode, over every run of a new generator: the chunks readers received, followed by the
      chunks queued, are the accepted blocks in order; no read ever waits while data waits. */
  lemma PlainOrder(executor: bool, ops: seq<GenOp>)
    requires PlainRun(New(executor), ops)
    ensures var g := GenRun(New(executor), ops);
            && Delivered(g.it.log) + Chunked(QueueOf(g)) == g.accepted
            && (g.it.pending == [] || QueueOf(g).items == [])
            && Accounted(g.it)
            && ((forall i :: 0 <= i < |ops| ==> !Ends(ops[i])) ==> g.accepted == Written(ops))
  {
    hide GenRun;
    hide PlainRun;
    hide Delivered;
    hide Written;
    hide Chunked;
    hide Ends;
    NewIsInOrder(executor);
    PlainRunKeepsOrder(New(executor), ops);
    if forall i :: 0 <= i < |ops| ==> !Ends(ops[i]) {
      OpenRunAcceptsAll(New(executor), ops);
      assert [] + Written(ops) == Written(ops);
    }
  }

  /** Enqueuing past a waiting reader breaks the order: the next value yielded overtakes. */
  lemma EnqueuePastReaderIsOvertaken()
    ensures var ops := [GenOp.Next(Undefined), Enqueue([1]), Yield([2])];
            var g := GenRun(New(false), ops);
            Delivered(g.it.log) == [[2]] && Chunked(QueueOf(g)) == [[1]] && g.accepted == [[1], [2]]
  {
    ReaderWaits();
    BlockAside();
    ReaderOvertakes();
    ThreeSteps(New(false), GenOp.Next(Undefined), Enqueue([1]), Yield([2]));
    DeliveredSnoc([], Resolved(0, Data([2]), false));
    assert Chunked(QueueState([Item([1], false)], false)) == [[1]];
  }

  /** A new generator of which one value was asked. */
  function WithReader(q: Option<QueueState>, accepted: seq<Block>): GenState {
    GenState(IterState([Read(0, 1)], false, false, 1, 1, []), q, 0, true, false, false, None, [], accepted)
  }

  lemma ReaderWaits()
    ensures OnNext(New(false), Undefined) == WithReader(None, [])
  {
  }

  lemma BlockAside()
    ensures OnEnqueue(WithReader(None, []), [1]) == WithReader(Some(QueueState([Item([1], false)], false)), [[1]])
  {
    assert [] + [Item([1], false)] == [Item([1], false)];
  }

  lemma ReaderOvertakes()
    ensures var g := WithReader(Some(QueueState([Item([1], false)], false)), [[1]]); var g' := OnYield(g, [2]);
            g'.it.log == [] + [Resolved(0, Data([2]), false)] && g'.q == g.q && g'.accepted == [[1], [2]]
  {
  }

  lemma ThreeSteps(g: GenState, a: GenOp, b: GenOp, c: GenOp)
    ensures GenRun(g, [a, b, c]) == GenStep(GenStep(GenStep(g, a), b), c)
  {
    hide GenStep;
    assert [a, b, c][1..] == [b, c] && [b, c][1..] == [c] && [c][1..] == [];
    assert GenRun(GenStep(GenStep(g, a), b), [c]) == GenStep(GenStep(GenStep(g, a), b), c);
    assert GenRun(GenStep(g, a), [b, c]) == GenStep(GenStep(GenStep(g, a), b), c);
  }

  // ---------- plain mode: order with readers and data waiting at once ----------

  /** What readers got, then what is queued, is what was accepted; reads and data may wait at the same time. */
  ghost predicate Streaming(g: GenState) {
    Sound(g) && !g.buffering && !QueueOf(g).continuous && Stream(g) == g.accepted
  }

  lemma {:induction false} DrainKeepsStream(g: GenState)
    requires Shaped(QueueOf(g))
    ensures var g' := OnDrain(g);
            && Stream(g') == Stream(g) && g' == g.(it := g'.it, q := g'.q)
            && QueueOf(g').continuous == QueueOf(g).continuous && Complete(QueueOf(g')) == Complete(QueueOf(g))
            && (Stopped(g'.it) <==> Stopped(g.it))
    decreases |g.it.pending|
  {
    hide Stream;
    hide Handed;
    hide Shaped;
    hide Complete;
    if g.it.pending != [] && QueueOf(g).items != [] && |Front(QueueOf(g)).block| >= g.chunkSize {
      HandedStreams(g);
      DrainKeepsStream(Handed(g));
    }
  }

  lemma HandedStreams(g: GenState)
    requires Shaped(QueueOf(g)) && g.it.pending != [] && QueueOf(g).items != []
    ensures var g' := Handed(g);
            && Stream(g') == Stream(g) && g' == g.(it := g'.it, q := g'.q) && Shaped(QueueOf(g'))
            && QueueOf(g').continuous == QueueOf(g).continuous && Complete(QueueOf(g')) == Complete(QueueOf(g))
            && (Stopped(g'.it) <==> Stopped(g.it)) && |g'.it.pending| < |g.it.pending|
  {
    if Front(QueueOf(g)).done {
      EmplaceDelivers(g.it, ValueOf(Front(QueueOf(g)).block), true);
    } else {
      HandedKeepsStream(g);
    }
    hide Stream;
  }

  /** A write never overtakes what is queued. */
  lemma WriteKeepsStream(g: GenState, b: Block)
    requires Streaming(g)
    ensures Streaming(OnWrite(g, b))
  {
    WriteIsSound(g, b);
    if HandsOver(g) {
      HandOverKeepsOrder(g, b);
    } else {
      EnqueueIsSound(g, b);
      EnqueueKeepsStream(g, b);
      DrainKeepsStream(OnEnqueue(g, b));
      hide OnDrain;
      hide Sound;
    }
  }

  /** Each of these chunks is that block. */
  predicate AllAre(chunks: seq<Block>, b: Block) {
    forall i :: 0 <= i < |chunks| ==> chunks[i] == b
  }

  lemma {:induction false} SameFromBothEndsExactlyIf(chunks: seq<Block>, b: Block)
    ensures [b] + chunks == chunks + [b] <==> AllAre(chunks, b)
  {
    if chunks != [] {
      var rest := chunks[1..];
      SameFromBothEndsExactlyIf(rest, b);
      if [b] + chunks == chunks + [b] {
        assert chunks[0] == (chunks + [b])[0] == b;
        assert chunks == [b] + rest;
        assert ([b] + chunks)[1..] == chunks && (chunks + [b])[1..] == rest + [b];
      }
    }
  }

  lemma OvertakesUnless(before: seq<Block>, chunks: seq<Block>, b: Block)
    ensures before + [b] + chunks == before + chunks + [b] <==> AllAre(chunks, b)
  {
    SameFromBothEndsExactlyIf(chunks, b);
    hide AllAre;
    Associate(before, [b], chunks);
    Associate(before, chunks, [b]);
    assert (before + ([b] + chunks))[|before|..] == [b] + chunks;
    assert (before + (chunks + [b]))[|before|..] == chunks + [b];
  }

  /** A yield overtakes what is queued exactly if a read waits and something else than the value is queued. */
  lemma YieldKeepsStreamExactlyIf(g: GenState, b: Block)
    requires Streaming(g)
    ensures Streaming(OnYield(g, b)) <==> g.it.pending == [] || AllAre(Chunked(QueueOf(g)), b)
  {
    YieldIsSound(g, b);
    if g.it.pending != [] {
      EmplaceDelivers(g.it, Data(b), false);
      OvertakesUnless(Delivered(g.it.log), Chunked(QueueOf(g)), b);
    } else {
      EnqueueKeepsStream(g, b);
    }
  }

  predicate SwitchesMode(op: GenOp) {
    op.SetContinuous? || op.SetBuffering?
  }

  /** A yield that overtakes nothing, or any other operation. */
  predicate Orderly(g: GenState, op: GenOp) {
    op.Yield? ==> g.it.pending == [] || AllAre(Chunked(QueueOf(g)), op.value)
  }

  /** In plain mode every allowed operation keeps the order, except for a yield that overtakes. */
  lemma StreamStepExactlyIf(g: GenState, op: GenOp)
    requires Streaming(g) && Allowed(g, op) && !SwitchesMode(op)
    ensures Streaming(GenStep(g, op)) <==> Orderly(g, op)
  {
    hide Allowed;
    StepIsSound(g, op);
    match op
    case Next(a) => NextKeepsStream(g, a);
    case Write(b) => WriteKeepsStream(g, b);
    case Yield(b) => YieldKeepsStreamExactlyIf(g, b);
    case Enqueue(b) => EnqueueKeepsStream(g, b);
    case Stop(v) => StopKeepsStream(g, v);
    case CloseQueue => ChunkedAdd(QueueOf(g), []); SameStream(g, OnCloseQueue(g));
    case Finish => FinishKeepsStream(g);
  }

  lemma NextKeepsStream(g: GenState, argument: Value)
    requires Streaming(g)
    ensures Streaming(OnNext(g, argument))
  {
    NextIsSound(g, argument);
    AskedIsSound(g, argument);
    AskedKeepsStream(g, argument);
    NextIsAskThenUpdate(g, argument);
    UpdateKeepsOrder(Asked(g, argument));
  }

  lemma StopKeepsStream(g: GenState, last: Value)
    requires Streaming(g)
    ensures Streaming(OnStop(g, last))
  {
    StopIsSound(g, last);
    StopReads(g, last);
    StopDeliversNothing(g.it, last);
    ChunkedAdd(QueueOf(g), []);
    SameStream(g, OnStop(g, last));
  }

  lemma FinishKeepsStream(g: GenState)
    requires Streaming(g)
    ensures var g' := OnFinish(g); Stream(g') == g'.accepted && !g'.buffering && !QueueOf(g').continuous
  {
    var g1 := g.(it := g.it.(closing := true));
    SameStream(g, g1);
    UpdateKeepsOrder(g1);
    ChunkedAdd(QueueOf(OnUpdate(g1)), []);
    SameStream(OnUpdate(g1), OnCloseQueue(OnUpdate(g1)));
  }

  predicate OrderlyRun(g: GenState, ops: seq<GenOp>)
    decreases ops
  {
    ops != [] ==>
      Allowed(g, ops[0]) && !SwitchesMode(ops[0]) && Orderly(g, ops[0]) && OrderlyRun(GenStep(g, ops[0]), ops[1..])
  }

  lemma OpenWrite(g: GenState, b: Block)
    requires Streaming(g) && Open(g)
    ensures Open(OnWrite(g, b)) && OnWrite(g, b).accepted == g.accepted + [b]
  {
    if !HandsOver(g) {
      EnqueueIsSound(g, b);
      DrainKeepsStream(OnEnqueue(g, b));
    }
    hide OnDrain;
    hide Stream;
    hide Sound;
  }

  lemma OpenStreamStep(g: GenState, op: GenOp)
    requires Streaming(g) && Open(g) && !SwitchesMode(op) && !Ends(op)
    ensures Open(GenStep(g, op)) && GenStep(g, op).accepted == g.accepted + WrittenBy(op)
  {
    hide OnUpdate;
    hide OnWrite;
    hide Stream;
    match op
    case Next(a) =>
      AskedIsSound(g, a);
      NextIsAskThenUpdate(g, a);
      OpenUpdate(Asked(g, a));
      hide OnNext;
    case Write(b) => OpenWrite(g, b);
    case Yield(b) =>
    case Enqueue(b) =>
  }

  lemma {:induction false} StreamRun(g: GenState, ops: seq<GenOp>)
    requires Streaming(g) && OrderlyRun(g, ops)
    ensures Streaming(GenRun(g, ops))
    ensures Open(g) && (forall i :: 0 <= i < |ops| ==> !Ends(ops[i])) ==> GenRun(g, ops).accepted == g.accepted + Written(ops)
    decreases ops
  {
    if ops != [] {
      hide Streaming;
      hide Allowed;
      hide GenStep;
      hide Open;
      StreamStepExactlyIf(g, ops[0]);
      StreamRun(GenStep(g, ops[0]), ops[1..]);
      if Open(g) && !Ends(ops[0]) {
        OpenStreamStep(g, ops[0]);
        Associate(g.accepted, WrittenBy(ops[0]), Written(ops[1..]));
      }
    }
  }

  /** The same order, over every run of a new generator in plain mode, readers and data waiting or not, as long as
      no yield overtakes: the chunks readers received, followed by the chunks queued, are the accepted blocks. */
  lemma PlainStream(executor: bool, ops: seq<GenOp>)
    requires OrderlyRun(New(executor), ops)
    ensures var g := GenRun(New(executor), ops);
            && Delivered(g.it.log) + Chunked(QueueOf(g)) == g.accepted
            && ((forall i :: 0 <= i < |ops| ==> !Ends(ops[i])) ==> g.accepted == Written(ops))
  {
    hide GenRun;
    hide OrderlyRun;
    hide Delivered;
    hide Written;
    hide Chunked;
    hide Ends;
    NewIsInOrder(executor);
    StreamRun(New(executor), ops);
    assert [] + Written(ops) == Written(ops);
  }

  // ---------- what a stop does to waiting data ----------

  lemma StoppedStepLog(g: GenState, op: GenOp)
    requires Stopped(g.it) && g.it.pending == [] && Allowed(g, op)
    ensures GenStep(g, op).it.log == g.it.log + if op.Next? then [Resolved(g.it.created, Undefined, true)] else []
    ensures Stopped(GenStep(g, op).it)
  {
    match op
    case Next(a) => NextOnceStopped(g, a);
    case Write(b) => WriteOnceStopped(g, b);
    case Stop(v) => StopReads(g, v);
    case Finish => FinishOnceStopped(g);
    case _ =>
  }

  lemma NextOnceStopped(g: GenState, argument: Value)
    requires Stopped(g.it) && g.it.pending == []
    ensures OnNext(g, argument).it == I.AfterNext(g.it)
  {
    assert Asked(g, argument).it == I.AfterNext(g.it);
  }

  lemma WriteOnceStopped(g: GenState, data: Block)
    requires g.it.pending == []
    ensures OnWrite(g, data).it == g.it
  {
    assert OnDrain(OnEnqueue(g, data)) == OnEnqueue(g, data);
  }

  lemma FinishOnceStopped(g: GenState)
    requires g.it.pending == []
    ensures OnFinish(g).it == g.it.(closing := true)
  {
    var g1 := g.(it := g.it.(closing := true));
    assert OnUpdate(g1) == g1;
  }

  lemma StoppedStep(g: GenState, op: GenOp)
    requires Sound(g) && Stopped(g.it) && Allowed(g, op)
    ensures var g' := GenStep(g, op);
            && Sound(g') && Stopped(g'.it) && Delivered(g'.it.log) == Delivered(g.it.log)
            && (op.Next? ==> g'.it.log == g.it.log + [Resolved(g.it.created, Undefined, true)])
  {
    StepIsSound(g, op);
    StoppedStepLog(g, op);
    DeliveredSnoc(g.it.log, Resolved(g.it.created, Undefined, true));
  }

  lemma {:induction false} StoppedRun(g: GenState, ops: seq<GenOp>)
    requires Sound(g) && Stopped(g.it) && AllAllowed(g, ops)
    ensures var g' := GenRun(g, ops); Sound(g') && Stopped(g'.it) && Delivered(g'.it.log) == Delivered(g.it.log)
    decreases ops
  {
    if ops != [] {
      StoppedStep(g, ops[0]);
      StoppedRun(GenStep(g, ops[0]), ops[1..]);
    }
  }

  /** A stop is final, in every mode: whatever follows, readers receive no further chunk, every
      later `next` is done at once, and data queued when the stop came is never delivered. */
  lemma StopFreezesDelivery(g: GenState, last: Value, later: seq<GenOp>)
    requires Sound(g) && AllAllowed(OnStop(g, last), later)
    ensures var g' := GenRun(OnStop(g, last), later);
            && Delivered(g'.it.log) == Delivered(g.it.log)
            && g'.it.pending == []
            && forall a :: OnNext(g', a).it.log == g'.it.log + [Resolved(g'.it.created, Undefined, true)]
  {
    StopStops(g, last);
    StoppedRun(OnStop(g, last), later);
    NextsOnceStopped(GenRun(OnStop(g, last), later));
  }

  /** So is a finish: what was not handed over by then is never delivered, and without a pending read nothing
      is. The data of a buffering generator that fill no chunk are lost this way, too. */
  lemma FinishFreezesDelivery(g: GenState, later: seq<GenOp>)
    requires Sound(g) && Allowed(g, GenOp.Finish) && AllAllowed(OnFinish(g), later)
    ensures var g' := GenRun(OnFinish(g), later);
            && Delivered(g'.it.log) == Delivered(OnFinish(g).it.log)
            && g'.it.pending == []
            && (forall a :: OnNext(g', a).it.log == g'.it.log + [Resolved(g'.it.created, Undefined, true)])
            && (g.it.pending == [] ==> Delivered(g'.it.log) == Delivered(g.it.log))
  {
    StepIsSound(g, GenOp.Finish);
    FinishStops(g);
    StoppedRun(OnFinish(g), later);
    NextsOnceStopped(GenRun(OnFinish(g), later));
    if g.it.pending == [] {
      FinishOnceStopped(g);
    }
  }

  lemma FinishStops(g: GenState)
    requires Sound(g)
    ensures Stopped(OnFinish(g).it)
  {
    ClosingUpdate(g.(it := g.it.(closing := true)));
  }

  lemma StopStops(g: GenState, last: Value)
    requires Sound(g)
    ensures var g' := OnStop(g, last); Sound(g') && Stopped(g'.it) && Delivered(g'.it.log) == Delivered(g.it.log)
  {
    StopIsSound(g, last);
    StopDeliversNothing(g.it, last);
    StopReads(g, last);
  }

  lemma StopReads(g: GenState, last: Value)
    ensures OnStop(g, last).it == if g.it.closed then g.it else I.AfterStop(g.it, last)
  {
  }

  lemma NextsOnceStopped(g: GenState)
    requires Sound(g) && Stopped(g.it)
    ensures forall a :: OnNext(g, a).it.log == g.it.log + [Resolved(g.it.created, Undefined, true)]
  {
    forall a
      ensures OnNext(g, a).it.log == g.it.log + [Resolved(g.it.created, Undefined, true)]
    {
      StoppedStepLog(g, GenOp.Next(a));
    }
  }

  // ---------- a closed queue drains ----------

  function Nexts(arguments: seq<Value>): seq<GenOp> {
    if arguments == [] then [] else [GenOp.Next(arguments[0])] + Nexts(arguments[1..])
  }

  lemma {:induction false} EnqueuesTouchNoRead(g: GenState, ops: seq<GenOp>)
    requires g.it.pending == [] && forall i :: 0 <= i < |ops| ==> ops[i].Enqueue?
    ensures GenRun(g, ops).it == g.it && PlainRun(g, ops)
    ensures ops != [] ==> GenRun(g, ops).q.Some?
    decreases ops
  {
    if ops != [] {
      EnqueuesTouchNoRead(GenStep(g, ops[0]), ops[1..]);
    }
  }

  /** What the i-th `next` on a closed queue settles with. */
  function DrainResult(chunks: seq<Block>, promise: nat, i: nat): Settlement {
    if i < |chunks| then Resolved(promise + i, ValueOf(chunks[i]), false)
    else Resolved(promise + i, Undefined, true)
  }

  /** A closed queue with no reader waiting; once its end was reached, nothing is left. */
  ghost predicate Draining(g: GenState) {
    && Sound(g) && !g.buffering && g.it.pending == [] && Complete(QueueOf(g))
    && (Stopped(g.it) ==> QueueOf(g).items == [Item([], true)])
  }

  lemma DrainOne(g: GenState, argument: Value)
    requires Draining(g)
    ensures var g' := OnNext(g, argument); var chunks := Chunked(QueueOf(g));
            && Draining(g')
            && Chunked(QueueOf(g')) == (if chunks == [] then [] else chunks[1..])
            && g'.it.log == g.it.log + [DrainResult(chunks, |g.it.log|, 0)]
            && (g'.it.closed <==> g.it.closed || chunks == [])
  {
    NextIsSound(g, argument);
    AskedIsSound(g, argument);
    NextIsAskThenUpdate(g, argument);
    var g1, front := Asked(g, argument), Front(QueueOf(g));
    if !Stopped(g.it) {
      HandsOne(g1);
      if !front.done {
        ChunkedNext(QueueOf(g));
      }
    }
  }

  lemma HandsOne(g: GenState)
    requires Updatable(g) && |g.it.pending| == 1
    ensures OnUpdate(g) == Closing(Handed(g), Front(QueueOf(g)).done)
  {
    assert !Updatable(Closing(Handed(g), Front(QueueOf(g)).done));
  }

  function DrainResults(chunks: seq<Block>, promise: nat, n: nat): (r: seq<Settlement>)
    ensures |r| == n
    ensures forall i :: 0 <= i < n ==> r[i] == DrainResult(chunks, promise, i)
  {
    seq(n, i requires 0 <= i < n => DrainResult(chunks, promise, i))
  }

  lemma DrainResultsCons(chunks: seq<Block>, promise: nat, n: nat)
    ensures DrainResults(chunks, promise, n + 1) ==
            [DrainResult(chunks, promise, 0)]
            + DrainResults(if chunks == [] then [] else chunks[1..], promise + 1, n)
  {
  }

  lemma FirstNext(g: GenState, arguments: seq<Value>)
    requires arguments != []
    ensures GenRun(g, Nexts(arguments)) == GenRun(OnNext(g, arguments[0]), Nexts(arguments[1..]))
  {
    assert Nexts(arguments)[1..] == Nexts(arguments[1..]);
  }

  lemma NoNexts(g: GenState, arguments: seq<Value>)
    requires arguments == [] && Draining(g)
    ensures GenRun(g, Nexts(arguments)) == g && g.it.pending == []
    ensures g.it.log + DrainResults(Chunked(QueueOf(g)), |g.it.log|, 0) == g.it.log
  {
  }

  lemma {:induction false} DrainAll(g: GenState, arguments: seq<Value>)
    requires Draining(g)
    ensures var g' := GenRun(g, Nexts(arguments));
            && g'.it.pending == [] && (g'.it.closed <==> g.it.closed || |arguments| > |Chunked(QueueOf(g))|)
            && g'.it.log == g.it.log + DrainResults(Chunked(QueueOf(g)), |g.it.log|, |arguments|)
    decreases arguments
  {
    hide *;
    if arguments == [] {
      NoNexts(g, arguments);
    } else {
      var g1, n := OnNext(g, arguments[0]), |arguments| - 1;
      DrainOne(g, arguments[0]);
      DrainAll(g1, arguments[1..]);
      FirstNext(g, arguments);
      DrainResultsCons(Chunked(QueueOf(g)), |g.it.log|, n);
      Associate(g.it.log, [DrainResult(Chunked(QueueOf(g)), |g.it.log|, 0)],
                DrainResults(Chunked(QueueOf(g1)), |g1.it.log|, n));
    }
  }

  lemma CloseStartsDraining(g: GenState)
    requires InOrder(g) && g.it == FRESH
    ensures var g' := OnCloseQueue(g);
            Draining(g') && g'.it == FRESH && Chunked(QueueOf(g')) == g.accepted
  {
    CloseKeepsOrder(g);
    NothingDelivered(OnCloseQueue(g));
  }

  lemma NothingDelivered(g: GenState)
    requires g.it.log == []
    ensures Stream(g) == Chunked(QueueOf(g))
  {
  }

  lemma OnlyEnqueued(executor: bool, ops: seq<GenOp>)
    requires forall i :: 0 <= i < |ops| ==> ops[i].Enqueue?
    ensures var g := GenRun(New(executor), ops);
            InOrder(g) && g.it == FRESH && g.accepted == Written(ops)
  {
    NewIsInOrder(executor);
    EnqueuesTouchNoRead(New(executor), ops);
    PlainRunKeepsOrder(New(executor), ops);
    OpenRunAcceptsAll(New(executor), ops);
    assert [] + Written(ops) == Written(ops);
  }

  lemma NewIsInOrder(executor: bool)
    ensures InOrder(New(executor)) && Open(New(executor))
  {
  }

  /** A generator that was only enqueued and whose queue is then closed gives its readers each
      chunk once, in order, and after that "done" for ever; the first "done" closes it. */
  lemma EnqueuedThenClosedDrains(executor: bool, ops: seq<GenOp>, arguments: seq<Value>)
    requires ops != [] && forall i :: 0 <= i < |ops| ==> ops[i].Enqueue?
    ensures var g := GenRun(OnCloseQueue(GenRun(New(executor), ops)), Nexts(arguments));
            && g.it.pending == [] && g.it.log == DrainResults(Written(ops), 0, |arguments|)
            && (g.it.closed <==> |arguments| > |Written(ops)|)
  {
    hide GenRun;
    hide Draining;
    hide InOrder;
    hide DrainResults;
    hide OnCloseQueue;
    hide Chunked;
    hide Written;
    OnlyEnqueued(executor, ops);
    var g := OnCloseQueue(GenRun(New(executor), ops));
    CloseStartsDraining(GenRun(New(executor), ops));
    DrainAll(g, arguments);
    assert [] + DrainResults(Written(ops), 0, |arguments|) == DrainResults(Written(ops), 0, |arguments|);
  }
}

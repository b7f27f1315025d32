/** The byte-stream generator (lib/generator.c, lib/generator.h): writers and readers meet over a
    chunk queue and a FIFO of pending reads. The JavaScript executor and callbacks are called and
    logged; they do not call back into the generator while it runs. */
module Generators {
  import opened Bytes
  import opened Queues
  import opened AsyncIterators
  import I = AsyncIterators
  import Q = Queues

  datatype Call = Call(fn: nat, argument: Value)

  datatype GenState = GenState(
    it: IterState, q: Option<QueueState>, chunkSize: nat, started: bool, buffering: bool,
    executor: bool, callback: Option<nat>, calls: seq<Call>, accepted: seq<Block>)

  /** A new generator; `executor` tells whether it was given an executor function. */
  function New(executor: bool): GenState {
    GenState(FRESH, None, 0, false, false, executor, None, [], [])
  }

  function QueueOf(g: GenState): QueueState {
    if g.q.Some? then g.q.value else EMPTY
  }

  /** The value a reader gets for a dequeued block: nothing for an empty one. */
  function ValueOf(block: Block): Value {
    if block == [] then Undefined else Data(block)
  }

  // ---------- what each operation leaves ----------

  /** A chunk that outgrew the chunk size is cut; its first piece stays in place. */
  function Resliced(q: QueueState, i: nat, c: nat): QueueState
    requires i < |q.items|
  {
    var blk := q.items[i].block;
    if c == 0 || |blk| <= c then q
    else AddAll(q.(items := q.items[i := q.items[i].(block := blk[..c])]), Chunks(c, blk[c..]))
  }

  function BufferedPut(q: QueueState, blk: Block, c: nat): QueueState {
    var open := q.(continuous := true);
    var q' := Q.AfterWrite(open, blk).(continuous := false);
    if TookWrite(open) >= 0 then Resliced(q', TookWrite(open), c) else q'
  }

  /** The bytes of a block that the queue takes, as a list of one block or none. Once it is complete, a
      buffering generator still fills up its last chunk, and drops the rest. */
  function Accepts(g: GenState, blk: Block): seq<Block> {
    var q := QueueOf(g);
    var i := LastChunk(q.items);
    if !Complete(q) then [blk]
    else if i < 0 || !(g.buffering || q.continuous) then []
    else if !g.buffering || |q.items[i].block| + |blk| <= g.chunkSize then [blk]
    else if |q.items[i].block| < g.chunkSize then [blk[..g.chunkSize - |q.items[i].block|]]
    else []
  }

  function OnEnqueue(g: GenState, blk: Block): GenState {
    var q := QueueOf(g);
    g.(q := Some(if g.buffering then BufferedPut(q, blk, g.chunkSize) else Q.AfterWrite(q, blk)),
       accepted := g.accepted + Accepts(g, blk))
  }

  /** A buffering generator reports the bytes of the chunk it merges into once more, and any generator all
      bytes of a block, even of one the queue refuses. */
  function Merged(g: GenState): nat {
    var items := QueueOf(g).items;
    if g.buffering && LastChunk(items) >= 0 then |items[LastChunk(items)].block| else 0
  }

  /** One chunk from the queue to the oldest pending read. */
  function Handed(g: GenState): GenState {
    var front := Front(QueueOf(g));
    g.(q := Some(Q.AfterNext(QueueOf(g))), it := AfterEmplace(g.it, ValueOf(front.block), front.done))
  }

  predicate Updatable(g: GenState) {
    && g.it.pending != [] && QueueOf(g).items != []
    && (!g.it.closing && g.buffering ==> |Front(QueueOf(g)).block| >= g.chunkSize)
  }

  function Closing(g: GenState, done: bool): GenState {
    if done then g.(it := g.it.(closed := true)) else g
  }

  function OnUpdate(g: GenState): GenState
    decreases |g.it.pending|
  {
    if Updatable(g) then OnUpdate(Closing(Handed(g), Front(QueueOf(g)).done)) else g
  }

  function OnDrain(g: GenState): GenState
    decreases |g.it.pending|
  {
    if g.it.pending != [] && QueueOf(g).items != [] && |Front(QueueOf(g)).block| >= g.chunkSize
    then OnDrain(Handed(g)) else g
  }

  function CalledBack(g: GenState, argument: Value): GenState {
    if g.callback.Some? then g.(callback := None, calls := g.calls + [Call(g.callback.value, argument)]) else g
  }

  function Begun(g: GenState, argument: Value): GenState {
    if g.executor then g.(executor := false)
    else if !g.started then CalledBack(g, argument).(started := true)
    else g
  }

  function OnNext(g: GenState, argument: Value): GenState {
    var g1 := Begun(g.(it := I.AfterNext(g.it)), argument);
    if Updatable(g1) then OnUpdate(g1)
    else if Stopped(g1.it) then g1.(it := I.AfterStop(g1.it, Undefined))
    else g1
  }

  function HandOver(g: GenState, value: Block): GenState {
    g.(it := AfterEmplace(g.it, Data(value), false), accepted := g.accepted + [value])
  }

  predicate HandsOver(g: GenState) {
    !g.buffering && !QueueOf(g).continuous && QueueOf(g).items == [] && g.it.pending != []
  }

  function OnWrite(g: GenState, data: Block): GenState {
    if HandsOver(g) then HandOver(g, data) else OnDrain(OnEnqueue(g, data))
  }

  function OnYield(g: GenState, value: Block): GenState {
    if g.it.pending != [] then HandOver(g, value) else OnEnqueue(g, value)
  }

  /** In continuous mode, stopping takes the bytes of the last chunk and calls the callback. */
  function Collected(g: GenState): GenState
    requires g.q.Some?
  {
    var q := g.q.value;
    var i := LastChunk(q.items);
    if !q.continuous || i < 0 then g
    else
      g.(q := Some(q.(items := q.items[i := q.items[i].(block := [])])),
         calls := g.calls + if g.callback.Some? then [Call(g.callback.value, ValueOf(q.items[i].block))] else [])
  }

  function QueueClosed(g: GenState): GenState {
    if g.q.Some? then Collected(g.(q := Some(AfterClose(g.q.value)))) else g
  }

  function OnStop(g: GenState, last: Value): GenState {
    if g.it.closed then g else QueueClosed(g).(it := I.AfterStop(g.it, last))
  }

  function OnContinuous(g: GenState, callback: Option<nat>): GenState {
    g.(q := Some(Q.AfterContinuous(QueueOf(g))), callback := if callback.Some? then callback else g.callback)
  }

  function OnBuffering(g: GenState, size: nat): GenState {
    g.(q := Some(QueueOf(g)), chunkSize := size % UINT32, buffering := true)
  }

  function OnCloseQueue(g: GenState): GenState {
    g.(q := Some(AfterClose(QueueOf(g))))
  }

  function FrontCalled(g: GenState, fn: nat): GenState {
    var q := QueueOf(g);
    g.(q := Some(Q.AfterNext(q)), calls := g.calls + [Call(fn, ValueOf(Front(q).block))])
  }

  function OnFinish(g: GenState): GenState {
    var g1 := g.(it := g.it.(closing := true));
    var q := QueueOf(g);
    if q.continuous && g.callback.Some? then
      FrontCalled(g1, g.callback.value)
    else
      OnCloseQueue(OnUpdate(g1))
  }

  // ---------- runs ----------

  datatype GenOp =
    | Next(argument: Value)
    | Write(data: Block)
    | Yield(value: Block)
    | Enqueue(chunk: Block)
    | Stop(last: Value)
    | CloseQueue
    | SetContinuous(callback: Option<nat>)
    | SetBuffering(size: nat)
    | Finish

  function GenStep(g: GenState, op: GenOp): GenState {
    match op
    case Next(a) => OnNext(g, a)
    case Write(b) => OnWrite(g, b)
    case Yield(b) => OnYield(g, b)
    case Enqueue(b) => OnEnqueue(g, b)
    case Stop(v) => OnStop(g, v)
    case CloseQueue => OnCloseQueue(g)
    case SetContinuous(cb) => OnContinuous(g, cb)
    case SetBuffering(c) => OnBuffering(g, c)
    case Finish => OnFinish(g)
  }

  /** Does `Finish` leave no read pending? None was, or none is too many for the items queued, which it hands
      over only without a callback; a done marker settles any number. */
  predicate FinishSettles(g: GenState) {
    || g.it.pending == []
    || (!(QueueOf(g).continuous && g.callback.Some?)
        && (Complete(QueueOf(g)) || |g.it.pending| <= |QueueOf(g).items|))
  }

  /** What an operation demands: a queue to close, a chunk size the slicing loop ends with, no
      read left pending by `Finish`, and no switch to continuous mode on a drained queue. */
  predicate Allowed(g: GenState, op: GenOp) {
    HasQueue(g, op) &&
    match op
    case SetContinuous(_) => QueueOf(g).items != [Item([], true)]
    case SetBuffering(c) => c % UINT32 > 0
    case Finish => FinishSettles(g)
    case _ => true
  }

  /** Closing and finishing use the queue without creating it. */
  predicate HasQueue(g: GenState, op: GenOp) {
    op.CloseQueue? || op.Finish? ==> g.q.Some?
  }

  function GenRun(g: GenState, ops: seq<GenOp>): GenState
    decreases ops
  {
    if ops == [] then g else GenRun(GenStep(g, ops[0]), ops[1..])
  }

  predicate AllAllowed(g: GenState, ops: seq<GenOp>)
    decreases ops
  {
    ops != [] ==> Allowed(g, ops[0]) && AllAllowed(GenStep(g, ops[0]), ops[1..])
  }

  /** What every operation keeps. */
  ghost predicate Sound(g: GenState) {
    && Accounted(g.it)
    && Shaped(QueueOf(g))
    && (g.buffering ==> g.chunkSize > 0)
  }

  // ---------- the class ----------

  class Generator {
    const it: AsyncIterator
    var q: Queue?
    var chunkSize: nat
    var started: bool
    var buffering: bool
    var executor: bool
    var callback: Option<nat>
    ghost var calls: seq<Call>
    ghost var accepted: seq<Block>

    ghost function State(): GenState
      reads this, it, q
    {
      GenState(it.State(), if q == null then None else Some(q.State()),
               chunkSize, started, buffering, executor, callback, calls, accepted)
    }

    ghost predicate Valid()
      reads this, it, q
    {
      (q != null ==> q.Valid()) && Sound(State())
    }

    ghost function Repr(): set<object>
      reads this
    {
      {this, it} + if q == null then {} else {q}
    }

    constructor (executor: bool)
      ensures Valid() && State() == New(executor) && fresh(Repr())
    {
      it := new AsyncIterator();
      q, chunkSize, started, buffering := null, 0, false, false;
      this.executor, callback, calls, accepted := executor, None, [], [];
    }

    method CreateQueue()
      requires q != null ==> q.Valid()
      modifies this
      ensures q != null && q.Valid() && (q == old(q) || (old(q) == null && fresh(q)))
      ensures State() == old(State()).(q := Some(QueueOf(old(State()))))
    {
      if q == null {
        q := new Queue();
      }
    }

    /** One chunk from the queue to the oldest read; the source repeats this in two loops. */
    method HandOne() returns (done: bool)
      requires q != null && q.Valid()
      modifies it, q
      ensures q.Valid() && State() == Handed(old(State()))
      ensures done == Front(QueueOf(old(State()))).done
    {
      var block;
      block, done := q.Next();
      var _ := it.Emplace(if |block| > 0 then Data(block) else Undefined, done);
    }

    method EnqueueBlock(blk: Block) returns (ret: nat)
      requires q != null ==> q.Valid()
      requires buffering ==> chunkSize > 0
      modifies Repr()
      ensures q != null && q.Valid() && (q == old(q) || (old(q) == null && fresh(q)))
      ensures State() == OnEnqueue(old(State()), blk)
      ensures ret == |blk| + Merged(old(State()))
    {
      ret := |blk|;
      CreateQueue();
      if buffering {
        q.continuous := true;
      }
      var i := q.Put(blk);
      if buffering {
        q.continuous := false;
      }
      if i >= 0 && buffering {
        ret := |q.items[i].block|;
        Reslice(i);
      }
      accepted := accepted + Accepts(old(State()), blk);
    }

    /** The loop of `EnqueueBlock` that cuts an overgrown chunk. */
    method Reslice(i: nat)
      requires q != null && q.Valid() && i < |q.items| && chunkSize > 0
      modifies q
      ensures q.Valid() && q.State() == Resliced(old(q.State()), i, chunkSize)
    {
      var blk := q.items[i].block;
      if |blk| > chunkSize {
        q.items := q.items[i := q.items[i].(block := blk[..chunkSize])];
        var pos := chunkSize;
        ghost var start := q.State();
        while pos < |blk|
          invariant 0 <= pos <= |blk| && q.Valid()
          invariant AddAll(q.State(), Chunks(chunkSize, blk[pos..])) == AddAll(start, Chunks(chunkSize, blk[chunkSize..]))
        {
          var end := if pos + chunkSize < |blk| then pos + chunkSize else |blk|;
          CutOne(chunkSize, blk, pos, end);
          AddAllOneByOne(q.State(), blk[pos..end], Chunks(chunkSize, blk[end..]));
          var _ := q.Add(blk[pos..end]);
          pos := end;
        }
        AddNothing(q.State(), Chunks(chunkSize, blk[pos..]));
      }
    }

    method Update() returns (n: nat)
      requires q != null ==> q.Valid()
      modifies it, q
      ensures (q != null ==> q.Valid()) && State() == OnUpdate(old(State()))
      ensures n == |old(it.pending)| - |it.pending|
      ensures n > 0 <==> Updatable(old(State()))
    {
      n := 0;
      while it.pending != [] && q != null && q.size > 0
        invariant q != null ==> q.Valid()
        invariant OnUpdate(State()) == OnUpdate(old(State()))
        invariant n == |old(it.pending)| - |it.pending|
        invariant n == 0 ==> State() == old(State())
        invariant n > 0 ==> Updatable(old(State()))
        decreases |it.pending|
      {
        var s := |q.items[0].block|;
        if !it.closing {
          if buffering && s < chunkSize {
            break;
          }
        }
        assert Updatable(State());
        var done := HandOne();
        if done {
          it.closed := true;
        }
        n := n + 1;
      }
    }

    method Next(argument: Value)
      requires Valid()
      modifies Repr()
      ensures Valid() && q == old(q) && State() == OnNext(old(State()), argument)
    {
      StepIsSound(old(State()), GenOp.Next(argument));
      hide Accounted;
      hide OnUpdate;
      hide Shaped;
      it.Next();
      Begin(argument);
      ghost var g1 := State();
      assert g1 == Begun(old(State()).(it := I.AfterNext(old(State()).it)), argument);
      var n := 0;
      if q != null {
        n := Update();
      }
      if n == 0 && (it.closing || it.closed) {
        // No read is pending here, so the flags the source sets after a successful stop stay.
        var taken := it.Stop(Undefined);
        if taken {
          assert false;
        }
      }
    }

    /** Starts the executor, or calls the callback. */
    method Begin(argument: Value)
      modifies this
      ensures q == old(q) && State() == Begun(old(State()), argument)
    {
      if executor {
        executor := false;
      } else if !started {
        Callback(argument);
        started := true;
      }
    }

    method Callback(argument: Value)
      modifies this
      ensures q == old(q) && State() == CalledBack(old(State()), argument)
    {
      if callback.Some? {
        calls := calls + [Call(callback.value, argument)];
        callback := None;
      }
    }

    method Write(data: Block) returns (ret: nat)
      requires Valid()
      modifies Repr()
      ensures Valid() && (q == old(q) || (old(q) == null && fresh(q)))
      ensures State() == OnWrite(old(State()), data)
      ensures ret == |data| + Merged(old(State()))
    {
      StepIsSound(old(State()), GenOp.Write(data));
      assert buffering ==> chunkSize > 0;
      hide OnEnqueue;
      hide OnDrain;
      hide Sound;
      if !buffering && !(q != null && q.continuous) && (q == null || q.size == 0) && it.pending != [] {
        var _ := it.Yield(Data(data));
        accepted := accepted + [data];
        ret := |data|;
      } else {
        ret := EnqueueBlock(data);
        DrainReads();
      }
    }

    /** The loop of `Write`. */
    method DrainReads()
      requires q != null && q.Valid()
      modifies it, q
      ensures q.Valid() && State() == OnDrain(old(State()))
    {
      while it.pending != [] && q != null && q.items != [] && |q.items[0].block| >= chunkSize
        invariant q != null && q.Valid()
        invariant OnDrain(State()) == OnDrain(old(State()))
        decreases |it.pending|
      {
        var _ := HandOne();
      }
    }

    /** Reports success even if the queue refused the value. */
    method Yield(value: Block) returns (ok: bool)
      requires Valid()
      modifies Repr()
      ensures Valid() && (q == old(q) || (old(q) == null && fresh(q)))
      ensures State() == OnYield(old(State()), value) && ok
    {
      StepIsSound(old(State()), GenOp.Yield(value));
      var taken := it.Yield(Data(value));
      var ret: int := |value|;
      if taken {
        accepted := accepted + [value];
      } else {
        ret := EnqueueBlock(value);
      }
      ok := ret >= 0;
    }

    method Enqueue(value: Block) returns (ret: nat)
      requires Valid()
      modifies Repr()
      ensures Valid() && (q == old(q) || (old(q) == null && fresh(q)))
      ensures State() == OnEnqueue(old(State()), value) && ret == |value| + Merged(old(State()))
    {
      StepIsSound(old(State()), GenOp.Enqueue(value));
      CreateQueue();
      ret := EnqueueBlock(value);
    }

    method Stop(last: Value) returns (ok: bool)
      requires Valid()
      modifies Repr()
      ensures Valid() && q == old(q) && State() == OnStop(old(State()), last)
      ensures ok == !old(State()).it.closed
    {
      StopIsSound(old(State()), last);
      hide QueueClosed;
      if it.closed {
        return false;
      }
      EndQueue();
      hide Sound;
      if it.pending != [] {
        var _ := it.Stop(last);
      } else {
        it.closing := true;
      }
      ok := true;
    }

    /** The part of `Stop` for the queue. */
    method EndQueue()
      requires Valid()
      modifies this, q
      ensures q == old(q) && (q != null ==> q.Valid()) && State() == QueueClosed(old(State()))
    {
      if q != null {
        q.Close();
        Collect();
      }
    }

    /** The part of `Stop` for continuous mode. */
    method Collect()
      requires q != null && q.Valid()
      modifies this, q
      ensures q == old(q) && q.Valid() && State() == Collected(old(State()))
    {
      if q.continuous {
        var i := q.FindLastChunk();
        if i >= 0 {
          var block := q.items[i].block;
          q.items := q.items[i := q.items[i].(block := [])];
          if callback.Some? {
            calls := calls + [Call(callback.value, if |block| > 0 then Data(block) else Undefined)];
          }
        }
      }
    }

    /** Leaves a valid generator exactly if the queue does not hold just its done marker. */
    method SetContinuous(fn: Option<nat>)
      requires Valid()
      modifies Repr()
      ensures q != null && q.Valid() && (q == old(q) || (old(q) == null && fresh(q)))
      ensures State() == OnContinuous(old(State()), fn)
      ensures Valid() <==> Allowed(old(State()), GenOp.SetContinuous(fn))
    {
      StepIsSoundExactlyIf(old(State()), GenOp.SetContinuous(fn));
      hide Sound;
      CreateQueue();
      q.Continuous();
      if fn.Some? {
        callback := fn;
      }
      q.continuous := true;
    }

    /** Leaves a valid generator exactly if the chunk size is not 0, with which slicing would not end. */
    method SetBuffering(size: nat)
      requires Valid()
      modifies Repr()
      ensures q != null && q.Valid() && (q == old(q) || (old(q) == null && fresh(q)))
      ensures State() == OnBuffering(old(State()), size)
      ensures Valid() <==> Allowed(old(State()), GenOp.SetBuffering(size))
    {
      StepIsSoundExactlyIf(old(State()), GenOp.SetBuffering(size));
      hide Sound;
      CreateQueue();
      chunkSize := size % UINT32;
      buffering := true;
    }

    /** `queue_close` on the generator's queue, as the Response constructor does it. */
    method CloseQueue()
      requires Valid() && q != null
      modifies Repr()
      ensures Valid() && q == old(q) && State() == OnCloseQueue(old(State()))
    {
      StepIsSound(old(State()), GenOp.CloseQueue);
      q.Close();
    }

    /** Leaves a valid generator exactly if it leaves no read pending. */
    method Finish() returns (called: bool)
      requires Valid() && q != null
      modifies Repr()
      ensures q == old(q) && q.Valid() && State() == OnFinish(old(State()))
      ensures Valid() <==> FinishSettles(old(State()))
      ensures called == (QueueOf(old(State())).continuous && old(callback).Some?)
    {
      FinishIsSound(old(State()));
      hide Sound;
      hide FinishSettles;
      hide OnUpdate;
      hide Shaped;
      hide FrontCalled;
      it.closing := true;
      if q.continuous && callback.Some? {
        CallWithFront();
        return true;
      }
      UpdateAndClose();
      return false;
    }

    /** The part of `Finish` for a callback. */
    method CallWithFront()
      requires q != null && q.Valid() && callback.Some?
      modifies this, q
      ensures q == old(q) && q.Valid() && State() == FrontCalled(old(State()), old(callback.value))
    {
      var block, done := q.Next();
      calls := calls + [Call(callback.value, if |block| > 0 then Data(block) else Undefined)];
    }

    /** The part of `Finish` without a callback. */
    method UpdateAndClose()
      requires q != null && q.Valid() && Shaped(QueueOf(OnUpdate(State())))
      modifies it, q
      ensures q.Valid() && State() == OnCloseQueue(OnUpdate(old(State())))
    {
      var _ := Update();
      q.Close();
    }
  }

  lemma CutOne(c: nat, blk: Block, pos: nat, end: nat)
    requires c > 0 && pos < |blk| && end == if pos + c < |blk| then pos + c else |blk|
    ensures Chunks(c, blk[pos..]) == [blk[pos..end]] + Chunks(c, blk[end..])
  {
    if end < |blk| {
      assert blk[pos..][..c] == blk[pos..end] && blk[pos..][c..] == blk[end..];
    } else {
      assert blk[pos..] == blk[pos..end] && blk[end..] == [];
    }
  }

  // ---------- soundness of every step ----------

  lemma StepIsSound(g: GenState, op: GenOp)
    requires Sound(g) && Allowed(g, op)
    ensures Sound(GenStep(g, op))
  {
    StepIsSoundExactlyIf(g, op);
  }

  /** Every operation keeps what is sound exactly if it is allowed. */
  lemma StepIsSoundExactlyIf(g: GenState, op: GenOp)
    requires Sound(g) && HasQueue(g, op)
    ensures Sound(GenStep(g, op)) <==> Allowed(g, op)
  {
    match op
    case Next(a) => NextIsSound(g, a);
    case Write(b) => WriteIsSound(g, b);
    case Yield(b) => YieldIsSound(g, b);
    case Enqueue(b) => EnqueueIsSound(g, b);
    case Stop(v) => StopIsSound(g, v);
    case CloseQueue =>
    case SetContinuous(cb) => StepKeepsShape(QueueOf(g), QueueOp.Continuous);
    case SetBuffering(c) =>
    case Finish => FinishIsSound(g);
  }

  lemma WriteIsSound(g: GenState, b: Block)
    requires Sound(g)
    ensures Sound(OnWrite(g, b))
  {
    EnqueueIsSound(g, b);
    DrainIsSound(OnEnqueue(g, b));
    StepAccounts(g.it, Emplace(Data(b), false));
  }

  lemma YieldIsSound(g: GenState, b: Block)
    requires Sound(g)
    ensures Sound(OnYield(g, b))
  {
    EnqueueIsSound(g, b);
    StepAccounts(g.it, Emplace(Data(b), false));
  }

  lemma StopIsSound(g: GenState, v: Value)
    requires Sound(g)
    ensures Sound(OnStop(g, v))
  {
    StepAccounts(g.it, IterOp.Stop(v));
    if g.q.Some? {
      CollectedIsSound(g.(q := Some(AfterClose(g.q.value))));
    }
  }

  lemma CollectedIsSound(g: GenState)
    requires Sound(g) && g.q.Some?
    ensures Sound(Collected(g)) && Collected(g).it == g.it
  {
  }

  lemma FinishIsSound(g: GenState)
    requires Sound(g)
    ensures Sound(OnFinish(g)) <==> FinishSettles(g)
    ensures Shaped(QueueOf(OnUpdate(g.(it := g.it.(closing := true)))))
  {
    var g1 := g.(it := g.it.(closing := true));
    StepKeepsShape(QueueOf(g), QueueOp.Next);
    ClosingUpdate(g1);
    StepKeepsShape(QueueOf(OnUpdate(g1)), QueueOp.Close);
    AccountedExactlyIf(g1.it);
    AccountedExactlyIf(OnUpdate(g1).it);
    hide OnUpdate;
    hide Shaped;
    hide Accounted;
    hide AfterClose;
    hide Q.AfterNext;
  }

  lemma AccountedExactlyIf(it: IterState)
    requires Accounted(it.(closed := false, closing := false)) && it.closing
    ensures Accounted(it) <==> it.pending == []
  {
  }

  /** Once the generator closes, items are handed over until there are no more reads or no more items. */
  lemma {:induction false} ClosingUpdate(g: GenState)
    requires g.it.closing && Accounted(g.it.(closed := false, closing := false)) && Shaped(QueueOf(g))
    ensures var g' := OnUpdate(g); var it := g'.it;
            && it.closing && Accounted(it.(closed := false, closing := false)) && Shaped(QueueOf(g'))
            && g' == g.(it := it, q := g'.q) && g'.q.Some? == g.q.Some?
            && (it.pending == [] <==>
                  g.it.pending == [] || Complete(QueueOf(g)) || |g.it.pending| <= |QueueOf(g).items|)
    decreases |g.it.pending|
  {
    if g.it.pending != [] && QueueOf(g).items != [] {
      var front := Front(QueueOf(g));
      StepAccounts(g.it.(closed := false, closing := false), Emplace(ValueOf(front.block), front.done));
      StepKeepsShape(QueueOf(g), QueueOp.Next);
      CompleteStays(QueueOf(g));
      ClosingUpdate(Closing(Handed(g), front.done));
    }
  }

  lemma CompleteStays(q: QueueState)
    requires Shaped(q) && q.items != []
    ensures Complete(Q.AfterNext(q)) == Complete(q)
    ensures Front(q).done ==> Complete(q)
    ensures !Front(q).done ==> |Q.AfterNext(q).items| == |q.items| - 1
  {
  }

  lemma EnqueueIsSound(g: GenState, blk: Block)
    requires Sound(g)
    ensures Sound(OnEnqueue(g, blk))
  {
    hide BufferedPut;
    hide Shaped;
    hide Q.AfterWrite;
    hide Accounted;
    StepKeepsShape(QueueOf(g), QueueOp.Write(blk));
    PutKeepsShape(QueueOf(g), blk, g.chunkSize);
  }

  lemma PutKeepsShape(q: QueueState, blk: Block, c: nat)
    requires Shaped(q)
    ensures Shaped(BufferedPut(q, blk, c))
  {
    var open := q.(continuous := true);
    StepKeepsShape(open, QueueOp.Write(blk));
    var i := TookWrite(open);
    if i >= 0 {
      assert !Q.AfterWrite(open, blk).items[i].done;
      hide Q.AfterWrite;
      ResliceKeepsShape(Q.AfterWrite(open, blk).(continuous := false), i, c);
    }
  }

  lemma ResliceKeepsShape(q: QueueState, i: nat, c: nat)
    requires Shaped(q) && i < |q.items| && !q.items[i].done
    ensures Shaped(Resliced(q, i, c))
  {
    hide Chunks;
  }

  lemma HandedIsSound(g: GenState)
    requires Sound(g) && g.it.pending != []
    ensures Sound(Handed(g))
  {
    StepAccounts(g.it, Emplace(ValueOf(Front(QueueOf(g)).block), Front(QueueOf(g)).done));
  }

  lemma {:induction false} DrainIsSound(g: GenState)
    requires Sound(g)
    ensures Sound(OnDrain(g))
    decreases |g.it.pending|
  {
    if g.it.pending != [] {
      HandedIsSound(g);
      DrainIsSound(Handed(g));
    }
  }

  /** Once the done marker is reached, every pending read gets it. */
  lemma {:induction false} DoneReachesAll(g: GenState)
    requires QueueOf(g).items == [Item([], true)] && (g.it.pending != [] ==> Updatable(g))
    requires Accounted(g.it.(closed := false, closing := false))
    ensures OnUpdate(g) == g.(it := OnUpdate(g).it) && OnUpdate(g).it.pending == []
    ensures Accounted(OnUpdate(g).it)
    decreases |g.it.pending|
  {
    if g.it.pending != [] {
      StepAccounts(g.it.(closed := false, closing := false), Emplace(Undefined, true));
      DoneReachesAll(Closing(Handed(g), true));
    }
  }

  lemma {:induction false} UpdateIsSound(g: GenState)
    requires Sound(g)
    ensures Sound(OnUpdate(g))
    decreases |g.it.pending|
  {
    if Updatable(g) {
      if Front(QueueOf(g)).done {
        assert QueueOf(g).items == [Item([], true)];
        DoneReachesAll(g);
      } else {
        HandedIsSound(g);
        UpdateIsSound(Handed(g));
      }
    }
  }

  lemma NextIsSound(g: GenState, argument: Value)
    requires Sound(g)
    ensures Sound(OnNext(g, argument))
  {
    StepAccounts(g.it, IterOp.Next);
    var g1 := Begun(g.(it := I.AfterNext(g.it)), argument);
    assert Sound(g1);
    UpdateIsSound(g1);
    StepAccounts(g1.it, IterOp.Stop(Undefined));
  }
}

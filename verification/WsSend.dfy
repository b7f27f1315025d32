/** The server's WebSocket send queue (lib/ws.c, lib/session.c): messages wait for writeable events,
    which have to be asked for. */
module WsSend {
  import opened Bytes
  import opened Queues
  import Q = Queues

  /** `wire` lists the messages passed to the connection. */
  datatype Sender = Sender(wantWrite: bool, sendq: QueueState, wire: seq<Block>)

  const IDLE := Sender(false, EMPTY, [])

  /** A refused message asks for nothing. */
  function AfterEnqueue(s: Sender, message: Block): Sender {
    if Complete(s.sendq) then s
    else s.(sendq := AfterAdd(s.sendq, message), wantWrite := true)
  }

  function AfterWritable(s: Sender): Sender {
    var rest := Q.AfterNext(s.sendq);
    Sender(Data(rest) != [], rest,
           if s.sendq.items == [] then s.wire else s.wire + [Front(s.sendq).block])
  }

  class WsSession {
    var wantWrite: bool
    const sendq: Queue
    ghost var wire: seq<Block>

    ghost function State(): Sender
      reads this, sendq
    {
      Sender(wantWrite, sendq.State(), wire)
    }

    constructor ()
      ensures sendq.Valid() && State() == IDLE && fresh(sendq)
    {
      wantWrite, wire := false, [];
      sendq := new Queue();
    }

    method WantWrite()
      modifies this
      ensures State() == old(State()).(wantWrite := true)
    {
      if !wantWrite {
        wantWrite := true;
      }
    }

    /** `ws_enqueue`. */
    method Enqueue(message: Block) returns (taken: bool)
      requires sendq.Valid()
      modifies this, sendq
      ensures sendq.Valid() && State() == AfterEnqueue(old(State()), message)
      ensures taken == !Complete(old(sendq.State()))
      ensures !taken ==> State() == old(State())
      ensures taken ==> wantWrite && sendq.items == old(sendq.items) + [Item(message, false)] && wire == old(wire)
    {
      var i := sendq.Add(message);
      taken := i >= 0;
      if taken {
        WantWrite();
      }
    }

    /** `session_writable`. */
    method Writable()
      requires sendq.Valid()
      modifies this, sendq
      ensures sendq.Valid() && State() == AfterWritable(old(State()))
    {
      wantWrite := false;
      if sendq.size > 0 {
        var chunk, done := sendq.Next();
        wire := wire + [chunk];
      }
      var bytes := sendq.ByteCount();
      if bytes > 0 {
        WantWrite();
      }
    }
  }

  // ---------- runs ----------

  datatype SendOp = Enqueue(message: Block) | Writable

  function SendStep(s: Sender, op: SendOp): Sender {
    match op
    case Enqueue(m) => AfterEnqueue(s, m)
    case Writable => AfterWritable(s)
  }

  function SendRun(s: Sender, ops: seq<SendOp>): Sender
    decreases ops
  {
    if ops == [] then s else SendRun(SendStep(s, ops[0]), ops[1..])
  }

  function Enqueued(ops: seq<SendOp>): seq<Block> {
    if ops == [] then []
    else EnqueuedBy(ops[0]) + Enqueued(ops[1..])
  }

  /** Unsent bytes keep a write wanted, and messages neither get lost nor change places. */
  ghost predicate Awake(s: Sender, messages: seq<Block>) {
    && (forall i :: 0 <= i < |s.sendq.items| ==> !s.sendq.items[i].done)
    && s.wire + Blocks(s.sendq.items) == messages
    && (Data(s.sendq) != [] ==> s.wantWrite)
  }

  lemma EnqueueStep(s: Sender, messages: seq<Block>, m: Block)
    requires Awake(s, messages)
    ensures Awake(AfterEnqueue(s, m), messages + [m])
  {
    assert Blocks(s.sendq.items + [Item(m, false)]) == Blocks(s.sendq.items) + [m];
    assert s.wire + Blocks(s.sendq.items) + [m] == s.wire + (Blocks(s.sendq.items) + [m]);
  }

  lemma WritableStep(s: Sender, messages: seq<Block>)
    requires Awake(s, messages)
    ensures Awake(AfterWritable(s), messages)
  {
    hide Flatten;
    if s.sendq.items != [] {
      assert Blocks(s.sendq.items[1..]) == Blocks(s.sendq.items)[1..];
      MoveFirst(s.wire, Blocks(s.sendq.items));
    }
  }

  lemma MoveFirst(sent: seq<Block>, waiting: seq<Block>)
    requires waiting != []
    ensures sent + [waiting[0]] + waiting[1..] == sent + waiting
  {
  }

  function EnqueuedBy(op: SendOp): seq<Block> {
    if op.Enqueue? then [op.message] else []
  }

  lemma AwakeStep(s: Sender, messages: seq<Block>, op: SendOp)
    requires Awake(s, messages)
    ensures Awake(SendStep(s, op), messages + EnqueuedBy(op))
  {
    match op
    case Enqueue(m) => EnqueueStep(s, messages, m);
    case Writable =>
      WritableStep(s, messages);
      assert messages + [] == messages;
  }

  lemma {:induction false} AwakeRun(s: Sender, messages: seq<Block>, ops: seq<SendOp>)
    requires Awake(s, messages)
    ensures Awake(SendRun(s, ops), messages + Enqueued(ops))
    decreases ops
  {
    if ops == [] {
      assert messages + [] == messages;
    } else {
      hide Awake;
      AwakeStep(s, messages, ops[0]);
      AwakeRun(SendStep(s, ops[0]), messages + EnqueuedBy(ops[0]), ops[1..]);
      Associate(messages, EnqueuedBy(ops[0]), Enqueued(ops[1..]));
    }
  }

  /** No lost wake-up, in every run: the messages written are a prefix of those enqueued, in order,
      and the rest is queued; unsent bytes imply that a write is wanted, so that whatever waits
      without one is empty messages. */
  lemma NoLostWakeUp(ops: seq<SendOp>)
    ensures var s := SendRun(IDLE, ops);
            && s.wire + Blocks(s.sendq.items) == Enqueued(ops)
            && (Data(s.sendq) != [] ==> s.wantWrite)
            && (!s.wantWrite ==> forall i :: 0 <= i < |s.sendq.items| ==> s.sendq.items[i].block == [])
  {
    assert Awake(IDLE, []);
    AwakeRun(IDLE, [], ops);
    assert [] + Enqueued(ops) == Enqueued(ops);
    var s := SendRun(IDLE, ops);
    if !s.wantWrite {
      FlattenIsEmpty(Blocks(s.sendq.items));
      assert forall i :: 0 <= i < |s.sendq.items| ==> s.sendq.items[i].block == Blocks(s.sendq.items)[i];
    }
  }

  function Writables(n: nat): seq<SendOp> {
    if n == 0 then [] else [Writable] + Writables(n - 1)
  }

  /** As many writeable events as messages wait send all of them, in order, if all these events come. */
  lemma {:induction false} WritablesFlush(s: Sender, messages: seq<Block>)
    requires Awake(s, messages)
    ensures var s' := SendRun(s, Writables(|s.sendq.items|)); s'.wire == messages && s'.sendq.items == []
    decreases |s.sendq.items|
  {
    if s.sendq.items == [] {
      assert s.wire + [] == s.wire;
    } else {
      WritableStep(s, messages);
      WritablesFlush(AfterWritable(s), messages);
      var n := |s.sendq.items|;
      assert Writables(n)[1..] == Writables(n - 1);
    }
  }

  predicate NoneDone(s: Sender) {
    forall i :: 0 <= i < |s.sendq.items| ==> !s.sendq.items[i].done
  }

  /** The events that do come: one after the other while a write is wanted. */
  function Pumped(s: Sender): Sender
    requires NoneDone(s)
    decreases |s.sendq.items|, s.wantWrite
  {
    if s.wantWrite then Pumped(AfterWritable(s)) else s
  }

  /** Are messages left behind? Exactly if the last of several is empty. */
  predicate EndsWithContent(waiting: seq<Block>) {
    |waiting| <= 1 || waiting[|waiting| - 1] != []
  }

  lemma AnotherIsWanted(waiting: seq<Block>)
    requires waiting != []
    ensures |waiting| > 1 && EndsWithContent(waiting) ==> Flatten(waiting[1..]) != []
    ensures Flatten(waiting[1..]) != [] ==> (EndsWithContent(waiting) <==> EndsWithContent(waiting[1..]))
  {
    var rest := waiting[1..];
    FlattenIsEmpty(rest);
    if |rest| == 1 && Flatten(rest) != [] {
      assert rest[0] != [];
    }
    assert |rest| > 0 ==> rest[|rest| - 1] == waiting[|waiting| - 1];
  }

  /** Once a write is wanted, the events asked for send every message that waits exactly if there is one at
      most, or the last one is not empty; what they leave behind is empty messages only. */
  lemma {:induction false} PumpEmptiesExactlyIf(s: Sender, messages: seq<Block>)
    requires Awake(s, messages) && s.wantWrite
    ensures var s' := Pumped(s);
            && Awake(s', messages) && !s'.wantWrite
            && (s'.sendq.items == [] <==> EndsWithContent(Blocks(s.sendq.items)))
            && (forall i :: 0 <= i < |s'.sendq.items| ==> s'.sendq.items[i].block == [])
    decreases |s.sendq.items|
  {
    var s1, waiting := AfterWritable(s), Blocks(s.sendq.items);
    WritableStep(s, messages);
    if s.sendq.items != [] {
      assert Blocks(s1.sendq.items) == waiting[1..];
      AnotherIsWanted(waiting);
    } else {
      assert Flatten(Blocks(s1.sendq.items)) == [];
    }
    if s1.wantWrite {
      PumpEmptiesExactlyIf(s1, messages);
    } else {
      FlattenIsEmpty(Blocks(s1.sendq.items));
      assert forall i :: 0 <= i < |s1.sendq.items| ==> s1.sendq.items[i].block == Blocks(s1.sendq.items)[i];
      assert Pumped(s1) == s1;
    }
  }

  /** For one, an empty message behind a single other one. */
  lemma EmptyMessageIsStranded()
    ensures var s := SendRun(IDLE, [Enqueue([1]), Enqueue([]), Writable]);
            s.wire == [[1]] && s.sendq.items == [Item([], false)] && !s.wantWrite
  {
    var s1 := AfterEnqueue(IDLE, [1]);
    var s2 := AfterEnqueue(s1, []);
    var s3 := AfterWritable(s2);
    assert [] + [Item([1], false)] == [Item([1], false)];
    assert s2.sendq.items == [Item([1], false), Item([], false)];
    assert s2.sendq.items[1..] == [Item([], false)];
    assert Blocks([Item([], false)]) == [[]];
    FlattenOne<byte>([]);
    var ops := [Enqueue([1]), Enqueue([]), Writable];
    assert ops[1..] == [Enqueue([]), Writable] && ops[1..][1..] == [Writable];
    assert SendRun(s2, [Writable]) == s3;
    assert SendRun(s1, [Enqueue([]), Writable]) == s3;
  }
}

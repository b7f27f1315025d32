/** The client's WebSocket receive path (the RECEIVE case of client_callback in
    src/minnet-client.c): fragments are joined into messages (section 5.4 of RFC 6455), or, in
    line-buffered mode, cut into lines. */
module Receive {
  import opened Bytes
  import opened Queues
  import Q = Queues

  /** A receive callback. Raw sockets have no fragments: every raw read is first and final. */
  datatype Frame = Frame(raw: bool, firstFragment: bool, finalFragment: bool, data: Block)
  {
    predicate First() { raw || firstFragment }
    predicate Final() { raw || finalFragment }
  }

  /** `out` lists the messages handed to the generator or to the message callback. */
  datatype RecvState = RecvState(q: Option<QueueState>, lineBuffered: bool, out: seq<Block>)

  function Waiting(s: RecvState): QueueState {
    if s.q.Some? then s.q.value else EMPTY
  }

  /** What draining emits: every item, up to and with a done marker. */
  function Emitted(items: seq<Item>): seq<Block> {
    if items == [] then []
    else if items[0].done then [items[0].block]
    else [items[0].block] + Emitted(items[1..])
  }

  function AfterDrain(q: QueueState): QueueState {
    QueueState(Undrained(q.items), q.continuous)
  }

  function Undrained(items: seq<Item>): seq<Item> {
    if items == [] || items[0].done then items else Undrained(items[1..])
  }

  function Enqueued(s: RecvState, f: Frame): QueueState {
    if s.lineBuffered then AfterPutLine(Waiting(s), f.data)
    else if f.First() then AfterWrite(Waiting(s), f.data)
    else AfterAppend(Waiting(s), f.data)
  }

  function AfterReceive(s: RecvState, f: Frame): RecvState {
    if f.First() && f.Final() && !s.lineBuffered then
      s.(out := s.out + [f.data])
    else if f.Final() then
      var q := Enqueued(s, f);
      s.(q := Some(AfterDrain(q)), out := s.out + Emitted(q.items))
    else
      s.(q := Some(Enqueued(s, f)))
  }

  function RecvRun(s: RecvState, frames: seq<Frame>): RecvState
    decreases frames
  {
    if frames == [] then s else RecvRun(AfterReceive(s, frames[0]), frames[1..])
  }

  class Client {
    var recvq: Queue?
    const lineBuffered: bool
    ghost var out: seq<Block>

    ghost function State(): RecvState
      reads this, recvq
    {
      RecvState(if recvq == null then None else Some(recvq.State()), lineBuffered, out)
    }

    ghost predicate Valid()
      reads this, recvq
    {
      recvq != null ==> recvq.Valid()
    }

    constructor (lineBuffered: bool)
      ensures Valid() && State() == RecvState(None, lineBuffered, [])
    {
      recvq, this.lineBuffered, out := null, lineBuffered, [];
    }

    method Receive(f: Frame)
      requires Valid()
      modifies this, recvq
      ensures Valid() && (recvq == old(recvq) || (old(recvq) == null && fresh(recvq)))
      ensures State() == AfterReceive(old(State()), f)
    {
      var first, final := f.raw || f.firstFragment, f.raw || f.finalFragment;
      var singleFragment := first && final && !lineBuffered;
      if !singleFragment {
        if recvq == null {
          recvq := new Queue();
        }
        if lineBuffered {
          var _ := recvq.PutLine(f.data);
        } else if first {
          var _ := recvq.Write(f.data);
        } else {
          var _ := recvq.Append(f.data);
        }
      }
      if final {
        if singleFragment {
          out := out + [f.data];
        } else {
          Drain();
        }
      }
    }

    /** The loop over the queue once the final fragment is in. */
    method Drain()
      requires recvq != null && recvq.Valid()
      modifies this, recvq
      ensures recvq == old(recvq) && recvq.Valid()
      ensures recvq.State() == AfterDrain(old(recvq.State())) && out == old(out) + Emitted(old(recvq.items))
    {
      assert old(out) + Emitted(old(recvq.items)) == out + Emitted(recvq.items);
      while recvq.size > 0
        invariant recvq == old(recvq) && recvq.Valid() && recvq.continuous == old(recvq.continuous)
        invariant Undrained(recvq.items) == Undrained(old(recvq.items))
        invariant out + Emitted(recvq.items) == old(out) + Emitted(old(recvq.items))
        decreases |recvq.items|
      {
        ghost var items := recvq.items;
        var block, done := recvq.Next();
        out := out + [block];
        if done {
          return;
        }
        assert Emitted(items) == [block] + Emitted(items[1..]);
      }
      assert recvq.items == [];
    }
  }

  // ---------- messages and their fragments ----------

  /** The frames of one message, cut into the given fragments. */
  function FramesFrom(fragments: seq<Block>, first: bool): seq<Frame>
    decreases fragments
  {
    if fragments == [] then []
    else [Frame(false, first, |fragments| == 1, fragments[0])] + FramesFrom(fragments[1..], false)
  }

  function AllFrames(messages: seq<seq<Block>>): seq<Frame> {
    if messages == [] then [] else FramesFrom(messages[0], true) + AllFrames(messages[1..])
  }

  function Messages(messages: seq<seq<Block>>): seq<Block> {
    if messages == [] then [] else [Flatten(messages[0])] + Messages(messages[1..])
  }

  function LinesOf(messages: seq<seq<Block>>): seq<Block> {
    if messages == [] then [] else SplitLines(Flatten(messages[0])) + LinesOf(messages[1..])
  }

  /** Between any two callbacks the queue holds at most one item. */
  ghost predicate HoldsAtMostOne(s: RecvState, frames: seq<Frame>)
    decreases frames
  {
    && |Waiting(s).items| <= 1
    && (frames != [] ==> HoldsAtMostOne(AfterReceive(s, frames[0]), frames[1..]))
  }

  lemma {:induction false} RunInTwo(s: RecvState, a: seq<Frame>, b: seq<Frame>)
    ensures RecvRun(s, a + b) == RecvRun(RecvRun(s, a), b)
    ensures HoldsAtMostOne(s, a) && HoldsAtMostOne(RecvRun(s, a), b) ==> HoldsAtMostOne(s, a + b)
    decreases a
  {
    if a == [] {
      assert a + b == b;
    } else {
      assert (a + b)[0] == a[0] && (a + b)[1..] == a[1..] + b;
      RunInTwo(AfterReceive(s, a[0]), a[1..], b);
    }
  }

  ghost predicate Idle(s: RecvState) {
    Waiting(s) == EMPTY
  }

  /** In the middle of a message its bytes so far wait as one item. */
  lemma {:induction false} RestOfMessage(s: RecvState, sofar: Block, fragments: seq<Block>)
    requires !s.lineBuffered && s.q == Some(QueueState([Item(sofar, false)], false)) && fragments != []
    ensures var s' := RecvRun(s, FramesFrom(fragments, false));
            && Idle(s') && !s'.lineBuffered && s'.out == s.out + [sofar + Flatten(fragments)]
            && HoldsAtMostOne(s, FramesFrom(fragments, false))
    decreases fragments
  {
    var frames := FramesFrom(fragments, false);
    var s1 := AfterReceive(s, frames[0]);
    assert frames[1..] == FramesFrom(fragments[1..], false);
    assert LastChunk([Item(sofar, false)]) == 0;
    assert [Item(sofar, false)][0 := Item(sofar + fragments[0], false)] == [Item(sofar + fragments[0], false)];
    if |fragments| == 1 {
      FlattenOne(fragments[0]);
      EmittedOne(sofar + fragments[0]);
    } else {
      RestOfMessage(s1, sofar + fragments[0], fragments[1..]);
      assert sofar + fragments[0] + Flatten(fragments[1..]) == sofar + Flatten(fragments);
    }
  }

  lemma EmittedOne(block: Block)
    ensures Emitted([Item(block, false)]) == [block] && Undrained([Item(block, false)]) == []
  {
    assert [Item(block, false)][1..] == [];
  }

  lemma OneMessage(s: RecvState, fragments: seq<Block>)
    requires !s.lineBuffered && Idle(s) && fragments != []
    ensures var s' := RecvRun(s, FramesFrom(fragments, true));
            && Idle(s') && !s'.lineBuffered && s'.out == s.out + [Flatten(fragments)]
            && HoldsAtMostOne(s, FramesFrom(fragments, true))
  {
    var frames := FramesFrom(fragments, true);
    assert frames[1..] == FramesFrom(fragments[1..], false);
    if |fragments| == 1 {
      FlattenOne(fragments[0]);
    } else {
      assert [] + [Item(fragments[0], false)] == [Item(fragments[0], false)];
      RestOfMessage(AfterReceive(s, frames[0]), fragments[0], fragments[1..]);
    }
  }

  /** Reassembly: for every sequence of messages and every way to fragment each, the receiver
      emits exactly these messages, and between callbacks it holds at most one item. */
  lemma {:induction false} ReassemblesFrom(s: RecvState, messages: seq<seq<Block>>)
    requires !s.lineBuffered && Idle(s)
    requires forall i :: 0 <= i < |messages| ==> messages[i] != []
    ensures var s' := RecvRun(s, AllFrames(messages));
            && Idle(s') && s'.out == s.out + Messages(messages)
            && HoldsAtMostOne(s, AllFrames(messages))
    decreases messages
  {
    if messages != [] {
      var s1 := RecvRun(s, FramesFrom(messages[0], true));
      OneMessage(s, messages[0]);
      ReassemblesFrom(s1, messages[1..]);
      RunInTwo(s, FramesFrom(messages[0], true), AllFrames(messages[1..]));
      assert s.out + [Flatten(messages[0])] + Messages(messages[1..]) == s.out + Messages(messages);
    }
  }

  lemma Reassembly(messages: seq<seq<Block>>)
    requires forall i :: 0 <= i < |messages| ==> messages[i] != []
    ensures var s := RecvState(None, false, []);
            && RecvRun(s, AllFrames(messages)).out == Messages(messages)
            && HoldsAtMostOne(s, AllFrames(messages))
  {
    ReassemblesFrom(RecvState(None, false, []), messages);
    assert [] + Messages(messages) == Messages(messages);
  }

  // ---------- lines ----------

  lemma {:induction false} EmittedLines(items: seq<Item>)
    requires forall i :: 0 <= i < |items| ==> !items[i].done
    ensures Emitted(items) == Blocks(items) && Undrained(items) == []
  {
    if items != [] {
      EmittedLines(items[1..]);
      assert Blocks(items) == [items[0].block] + Blocks(items[1..]);
    }
  }

  /** A message's lines wait until its final fragment is in. */
  lemma {:induction false} RestOfLines(s: RecvState, fragments: seq<Block>, first: bool)
    requires s.lineBuffered && HoldsLines(Waiting(s)) && !Waiting(s).continuous && fragments != []
    ensures var s' := RecvRun(s, FramesFrom(fragments, first));
            Idle(s') && s'.lineBuffered && s'.out == s.out + SplitLines(Data(Waiting(s)) + Flatten(fragments))
    decreases fragments
  {
    hide SplitLines;
    hide AfterPutLine;
    hide Flatten;
    var frames, q := FramesFrom(fragments, first), AfterPutLine(Waiting(s), fragments[0]);
    assert Flatten(fragments) == fragments[0] + Flatten(fragments[1..]) by {
      assert fragments == [fragments[0]] + fragments[1..];
      FlattenCons(fragments[0], fragments[1..]);
    }
    PutLineIsCanonical(Waiting(s), fragments[0]);
    assert frames[1..] == FramesFrom(fragments[1..], false);
    if |fragments| == 1 {
      assert fragments == [fragments[0]];
      FlattenOne(fragments[0]);
      EmittedLines(q.items);
    } else {
      RestOfLines(AfterReceive(s, frames[0]), fragments[1..], false);
      assert Data(Waiting(s)) + fragments[0] + Flatten(fragments[1..]) == Data(Waiting(s)) + Flatten(fragments);
    }
  }

  lemma OneMessageOfLines(s: RecvState, fragments: seq<Block>)
    requires s.lineBuffered && Idle(s) && fragments != []
    ensures var s' := RecvRun(s, FramesFrom(fragments, true));
            Idle(s') && s'.lineBuffered && s'.out == s.out + SplitLines(Flatten(fragments))
  {
    assert Data(EMPTY) == [];
    assert [] + Flatten(fragments) == Flatten(fragments);
    RestOfLines(s, fragments, true);
  }

  lemma {:induction false} LinesFrom(s: RecvState, messages: seq<seq<Block>>)
    requires s.lineBuffered && Idle(s)
    requires forall i :: 0 <= i < |messages| ==> messages[i] != []
    ensures var s' := RecvRun(s, AllFrames(messages)); Idle(s') && s'.out == s.out + LinesOf(messages)
    decreases messages
  {
    if messages != [] {
      hide SplitLines;
      hide Flatten;
      hide AfterReceive;
      var s1 := RecvRun(s, FramesFrom(messages[0], true));
      OneMessageOfLines(s, messages[0]);
      LinesFrom(s1, messages[1..]);
      RunInTwo(s, FramesFrom(messages[0], true), AllFrames(messages[1..]));
      Associate(s.out, SplitLines(Flatten(messages[0])), LinesOf(messages[1..]));
    }
  }

  /** Line-buffered mode: for every way to fragment the messages, what is emitted is the lines of
      each message, in order, and nothing waits between messages. */
  lemma LineBuffering(messages: seq<seq<Block>>)
    requires forall i :: 0 <= i < |messages| ==> messages[i] != []
    ensures var s := RecvRun(RecvState(None, true, []), AllFrames(messages));
            Idle(s) && s.out == LinesOf(messages)
  {
    LinesFrom(RecvState(None, true, []), messages);
    assert [] + LinesOf(messages) == LinesOf(messages);
  }

  // ---------- raw reads ----------

  function DataOf(frames: seq<Frame>): (r: seq<Block>)
    ensures |r| == |frames| && forall i :: 0 <= i < |r| ==> r[i] == frames[i].data
  {
    if frames == [] then [] else [frames[0].data] + DataOf(frames[1..])
  }

  /** Raw reads, whatever fragment flags come with them, are emitted as they are, past anything queued. */
  lemma {:induction false} RawReads(s: RecvState, frames: seq<Frame>)
    requires !s.lineBuffered && forall i :: 0 <= i < |frames| ==> frames[i].raw
    ensures RecvRun(s, frames) == s.(out := s.out + DataOf(frames))
    decreases frames
  {
    if frames == [] {
      assert s.out + [] == s.out;
    } else {
      RawReads(AfterReceive(s, frames[0]), frames[1..]);
      Associate(s.out, [frames[0].data], DataOf(frames[1..]));
    }
  }

  function LinesOfEach(received: seq<Block>): seq<Block> {
    if received == [] then [] else SplitLines(received[0]) + LinesOfEach(received[1..])
  }

  /** Line-buffered, each raw read is emitted line by line, a last line without newline included. */
  lemma {:induction false} RawLines(s: RecvState, frames: seq<Frame>)
    requires s.lineBuffered && Idle(s) && forall i :: 0 <= i < |frames| ==> frames[i].raw
    ensures var s' := RecvRun(s, frames); Idle(s') && s'.out == s.out + LinesOfEach(DataOf(frames))
    decreases frames
  {
    if frames == [] {
      assert s.out + [] == s.out;
    } else {
      hide SplitLines;
      hide AfterPutLine;
      var q := AfterPutLine(EMPTY, frames[0].data);
      PutLineIsCanonical(EMPTY, frames[0].data);
      assert Data(EMPTY) == [] && [] + frames[0].data == frames[0].data;
      EmittedLines(q.items);
      RawLines(AfterReceive(s, frames[0]), frames[1..]);
      assert DataOf(frames)[1..] == DataOf(frames[1..]);
      Associate(s.out, SplitLines(frames[0].data), LinesOfEach(DataOf(frames[1..])));
    }
  }

  // ---------- messages that are broken off ----------

  /** The frames of a message that is broken off: none is final. */
  function Unfinished(fragments: seq<Block>, first: bool): seq<Frame>
    decreases fragments
  {
    if fragments == [] then []
    else [Frame(false, first, false, fragments[0])] + Unfinished(fragments[1..], false)
  }

  function AllUnfinished(messages: seq<seq<Block>>): seq<Frame> {
    if messages == [] then [] else Unfinished(messages[0], true) + AllUnfinished(messages[1..])
  }

  /** These messages wait, each as one item. */
  predicate Keeps(s: RecvState, waiting: seq<Block>) {
    !s.lineBuffered && Waiting(s) == QueueState(ItemsOf(waiting), false)
  }

  lemma KeepsMore(s: RecvState, waiting: seq<Block>, f: Frame)
    requires Keeps(s, waiting) && !f.raw && !f.finalFragment
    ensures var s' := AfterReceive(s, f); s'.out == s.out
    ensures f.firstFragment ==> Keeps(AfterReceive(s, f), waiting + [f.data])
    ensures !f.firstFragment && waiting != [] ==>
              Keeps(AfterReceive(s, f), waiting[..|waiting| - 1] + [waiting[|waiting| - 1] + f.data])
  {
    var q := Waiting(s);
    LastOfOpenQueue(q);
    if f.firstFragment {
      assert ItemsOf(waiting + [f.data]) == ItemsOf(waiting) + [Item(f.data, false)];
    } else if waiting != [] {
      var n, longer := |waiting| - 1, waiting[|waiting| - 1] + f.data;
      assert ItemsOf(waiting[..n] + [longer]) == ItemsOf(waiting)[n := Item(longer, false)];
    }
  }

  lemma {:induction false} RestUnfinished(s: RecvState, front: seq<Block>, sofar: Block, fragments: seq<Block>)
    requires Keeps(s, front + [sofar])
    ensures var s' := RecvRun(s, Unfinished(fragments, false));
            Keeps(s', front + [sofar + Flatten(fragments)]) && s'.out == s.out
    decreases fragments
  {
    if fragments == [] {
      assert sofar + [] == sofar;
    } else {
      var f := Frame(false, false, false, fragments[0]);
      KeepsMore(s, front + [sofar], f);
      assert (front + [sofar])[..|front|] == front;
      RestUnfinished(AfterReceive(s, f), front, sofar + fragments[0], fragments[1..]);
      assert Unfinished(fragments, false)[1..] == Unfinished(fragments[1..], false);
      Associate(sofar, fragments[0], Flatten(fragments[1..]));
    }
  }

  lemma {:induction false} UnfinishedWait(s: RecvState, front: seq<Block>, messages: seq<seq<Block>>)
    requires Keeps(s, front) && forall i :: 0 <= i < |messages| ==> messages[i] != []
    ensures var s' := RecvRun(s, AllUnfinished(messages)); Keeps(s', front + Messages(messages)) && s'.out == s.out
    decreases messages
  {
    if messages == [] {
      assert front + [] == front;
    } else {
      var m := messages[0];
      var f := Frame(false, true, false, m[0]);
      KeepsMore(s, front, f);
      RestUnfinished(AfterReceive(s, f), front, m[0], m[1..]);
      assert Unfinished(m, true)[1..] == Unfinished(m[1..], false);
      var s1 := RecvRun(s, Unfinished(m, true));
      UnfinishedWait(s1, front + [Flatten(m)], messages[1..]);
      RunInTwo(s, Unfinished(m, true), AllUnfinished(messages[1..]));
      Associate(front, [Flatten(m)], Messages(messages[1..]));
    }
  }

  lemma {:induction false} EmittedAll(blocks: seq<Block>)
    ensures Emitted(ItemsOf(blocks)) == blocks && Undrained(ItemsOf(blocks)) == []
  {
    EmittedLines(ItemsOf(blocks));
    assert Blocks(ItemsOf(blocks)) == blocks;
  }

  /** Messages broken off by the first fragment of another stay apart: with the end of one of several fragments
      each is emitted as a message of its own, in order. A message of a single fragment, though, is emitted at
      once, past those that wait, and leaves them where they are. */
  lemma BrokenOffMessages(messages: seq<seq<Block>>, last: seq<Block>)
    requires last != [] && forall i :: 0 <= i < |messages| ==> messages[i] != []
    ensures var s := RecvRun(RecvState(None, false, []), AllUnfinished(messages) + FramesFrom(last, true));
            if |last| == 1 then s.out == last && Keeps(s, Messages(messages))
            else s.out == Messages(messages) + [Flatten(last)] && Idle(s)
  {
    var s0 := RecvState(None, false, []);
    var s1 := RecvRun(s0, AllUnfinished(messages));
    UnfinishedWait(s0, [], messages);
    assert [] + Messages(messages) == Messages(messages);
    RunInTwo(s0, AllUnfinished(messages), FramesFrom(last, true));
    if |last| == 1 {
      assert FramesFrom(last, true)[1..] == [];
    } else {
      FinishesAll(s1, Messages(messages), last);
    }
  }

  /** The frames of a message but the final one. */
  lemma {:induction false} AllButFinal(fragments: seq<Block>, first: bool)
    requires fragments != []
    ensures var n := |fragments| - 1;
            FramesFrom(fragments, first) ==
            Unfinished(fragments[..n], first) + [Frame(false, first && n == 0, true, fragments[n])]
    decreases fragments
  {
    if |fragments| > 1 {
      AllButFinal(fragments[1..], false);
      assert fragments[1..][..|fragments| - 2] == fragments[..|fragments| - 1][1..];
    } else {
      assert FramesFrom(fragments[1..], false) == [];
    }
  }

  lemma FinalContinuation(s: RecvState, front: seq<Block>, sofar: Block, data: Block)
    requires Keeps(s, front + [sofar])
    ensures var s' := AfterReceive(s, Frame(false, false, true, data));
            Idle(s') && s'.out == s.out + (front + [sofar + data])
  {
    LastOfOpenQueue(Waiting(s));
    assert ItemsOf(front + [sofar])[|front| := Item(sofar + data, false)] == ItemsOf(front + [sofar + data]);
    EmittedAll(front + [sofar + data]);
  }

  lemma FinishesAll(s: RecvState, front: seq<Block>, last: seq<Block>)
    requires Keeps(s, front) && |last| > 1
    ensures var s' := RecvRun(s, FramesFrom(last, true)); Idle(s') && s'.out == s.out + (front + [Flatten(last)])
  {
    var n := |last| - 1;
    var body, f := last[..n], Frame(false, false, true, last[n]);
    AllButFinal(last, true);
    OneUnfinished(s, front, body);
    var s1 := RecvRun(s, Unfinished(body, true));
    FinalContinuation(s1, front, Flatten(body), last[n]);
    hide *;
    RunInTwo(s, Unfinished(body, true), [f]);
    OneFrame(s1, f);
    assert last == body + [last[n]];
    FlattenSnoc(body, last[n]);
  }

  lemma OneUnfinished(s: RecvState, front: seq<Block>, message: seq<Block>)
    requires Keeps(s, front) && message != []
    ensures var s' := RecvRun(s, Unfinished(message, true)); Keeps(s', front + [Flatten(message)]) && s'.out == s.out
  {
    UnfinishedWait(s, front, [message]);
    assert AllUnfinished([message]) == Unfinished(message, true) + [] == Unfinished(message, true);
    assert Messages([message]) == [Flatten(message)];
  }

  lemma OneFrame(s: RecvState, f: Frame)
    ensures RecvRun(s, [f]) == AfterReceive(s, f)
  {
    assert [f][1..] == [];
  }

  /** A queue that was closed is drained up to its marker, which comes out as one more, empty message. */
  lemma {:induction false} DrainOfClosed(blocks: seq<Block>)
    ensures Emitted(ItemsOf(blocks) + [Item([], true)]) == blocks + [[]]
    ensures Undrained(ItemsOf(blocks) + [Item([], true)]) == [Item([], true)]
    decreases blocks
  {
    if blocks != [] {
      DrainOfClosed(blocks[1..]);
      assert (ItemsOf(blocks) + [Item([], true)])[1..] == ItemsOf(blocks[1..]) + [Item([], true)];
    }
  }
}

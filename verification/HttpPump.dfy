/** The HTTP send pump (src/minnet-server-http.c, lib/session.c): a user generator is stepped,
    its chunks go through the session's send queue, and writeable events push them onto the
    connection. Modelled is a callback mount without a response body queue. */
module HttpPump {
  import opened Bytes
  import opened Queues
  import Q = Queues

  /** What one step of the user's generator yields; a failure is a rejected promise, with the
      text of its error, or an exception. */
  datatype Reply =
    | Reply(value: Option<Block>, done: bool)
    | Failure(error: Block)

  /** What the connection sees. */
  datatype Wire =
    | Headers(contentLength: Option<nat>)
    | Body(piece: Block, final: bool)
    | Completed

  /** `replies` is the generator's script, `outstanding` the promise being waited for. The flag
      `crashed` records a use of the queue where the source may hold null. */
  datatype Pump = Pump(
    wantWrite: bool, waitResolve: nat, responseSent: bool, sendq: QueueState,
    isAsync: bool, http2: bool, replies: seq<Reply>, outstanding: Option<Reply>,
    wire: seq<Wire>, completed: nat, crashed: bool)

  /** A session bound to a new connection. */
  function NewSession(isAsync: bool, http2: bool, script: seq<Reply>): Pump {
    Pump(false, 0, false, EMPTY, isAsync, http2, script, None, [], 0, false)
  }

  // ---------- the steps ----------

  function WantWrite(s: Pump): Pump {
    s.(wantWrite := true)
  }

  /** What the generator answers: an exhausted one is done. */
  function NextReply(s: Pump): Reply {
    if s.replies == [] then Reply(None, true) else s.replies[0]
  }

  function Asked(s: Pump): Pump {
    s.(replies := if s.replies == [] then [] else s.replies[1..])
  }

  function Queued(s: Pump, data: Block): Pump {
    s.(sendq := AfterWrite(s.sendq, data))
  }

  function ClosedOff(s: Pump): Pump {
    s.(sendq := AfterClose(s.sendq))
  }

  /** Only an answer given at once counts as done here, or an exception; a promise does not. */
  predicate ServedDone(s: Pump) {
    !s.isAsync && (NextReply(s).Failure? || NextReply(s).done)
  }

  function Served(s: Pump): Pump {
    var reply := NextReply(s);
    if s.isAsync then
      Asked(s).(outstanding := Some(reply), waitResolve := s.waitResolve + 1)
    else
      var s1 := if reply.Reply? && reply.value.Some? then Queued(Asked(s), reply.value.value) else Asked(s);
      if Data(s1.sendq) != [] || ServedDone(s) then WantWrite(s1) else s1
  }

  function AfterResolved(s: Pump, value: Option<Block>, done: bool): Pump {
    var s1 := if value.Some? then WantWrite(Queued(s, value.value)) else s;
    if done then WantWrite(ClosedOff(s1)) else s1
  }

  function AfterRejected(s: Pump, error: Block): Pump {
    WantWrite(ClosedOff(Queued(s, error)))
  }

  /** The promise settles. */
  function Settled(s: Pump): Pump
    requires s.outstanding.Some? && s.waitResolve > 0
  {
    var s1 := s.(waitResolve := s.waitResolve - 1, outstanding := None);
    match s.outstanding.value
    case Reply(value, done) => AfterResolved(s1, value, done)
    case Failure(error) => AfterRejected(s1, error)
  }

  const H2_PIECE: nat := 1024

  /** The writes for one chunk: pieces of at most 1024 bytes on HTTP/2, the chunk whole otherwise.
      `closing` marks every piece final, `complete` only the last. */
  function Pieces(data: Block, http2: bool, closing: bool, complete: bool): seq<Wire>
    decreases |data|
  {
    if data == [] then []
    else if http2 && |data| > H2_PIECE then
      [Body(data[..H2_PIECE], closing)] + Pieces(data[H2_PIECE..], http2, closing, complete)
    else [Body(data, closing || complete)]
  }

  function Transmitted(s: Pump): Pump {
    if Data(s.sendq) == [] then s
    else
      var rest := Q.AfterNext(s.sendq);
      s.(sendq := rest,
         wire := s.wire + Pieces(Front(s.sendq).block, s.http2, Closed(s.sendq), Complete(rest)))
  }

  /** Is the transaction over once a writeable event transmitted what it found? */
  predicate Finishes(s: Pump) {
    Data(s.sendq) == [] || Front(s.sendq).done || Closed(Q.AfterNext(s.sendq))
  }

  function CompletedOnce(s: Pump): Pump {
    s.(wire := s.wire + [Completed], completed := s.completed + 1)
  }

  /** `http_server_writeable` and the completion that follows it. */
  function Pumped(s: Pump): Pump {
    var s1 := Transmitted(s);
    if !Finishes(s) then s1
    else
      var s2 := CompletedOnce(s1);
      if s2.sendq.items == [] then CompletedOnce(s2) else s2
  }

  function ServedAndClosed(s: Pump): Pump {
    if ServedDone(s) then ClosedOff(Served(s)) else Served(s)
  }

  function HeadersSent(s: Pump): Pump {
    if s.responseSent then s
    else
      s.(responseSent := true,
         wire := s.wire + [Headers(if Complete(s.sendq) then Some(|Data(s.sendq)|) else None)])
  }

  predicate Ended(q: QueueState) {
    Closed(q) || Complete(q)
  }

  /** Before writing: nothing to send and nothing awaited makes the generator take a step. A queue
      that was empty is looked at again only if that step was the generator's last. */
  function Refilled(s: Pump): Pump {
    if Data(s.sendq) != [] || Ended(s.sendq) || s.waitResolve > 0 then s
    else
      var s1 := Served(s);
      if ServedDone(s) && s1.sendq.items != [] then ClosedOff(s1) else s1
  }

  /** Does the event see the send queue, as `q`, when it comes to writing? */
  predicate SeesQueue(s: Pump) {
    s.sendq.items != [] || (s.waitResolve == 0 && ServedDone(s) && Served(s).sendq.items != [])
  }

  /** After writing: the next step of the generator, unless a write is already wanted. The size
      looked at is the one found on entry, `junk` when there was no queue. */
  function Advanced(s: Pump, qsize: nat, sees: bool): Pump {
    if qsize == 0 || s.wantWrite then s
    else if !sees then s.(crashed := true)
    else if Ended(s.sendq) || s.waitResolve > 0 then s
    else ServedAndClosed(s)
  }

  function AfterWriteable(s: Pump, junk: nat): Pump {
    if !s.wantWrite && !Complete(s.sendq) then s
    else
      var s0 := HeadersSent(s.(wantWrite := false));
      var qsize := if s.sendq.items != [] then |Data(s.sendq)| else junk;
      var s1 := Refilled(s0);
      var s2 := if SeesQueue(s0) then Pumped(s1) else s1;
      Advanced(s2, qsize, SeesQueue(s0))
  }

  // ---------- the class ----------

  class HttpSession {
    var wantWrite: bool
    var waitResolve: nat
    var responseSent: bool
    const sendq: Queue
    const isAsync: bool
    const http2: bool
    var replies: seq<Reply>
    var outstanding: Option<Reply>
    ghost var wire: seq<Wire>
    ghost var completed: nat
    ghost var crashed: bool

    ghost function State(): Pump
      reads this, sendq
    {
      Pump(wantWrite, waitResolve, responseSent, sendq.State(), isAsync, http2,
           replies, outstanding, wire, completed, crashed)
    }

    ghost predicate Valid()
      reads this, sendq
    {
      sendq.Valid() && Shaped(sendq.State())
    }

    constructor (isAsync: bool, http2: bool, script: seq<Reply>)
      ensures Valid() && State() == NewSession(isAsync, http2, script) && fresh(sendq)
    {
      wantWrite, waitResolve, responseSent := false, 0, false;
      sendq := new Queue();
      this.isAsync, this.http2, replies, outstanding := isAsync, http2, script, None;
      wire, completed, crashed := [], 0, false;
    }

    method SessionWantWrite()
      modifies this
      ensures State() == WantWrite(old(State()))
    {
      if !wantWrite {
        wantWrite := true;
      }
    }

    /** Asserts, like the source, that no promise is outstanding and the queue is not complete. */
    method ServeGenerator() returns (done: bool)
      requires Valid() && waitResolve == 0 && !Complete(sendq.State())
      modifies this, sendq
      ensures Valid() && State() == Served(old(State()))
      ensures done == ServedDone(old(State()))
    {
      StepsKeepShape(sendq.State());
      done := false;
      var reply := Reply(None, true);
      if replies != [] {
        reply := replies[0];
        replies := replies[1..];
      }
      if isAsync {
        waitResolve := waitResolve + 1;
        outstanding := Some(reply);
      } else if reply.Failure? {
        done := true;
      } else {
        done := reply.done;
        if reply.value.Some? {
          var _ := sendq.Write(reply.value.value);
        }
      }
      var bytes := sendq.ByteCount();
      if waitResolve == 0 && (bytes > 0 || done) {
        SessionWantWrite();
      }
    }

    method Settle()
      requires Valid() && outstanding.Some? && waitResolve > 0
      modifies this, sendq
      ensures Valid() && State() == Settled(old(State()))
    {
      hide AfterResolved;
      hide AfterRejected;
      var reply := outstanding.value;
      outstanding := None;
      waitResolve := waitResolve - 1;
      match reply {
        case Reply(value, done) => ServeResolved(value, done);
        case Failure(error) => ServeRejected(error);
      }
    }

    method ServeResolved(value: Option<Block>, done: bool)
      requires Valid()
      modifies this, sendq
      ensures Valid() && State() == AfterResolved(old(State()), value, done)
    {
      StepsKeepShape(sendq.State());
      if value.Some? {
        var _ := sendq.Write(value.value);
        SessionWantWrite();
      }
      StepsKeepShape(sendq.State());
      if done {
        sendq.Close();
        SessionWantWrite();
      }
    }

    method ServeRejected(error: Block)
      requires Valid()
      modifies this, sendq
      ensures Valid() && State() == AfterRejected(old(State()), error)
    {
      StepsKeepShape(sendq.State());
      var _ := sendq.Write(error);
      StepsKeepShape(sendq.State());
      sendq.Close();
      SessionWantWrite();
    }

    /** `http_server_writeable`; `over` tells that the transaction was completed. */
    method ServerWriteable(closing: bool) returns (over: bool)
      requires Valid() && closing == Closed(sendq.State())
      modifies this, sendq
      ensures Valid() && over == Finishes(old(State()))
      ensures State() == if over then CompletedOnce(Transmitted(old(State()))) else Transmitted(old(State()))
    {
      StepsKeepShape(sendq.State());
      hide Pieces;
      hide Flatten;
      hide Shaped;
      var done := closing;
      var qsize := sendq.ByteCount();
      if qsize > 0 {
        var buf;
        buf, done := sendq.Next();
        SendPieces(buf, closing);
      } else {
        done := true;
      }
      over := done || (sendq.items != [] && sendq.items[0].done);
      if over {
        wire := wire + [Completed];
        completed := completed + 1;
      }
    }

    /** The loop of `ServerWriteable` over one chunk. */
    method SendPieces(buf: Block, closing: bool)
      modifies `wire
      ensures wire == old(wire) + Pieces(buf, http2, closing, Complete(sendq.State()))
    {
      hide Pieces;
      ghost var complete := Complete(sendq.State());
      var pos := 0;
      assert buf[0..] == buf;
      while pos < |buf|
        invariant 0 <= pos <= |buf|
        invariant wire + Pieces(buf[pos..], http2, closing, complete)
                  == old(wire) + Pieces(buf, http2, closing, complete)
      {
        var remain := |buf| - pos;
        var l := if http2 then (if remain > H2_PIECE then H2_PIECE else remain) else remain;
        var final := (sendq.items != [] && sendq.items[|sendq.items| - 1].done && remain == l) || closing;
        OnePiece(buf, pos, l, final, http2, closing, complete);
        Associate(wire, [Body(buf[pos..pos + l], final)], Pieces(buf[pos + l..], http2, closing, complete));
        wire := wire + [Body(buf[pos..pos + l], final)];
        pos := pos + l;
      }
      NoPieces(buf[pos..], http2, closing, complete);
      assert wire + [] == wire;
    }

    method Refill(sees: bool) returns (q: bool)
      requires Valid() && sees == (sendq.items != [])
      modifies this, sendq
      ensures Valid() && State() == Refilled(old(State())) && q == SeesQueue(old(State()))
    {
      q := sees;
      var bytes := sendq.ByteCount();
      if !q || bytes == 0 {
        if (!q || !(sendq.items[0].done || sendq.items[|sendq.items| - 1].done)) && waitResolve == 0 {
          var done := ServeGenerator();
          if done && sendq.items != [] {
            q := true;
            StepsKeepShape(sendq.State());
            sendq.Close();
          }
        }
      }
    }

    method Push()
      requires Valid()
      modifies this, sendq
      ensures Valid() && State() == Pumped(old(State()))
    {
      var over := ServerWriteable(sendq.items != [] && sendq.items[0].done);
      if over && sendq.size == 0 {
        wire := wire + [Completed];
        completed := completed + 1;
      }
    }

    method Advance(qsize: nat, q: bool)
      requires Valid()
      modifies this, sendq
      ensures Valid() && State() == Advanced(old(State()), qsize, q)
    {
      if qsize > 0 && !wantWrite {
        if !q {
          crashed := true;
        } else if !(sendq.items != [] && (sendq.items[0].done || sendq.items[|sendq.items| - 1].done)) && waitResolve == 0 {
          var done := ServeGenerator();
          if done {
            StepsKeepShape(sendq.State());
            sendq.Close();
          }
        }
      }
    }

    /** The HTTP_WRITEABLE case; `junk` is the value of the uninitialised size. */
    method Writeable(junk: nat)
      requires Valid()
      modifies this, sendq
      ensures Valid() && State() == AfterWriteable(old(State()), junk)
    {
      hide Refilled;
      hide Pumped;
      hide Advanced;
      hide SeesQueue;
      var q := sendq.items != [];
      if !wantWrite {
        if q && sendq.items[|sendq.items| - 1].done {
          SessionWantWrite();
        } else {
          return;
        }
      }
      wantWrite := false;
      var bytes := sendq.ByteCount();
      if !responseSent {
        wire := wire + [Headers(if Complete(sendq.State()) then Some(bytes) else None)];
        responseSent := true;
      }
      var qsize := if q then bytes else junk;
      q := Refill(q);
      if q {
        Push();
      }
      Advance(qsize, q);
    }
  }

  lemma OnePiece(buf: Block, pos: nat, l: nat, final: bool, http2: bool, closing: bool, complete: bool)
    requires pos < |buf|
    requires l == if http2 && |buf| - pos > H2_PIECE then H2_PIECE else |buf| - pos
    requires final <==> (complete && |buf| - pos == l) || closing
    ensures Pieces(buf[pos..], http2, closing, complete) ==
            [Body(buf[pos..pos + l], final)] + Pieces(buf[pos + l..], http2, closing, complete)
  {
    assert buf[pos..][..l] == buf[pos..pos + l] && buf[pos..][l..] == buf[pos + l..];
    if l == |buf| - pos {
      assert buf[pos + l..] == [] && buf[pos..pos + l] == buf[pos..];
    }
  }

  lemma NoPieces(none: Block, http2: bool, closing: bool, complete: bool)
    requires none == []
    ensures Pieces(none, http2, closing, complete) == []
  {
  }

  lemma StepsKeepShape(q: QueueState)
    requires Shaped(q)
    ensures forall b :: Shaped(AfterWrite(q, b))
    ensures Shaped(AfterClose(q)) && Shaped(Q.AfterNext(q))
    ensures Closed(q) ==> Complete(q)
  {
    forall b ensures Shaped(AfterWrite(q, b)) {
      StepKeepsShape(q, Write(b));
    }
  }
}

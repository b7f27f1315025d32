/** Whole runs of the HTTP send pump: what reaches the connection, how many events it takes, and
    which scripts it does not get through. */
module HttpRuns {
  import opened Bytes
  import opened Queues
  import opened HttpPump
  import Q = Queues

  /** Writeable events may come at any time; a promise settles once it is outstanding. */
  datatype Event = Writeable(junk: nat) | Settle

  function React(s: Pump, e: Event): Pump {
    match e
    case Writeable(junk) => AfterWriteable(s, junk)
    case Settle => if s.outstanding.Some? && s.waitResolve > 0 then Settled(s) else s
  }

  /** A run ends when the transaction completes. */
  predicate Possible(s: Pump, e: Event) {
    s.completed == 0 && (e.Settle? ==> s.outstanding.Some?)
  }

  function PumpRun(s: Pump, events: seq<Event>): Pump
    decreases events
  {
    if events == [] then s else PumpRun(React(s, events[0]), events[1..])
  }

  predicate PossibleRun(s: Pump, events: seq<Event>)
    decreases events
  {
    events != [] ==> Possible(s, events[0]) && PossibleRun(React(s, events[0]), events[1..])
  }

  /** The HTTP callback steps the generator once. */
  function Start(isAsync: bool, http2: bool, script: seq<Reply>): Pump {
    Served(NewSession(isAsync, http2, script))
  }

  /** A writeable event that was asked for. */
  function EffectiveEvents(s: Pump, events: seq<Event>): nat
    decreases events
  {
    if events == [] then 0
    else (if events[0].Writeable? && s.wantWrite then 1 else 0) + EffectiveEvents(React(s, events[0]), events[1..])
  }

  // ---------- scripts ----------

  /** The chunk a reply carries; the body ends with the text of an error. */
  function Chunk(r: Reply): seq<Block> {
    match r
    case Reply(value, _) => if value.Some? then [value.value] else []
    case Failure(error) => [error]
  }

  function ChunksOf(script: seq<Reply>): seq<Block> {
    if script == [] then [] else Chunk(script[0]) + ChunksOf(script[1..])
  }

  predicate Last(r: Reply) {
    r.Failure? || r.done
  }

  /** A reply carries bytes unless it only says done; only promises fail. */
  predicate ProperReply(r: Reply, isAsync: bool) {
    match r
    case Reply(value, done) => if value.Some? then value.value != [] else done
    case Failure(error) => isAsync && error != []
  }

  /** Non-empty chunks, and an end at the end if at all. */
  predicate Proper(script: seq<Reply>, isAsync: bool) {
    && (forall i :: 0 <= i < |script| ==> ProperReply(script[i], isAsync))
    && (forall i :: 0 <= i < |script| - 1 ==> !Last(script[i]))
  }

  /** A synchronous generator starts with a chunk. */
  predicate InScope(script: seq<Reply>, isAsync: bool) {
    Proper(script, isAsync) && (isAsync || (script != [] && Chunk(script[0]) != []))
  }

  // ---------- the wire ----------

  /** The body bytes among what was sent. */
  function Sent(wire: seq<Wire>): Block {
    if wire == [] then [] else (if wire[0].Body? then wire[0].piece else []) + Sent(wire[1..])
  }

  lemma {:induction false} SentAppend(a: seq<Wire>, b: seq<Wire>)
    ensures Sent(a + b) == Sent(a) + Sent(b)
  {
    if a == [] {
      assert a + b == b;
    } else {
      hide Sent;
      var first, rest := a[0], a[1..];
      SentAppend(rest, b);
      assert a == [first] + rest && a + b == [first] + (rest + b);
      SentCons(first, rest);
      SentCons(first, rest + b);
      Associate(if first.Body? then first.piece else [], Sent(rest), Sent(b));
    }
  }

  lemma SentCons(w: Wire, rest: seq<Wire>)
    ensures Sent([w] + rest) == (if w.Body? then w.piece else []) + Sent(rest)
  {
    assert ([w] + rest)[1..] == rest;
  }

  ghost predicate IsBody(w: Wire, http2: bool) {
    w.Body? && (http2 ==> |w.piece| <= H2_PIECE)
  }

  /** Pieces of a body that goes on: none is final. */
  ghost predicate OpenBodies(ws: seq<Wire>, http2: bool) {
    forall i :: 0 <= i < |ws| ==> IsBody(ws[i], http2) && !ws[i].final
  }

  /** Pieces of a body of which at most the last is final. */
  ghost predicate LastBodies(ws: seq<Wire>, http2: bool) {
    forall i :: 0 <= i < |ws| ==> IsBody(ws[i], http2) && (ws[i].final ==> i == |ws| - 1)
  }

  lemma {:induction false} PiecesAre(data: Block, http2: bool, complete: bool)
    ensures Sent(Pieces(data, http2, false, complete)) == data
    ensures LastBodies(Pieces(data, http2, false, complete), http2)
    ensures !complete ==> OpenBodies(Pieces(data, http2, false, complete), http2)
    decreases |data|
  {
    if data != [] && http2 && |data| > H2_PIECE {
      var rest := Pieces(data[H2_PIECE..], http2, false, complete);
      PiecesAre(data[H2_PIECE..], http2, complete);
      assert data == data[..H2_PIECE] + data[H2_PIECE..];
      assert ([Body(data[..H2_PIECE], false)] + rest)[1..] == rest;
    } else if data != [] {
      assert [Body(data, complete)][1..] == [];
    }
  }

  // ---------- the invariant ----------

  /** Replies still to come, the awaited one first. */
  function Coming(s: Pump): seq<Reply> {
    if Complete(s.sendq) then []
    else if s.outstanding.Some? then [s.outstanding.value] + s.replies
    else s.replies
  }

  /** The send queue: at most one data chunk, then perhaps the done marker. */
  ghost predicate SmallQueue(q: QueueState) {
    && !q.continuous && Shaped(q) && |Chunked(q)| <= 1
    && forall i :: 0 <= i < |Chunked(q)| ==> Chunked(q)[i] != []
  }

  /** What the generator and the queue look like when nothing is lost between them. */
  ghost predicate Tidy(s: Pump) {
    && SmallQueue(s.sendq) && (s.sendq.items == [] || s.outstanding.None?)
    && s.waitResolve == (if s.outstanding.Some? then 1 else 0)
    && (s.outstanding.Some? ==> s.isAsync)
    && (s.wantWrite <==> s.sendq.items != [])
    && (s.wantWrite || s.outstanding.Some?)
    && Proper(Coming(s), s.isAsync)
  }

  /** All chunks still to be sent. */
  function Remaining(s: Pump): seq<Block> {
    Chunked(s.sendq) + ChunksOf(Coming(s))
  }

  /** While the transaction is open: nothing sent is lost, repeated or reordered; either a write is
      wanted, and then there is something to send, or a promise is awaited. */
  ghost predicate Open(s: Pump, total: Block) {
    && s.completed == 0 && !s.crashed && Tidy(s)
    && Sent(s.wire) + Flatten(Remaining(s)) == total
    && (s.responseSent <==> s.wire != [])
    && (s.responseSent ==> s.wire[0] == Headers(None) && OpenBodies(s.wire[1..], s.http2))
  }

  /** Headers, all of the body, and the completion, each once; a content length that was announced
      is that of the body; a final piece is the last. */
  ghost predicate Finished(s: Pump, total: Block) {
    && s.completed == 1 && !s.crashed
    && |s.wire| >= 2 && s.wire[|s.wire| - 1] == Completed
    && (s.wire[0] == Headers(None) || s.wire[0] == Headers(Some(|total|)))
    && LastBodies(s.wire[1..|s.wire| - 1], s.http2)
    && Sent(s.wire) == total
  }

  /** Writeable events still needed. */
  function Needed(s: Pump): nat {
    if s.completed > 0 then 0 else |Chunked(s.sendq)| + |ChunksOf(Coming(s))| + 1
  }

  // ---------- the queue in its four forms ----------

  function Filled(value: Option<Block>, done: bool): QueueState {
    QueueState((if value.Some? then [Item(value.value, false)] else []) + (if done then [Item([], true)] else []), false)
  }

  function ListOf(value: Option<Block>): seq<Block> {
    if value.Some? then [value.value] else []
  }

  lemma FilledIs(value: Option<Block>, done: bool)
    ensures var q := Filled(value, done);
            && Chunked(q) == ListOf(value) && Complete(q) == done && Shaped(q)
            && Data(q) == (if value.Some? then value.value else [])
            && Closed(q) == (done && value.None?) && (q.items == [] <==> value.None? && !done)
  {
    var q := Filled(value, done);
    if value.Some? {
      if done {
        assert Blocks(q.items) == [value.value] + [[]];
        FlattenSnoc([value.value], []);
      } else {
        assert Blocks(q.items) == [value.value];
      }
      FlattenOne(value.value);
    } else if done {
      assert Blocks(q.items) == [[]];
      FlattenOne<byte>([]);
    }
  }

  function FrontChunk(q: QueueState): Option<Block> {
    if Chunked(q) == [] then None else Some(Chunked(q)[0])
  }

  lemma SmallQueueIsFilled(q: QueueState)
    requires SmallQueue(q)
    ensures q == Filled(FrontChunk(q), Complete(q))
  {
    var n := |q.items|;
    if Complete(q) {
      assert q.items == q.items[..n - 1] + [Item([], true)];
      if n == 2 {
        assert q.items[..1] == [Item(Chunked(q)[0], false)];
      }
    } else if n == 1 {
      assert q.items == [Item(Chunked(q)[0], false)];
    }
  }

  /** Putting a reply into the empty queue. */
  lemma FillEmpty(value: Option<Block>, done: bool)
    ensures var q := if value.Some? then AfterWrite(EMPTY, value.value) else EMPTY;
            q == Filled(value, false) && (if done then AfterClose(q) else q) == Filled(value, done)
  {
    if value.Some? {
      assert [] + [Item(value.value, false)] == [Item(value.value, false)];
    }
    assert [] + [Item([], true)] == [Item([], true)];
  }

  // ---------- one event ----------

  predicate Quiet(s: Pump) {
    s.sendq == EMPTY && s.outstanding.None? && s.waitResolve == 0 && !s.wantWrite
  }

  lemma ServeAsync(s: Pump)
    requires Quiet(s) && s.isAsync && Proper(s.replies, true)
    ensures var s' := Served(s);
            && s' == s.(replies := s'.replies, outstanding := Some(NextReply(s)), waitResolve := 1)
            && Tidy(s') && Remaining(s') == ChunksOf(s.replies) && ServedAndClosed(s) == s'
  {
    var s' := Served(s);
    if s.replies == [] {
      assert ChunksOf(Coming(s')) == Chunk(Reply(None, true)) + ChunksOf([]);
    } else {
      assert Coming(s') == s.replies;
    }
    assert Chunked(EMPTY) == [];
  }

  /** A state in which a reply was just queued. */
  lemma QueuedIsTidy(s: Pump, value: Option<Block>, done: bool)
    requires s.sendq == Filled(value, done) && (value.Some? ==> value.value != []) && (value.Some? || done)
    requires s.outstanding.None? && s.waitResolve == 0 && s.wantWrite
    requires done || Proper(s.replies, s.isAsync)
    ensures Tidy(s) && Remaining(s) == ListOf(value) + if done then [] else ChunksOf(s.replies)
  {
    FilledIs(value, done);
  }

  lemma ServedInState(s: Pump)
    requires Quiet(s) && !s.isAsync && NextReply(s).Reply? && (NextReply(s).value.Some? || NextReply(s).done)
    requires NextReply(s).value.Some? ==> NextReply(s).value.value != []
    ensures var r := NextReply(s);
            && Served(s) == s.(replies := Asked(s).replies, sendq := Filled(r.value, false), wantWrite := true)
            && ServedAndClosed(s) == Served(s).(sendq := Filled(r.value, r.done))
  {
    var r := NextReply(s);
    FillEmpty(r.value, r.done);
    FilledIs(r.value, false);
  }

  lemma ServeSync(s: Pump)
    requires Quiet(s) && !s.isAsync && Proper(s.replies, false)
    ensures var s' := ServedAndClosed(s);
            && s' == s.(replies := s'.replies, sendq := s'.sendq, wantWrite := true)
            && Tidy(s') && Remaining(s') == ChunksOf(s.replies)
  {
    hide ServedAndClosed;
    var r := NextReply(s);
    assert ProperReply(r, false);
    ServedInState(s);
    if s.replies != [] {
      ProperTail(s.replies, false);
    }
    QueuedIsTidy(ServedAndClosed(s), r.value, r.done);
  }

  lemma ProperTail(script: seq<Reply>, isAsync: bool)
    requires Proper(script, isAsync) && script != []
    ensures Proper(script[1..], isAsync) && (Last(script[0]) ==> script[1..] == [])
    ensures ChunksOf(script) == Chunk(script[0]) + ChunksOf(script[1..])
  {
  }

  /** A step of the generator while nothing is queued or awaited. */
  lemma ServeStep(s: Pump)
    requires Quiet(s) && Proper(s.replies, s.isAsync)
    ensures var s' := ServedAndClosed(s);
            && Tidy(s') && Remaining(s') == ChunksOf(s.replies)
            && s' == s.(replies := s'.replies, sendq := s'.sendq, wantWrite := s'.wantWrite,
                        outstanding := s'.outstanding, waitResolve := s'.waitResolve)
  {
    if s.isAsync { ServeAsync(s); } else { ServeSync(s); }
  }

  lemma SettledInState(s: Pump)
    requires Tidy(s) && s.outstanding.Some?
    ensures var r := s.outstanding.value;
            Settled(s) == s.(wantWrite := true, outstanding := None, waitResolve := 0,
                             sendq := if r.Reply? then Filled(r.value, r.done) else Filled(Some(r.error), true))
  {
    assert s.sendq == EMPTY;
    assert Coming(s)[0] == s.outstanding.value;
    match s.outstanding.value
    case Reply(value, done) => FillEmpty(value, done);
    case Failure(error) => FillEmpty(Some(error), true);
  }

  lemma SettleStep(s: Pump)
    requires Tidy(s) && s.outstanding.Some?
    ensures var s' := Settled(s);
            && Tidy(s') && Remaining(s') == Remaining(s)
            && s' == s.(sendq := s'.sendq, wantWrite := true, outstanding := None, waitResolve := 0)
  {
    hide Settled;
    var r := s.outstanding.value;
    SettledInState(s);
    assert s.sendq == EMPTY && Coming(s) == [r] + s.replies;
    assert ProperReply(Coming(s)[0], s.isAsync);
    ProperTail(Coming(s), s.isAsync);
    match r
    case Reply(value, done) => QueuedIsTidy(Settled(s), value, done);
    case Failure(error) => QueuedIsTidy(Settled(s), Some(error), true);
  }

  /** The event with a chunk queued and more to come. */
  lemma PushChunk(s: Pump, junk: nat, c: Block)
    requires s.sendq == Filled(Some(c), false) && c != [] && s.wantWrite && s.waitResolve == 0
    ensures var s1 := HeadersSent(s.(wantWrite := false));
            AfterWriteable(s, junk) ==
            ServedAndClosed(s1.(sendq := EMPTY, wire := s1.wire + Pieces(c, s.http2, false, false)))
  {
    hide Pieces;
    hide Served;
    FilledIs(Some(c), false);
    assert Q.AfterNext(s.sendq) == EMPTY;
  }

  /** The event with the last chunk queued. */
  lemma PushLast(s: Pump, junk: nat, c: Block)
    requires s.sendq == Filled(Some(c), true) && c != [] && s.wantWrite
    ensures var s1 := HeadersSent(s.(wantWrite := false));
            AfterWriteable(s, junk) ==
            CompletedOnce(s1.(sendq := Filled(None, true), wire := s1.wire + Pieces(c, s.http2, false, true)))
  {
    hide Pieces;
    hide Served;
    FilledIs(Some(c), true);
    FilledIs(None, true);
    assert Q.AfterNext(s.sendq) == Filled(None, true);
  }

  /** The event with only the done marker queued. */
  lemma PushDone(s: Pump, junk: nat)
    requires s.sendq == Filled(None, true) && s.wantWrite
    ensures AfterWriteable(s, junk) == CompletedOnce(HeadersSent(s.(wantWrite := false)))
  {
    hide Pieces;
    hide Served;
    hide Data;
    FilledIs(None, true);
    var s0 := HeadersSent(s.(wantWrite := false));
    assert Refilled(s0) == s0 && SeesQueue(s0);
    assert Pumped(s0) == CompletedOnce(s0);
  }

  /** What the wire looks like while the transaction is open. */
  ghost predicate OpenWire(s: Pump) {
    && (s.responseSent <==> s.wire != [])
    && (s.responseSent ==> s.wire[0] == Headers(None) && OpenBodies(s.wire[1..], s.http2))
  }

  lemma HeadersFirst(s: Pump)
    requires OpenWire(s)
    ensures var s1 := HeadersSent(s);
            && s1 == s.(responseSent := true, wire := s1.wire) && s1.wire != []
            && Sent(s1.wire) == Sent(s.wire) && OpenBodies(s1.wire[1..], s.http2)
            && (s1.wire[0] == Headers(None) || (Complete(s.sendq) && s.wire == [] && s1.wire[0] == Headers(Some(|Data(s.sendq)|))))
            && (!Complete(s.sendq) ==> OpenWire(s1))
  {
    if !s.responseSent {
      var h := Headers(if Complete(s.sendq) then Some(|Data(s.sendq)|) else None);
      assert s.wire + [h] == [h];
      SentCons(h, []);
      assert [h] + [] == [h];
    }
  }

  lemma MorePieces(wire: seq<Wire>, pieces: seq<Wire>, http2: bool)
    requires wire != [] && OpenBodies(wire[1..], http2)
    ensures (wire + pieces)[0] == wire[0] && (wire + pieces)[1..] == wire[1..] + pieces
    ensures OpenBodies(pieces, http2) ==> OpenBodies((wire + pieces)[1..], http2)
    ensures LastBodies(pieces, http2) ==> LastBodies((wire + pieces)[1..], http2)
    ensures Sent(wire + pieces) == Sent(wire) + Sent(pieces)
  {
    hide Sent;
    SentAppend(wire, pieces);
    assert (wire + pieces)[1..] == wire[1..] + pieces;
  }

  lemma OpenStepA(s: Pump, junk: nat, total: Block)
    requires Open(s, total) && s.wantWrite && !Complete(s.sendq)
    ensures var s' := AfterWriteable(s, junk);
            Open(s', total) && Needed(s') + 1 == Needed(s) && s'.isAsync == s.isAsync
  {
    var c := FrontChunk(s.sendq).value;
    SmallQueueIsFilled(s.sendq);
    FilledIs(Some(c), false);
    PushChunk(s, junk, c);
    var s0 := s.(wantWrite := false);
    var s1 := HeadersSent(s0);
    var pieces := Pieces(c, s.http2, false, false);
    var s2 := s1.(sendq := EMPTY, wire := s1.wire + pieces);
    HeadersFirst(s0);
    PiecesAre(c, s.http2, false);
    MorePieces(s1.wire, pieces, s.http2);
    assert Quiet(s2) && Coming(s) == s.replies;
    ServeStep(s2);
    assert Remaining(s) == [c] + ChunksOf(s.replies);
    FlattenCons(c, ChunksOf(s.replies));
    Associate(Sent(s.wire), c, Flatten(ChunksOf(s.replies)));
  }

  lemma OpenStepB(s: Pump, junk: nat, total: Block)
    requires Open(s, total) && s.wantWrite && Complete(s.sendq)
    ensures Finished(AfterWriteable(s, junk), total)
  {
    SmallQueueIsFilled(s.sendq);
    FilledIs(FrontChunk(s.sendq), true);
    if FrontChunk(s.sendq).Some? { OpenStepLast(s, junk, total); } else { OpenStepDone(s, junk, total); }
  }

  lemma OpenStepLast(s: Pump, junk: nat, total: Block)
    requires Open(s, total) && s.wantWrite && s.sendq == Filled(FrontChunk(s.sendq), true) && FrontChunk(s.sendq).Some?
    ensures Finished(AfterWriteable(s, junk), total)
  {
    hide AfterWriteable;
    hide Pieces;
    hide Sent;
    var c := FrontChunk(s.sendq).value;
    FilledIs(Some(c), true);
    PushLast(s, junk, c);
    PiecesAre(c, s.http2, true);
    assert Remaining(s) == [c];
    FlattenOne(c);
    Finishing(s, AfterWriteable(s, junk), c, Pieces(c, s.http2, false, true), total);
  }

  lemma OpenStepDone(s: Pump, junk: nat, total: Block)
    requires Open(s, total) && s.wantWrite && s.sendq == Filled(None, true)
    ensures Finished(AfterWriteable(s, junk), total)
  {
    NothingLeft(s, total);
    CompleteEmpty(s, junk, total);
  }

  lemma NothingLeft(s: Pump, total: Block)
    requires Open(s, total) && s.sendq == Filled(None, true)
    ensures Sent(s.wire) == total
  {
    FilledIs(None, true);
    NothingSent();
    assert Remaining(s) == [];
    NothingMore(Sent(s.wire));
  }

  lemma CompleteEmpty(s: Pump, junk: nat, total: Block)
    requires OpenWire(s) && s.completed == 0 && !s.crashed && s.wantWrite
    requires s.sendq == Filled(None, true) && Sent(s.wire) == total
    ensures Finished(AfterWriteable(s, junk), total)
  {
    hide AfterWriteable;
    hide Sent;
    hide Data;
    hide Shaped;
    hide Chunked;
    NothingSent();
    FilledIs(None, true);
    PushDone(s, junk);
    NothingMore(total);
    NoMorePieces(HeadersSent(s.(wantWrite := false)).wire);
    Finishing(s, AfterWriteable(s, junk), [], [], total);
  }

  lemma NothingMore(data: Block)
    ensures data + [] == data
  {
  }

  lemma NoMorePieces(wire: seq<Wire>)
    ensures wire + [] == wire
  {
  }

  lemma NothingSent()
    ensures Sent([]) == [] && Flatten<byte>([]) == []
  {
  }

  /** The last pieces and the completion reach the wire. */
  lemma Finishing(s: Pump, s': Pump, data: Block, pieces: seq<Wire>, total: Block)
    requires OpenWire(s) && Data(s.sendq) == data && Sent(s.wire) + data == total
    requires Sent(pieces) == data && LastBodies(pieces, s.http2)
    requires s'.completed == 1 && !s'.crashed && s'.http2 == s.http2
    requires s'.wire == HeadersSent(s.(wantWrite := false)).wire + pieces + [Completed]
    ensures Finished(s', total)
  {
    hide Sent;
    hide Data;
    var s1 := HeadersSent(s.(wantWrite := false));
    HeadersFirst(s.(wantWrite := false));
    MorePieces(s1.wire, pieces, s.http2);
    FinishedWire(s1.wire + pieces, s.http2);
    if s.wire == [] {
      assert Sent(s.wire) == [] by { NothingSent(); }
      assert [] + data == total;
    }
  }

  lemma FinishedWire(wire: seq<Wire>, http2: bool)
    requires wire != []
    ensures var w := wire + [Completed];
            w[1..|w| - 1] == wire[1..] && w[0] == wire[0] && Sent(w) == Sent(wire)
  {
    SentAppend(wire, [Completed]);
    SentCons(Completed, []);
    assert [Completed] + [] == [Completed];
  }

  lemma OpenStep(s: Pump, e: Event, total: Block)
    requires Open(s, total) && Possible(s, e)
    ensures var s' := React(s, e);
            && (if s'.completed == 0 then Open(s', total) && s'.isAsync == s.isAsync else Finished(s', total))
            && Needed(s') + (if e.Writeable? && s.wantWrite then 1 else 0) <= Needed(s)
  {
    match e
    case Settle => SettleStep(s);
    case Writeable(junk) =>
      if s.wantWrite {
        if Complete(s.sendq) { OpenStepB(s, junk, total); } else { OpenStepA(s, junk, total); }
      }
  }

  ghost predicate Good(s: Pump, total: Block) {
    if s.completed == 0 then Open(s, total) else Finished(s, total)
  }

  lemma {:induction false} GoodRun(s: Pump, events: seq<Event>, total: Block)
    requires Good(s, total) && PossibleRun(s, events)
    ensures Good(PumpRun(s, events), total)
    ensures EffectiveEvents(s, events) + Needed(PumpRun(s, events)) <= Needed(s)
    decreases events
  {
    if events != [] {
      OpenStep(s, events[0], total);
      GoodRun(React(s, events[0]), events[1..], total);
    }
  }

  lemma GoodStart(isAsync: bool, http2: bool, script: seq<Reply>)
    requires InScope(script, isAsync)
    ensures var s := Start(isAsync, http2, script);
            Open(s, Flatten(ChunksOf(script))) && Needed(s) == |ChunksOf(script)| + 1
  {
    var s0 := NewSession(isAsync, http2, script);
    if isAsync {
      ServeAsync(s0);
    } else {
      var r := script[0];
      assert ProperReply(r, false);
      ServedInState(s0);
      ProperTail(script, false);
      QueuedIsTidy(Served(s0), r.value, false);
    }
    assert [] + Flatten(ChunksOf(script)) == Flatten(ChunksOf(script));
  }

  // ---------- branches no run gets to ----------

  /** Pushing an empty queue would complete the transaction twice; but the pump only pushes a queue it sees, which
      is not empty. */
  lemma OnlyEmptyPushCompletesTwice(s: Pump)
    ensures Pumped(s).completed == s.completed + 2 <==> s.sendq.items == []
    ensures s.sendq.items == [] ==> Pumped(s).wire == s.wire + [Completed, Completed]
    ensures SeesQueue(s) ==> Refilled(s).sendq.items != []
  {
    hide Pieces;
    hide SeesQueue;
    hide Refilled;
    if s.sendq.items == [] {
      assert Blocks(s.sendq.items) == [];
      assert s.wire + [Completed] + [Completed] == s.wire + [Completed, Completed];
    } else {
      hide Data;
    }
    if SeesQueue(s) {
      SeenIsNotEmpty(s);
    }
  }

  lemma SeenIsNotEmpty(s: Pump)
    requires SeesQueue(s)
    ensures Refilled(s).sendq.items != []
  {
    if s.sendq.items == [] {
      assert Blocks(s.sendq.items) == [];
    }
    ServedKeepsItems(s);
    hide Served;
    hide ServedDone;
  }

  lemma ServedKeepsItems(s: Pump)
    ensures s.sendq.items != [] ==> Served(s).sendq.items != []
  {
    hide Data;
    hide LastChunk;
  }

  /** A complete queue is written whether or not that was asked for; an event for any other is passed over unless
      it was. */
  lemma CompleteQueueIsWrittenAnyway(s: Pump, junk: nat)
    ensures Complete(s.sendq) ==> AfterWriteable(s, junk) == AfterWriteable(s.(wantWrite := true), junk)
    ensures !Complete(s.sendq) && !s.wantWrite ==> AfterWriteable(s, junk) == s
  {
  }

  // ---------- what the pump does with empty chunks ----------

  /** Writeable events only, until the transaction completes. */
  function Ticks(s: Pump, junks: seq<nat>): Pump
    decreases junks
  {
    if junks == [] || s.completed > 0 then s else Ticks(AfterWriteable(s, junks[0]), junks[1..])
  }

  /** A synchronous generator yielding these chunks. */
  function Yields(chunks: seq<Block>): (r: seq<Reply>)
    ensures |r| == |chunks|
    ensures forall i :: 0 <= i < |chunks| ==> r[i] == Reply(Some(chunks[i]), false)
  {
    seq(|chunks|, i requires 0 <= i < |chunks| => Reply(Some(chunks[i]), false))
  }

  lemma {:induction false} TicksFinish(s: Pump, junks: seq<nat>, total: Block)
    requires Good(s, total) && (s.completed == 0 ==> !s.isAsync) && |junks| >= Needed(s)
    ensures Finished(Ticks(s, junks), total)
    decreases junks
  {
    hide AfterWriteable;
    if s.completed == 0 {
      OpenStep(s, Writeable(junks[0]), total);
      assert React(s, Writeable(junks[0])) == AfterWriteable(s, junks[0]) && s.wantWrite;
      TicksFinish(AfterWriteable(s, junks[0]), junks[1..], total);
    }
  }

  /** An empty chunk in the queue, and no write wanted. */
  ghost predicate Stuck(s: Pump) {
    s.completed == 0 && !s.wantWrite && s.sendq.items == [Item([], false)]
  }

  /** A write wanted for nothing: the generator was done before it yielded. */
  ghost predicate Spinning(s: Pump) {
    s.completed == 0 && s.wantWrite && !s.isAsync && s.waitResolve == 0 && s.sendq == EMPTY && s.replies == []
  }

  /** A chunk on its way, and an empty one to come. */
  ghost predicate Doomed(s: Pump) {
    && s.completed == 0 && s.wantWrite && !s.isAsync && s.waitResolve == 0 && s.outstanding.None?
    && (exists c: Block :: c != [] && s.sendq == Filled(Some(c), false))
    && EmptyToCome(s.replies)
  }

  lemma SpinningTick(s: Pump, junk: nat)
    requires Spinning(s)
    ensures Spinning(AfterWriteable(s, junk))
  {
    assert Data(EMPTY) == [];
    var s0 := HeadersSent(s.(wantWrite := false));
    assert Refilled(s0) == Served(s0) && Served(s0).sendq == EMPTY && !SeesQueue(s0);
  }

  lemma DoomedTick(s: Pump, junk: nat)
    requires Doomed(s)
    ensures Doomed(AfterWriteable(s, junk)) || Stuck(AfterWriteable(s, junk))
  {
    var c: Block :| c != [] && s.sendq == Filled(Some(c), false);
    PushChunk(s, junk, c);
    hide AfterWriteable;
    hide Pieces;
    var s1 := HeadersSent(s.(wantWrite := false));
    DoomedServe(s1.(sendq := EMPTY, wire := s1.wire + Pieces(c, s.http2, false, false)));
  }

  ghost predicate EmptyToCome(replies: seq<Reply>) {
    && (forall i :: 0 <= i < |replies| ==> replies[i].Reply? && replies[i].value.Some? && !replies[i].done)
    && (exists i :: 0 <= i < |replies| && replies[i].value == Some([]))
  }

  lemma EmptyStillToCome(replies: seq<Reply>)
    requires EmptyToCome(replies)
    ensures replies != [] && (replies[0].value != Some([]) ==> EmptyToCome(replies[1..]))
  {
    var i :| 0 <= i < |replies| && replies[i].value == Some([]);
    if i > 0 {
      assert replies[1..][i - 1].value == Some([]);
    }
  }

  lemma DoomedServe(s: Pump)
    requires Quiet(s) && !s.isAsync && s.completed == 0 && EmptyToCome(s.replies)
    ensures Doomed(ServedAndClosed(s)) || Stuck(ServedAndClosed(s))
  {
    EmptyStillToCome(s.replies);
    assert s.replies[0].Reply? && s.replies[0].value.Some? && !s.replies[0].done;
    YieldsNext(s);
    hide ServedAndClosed;
    hide EmptyToCome;
    if s.replies[0].value.value == [] {
      assert Stuck(ServedAndClosed(s));
    } else {
      hide Filled;
      assert Doomed(ServedAndClosed(s));
    }
  }

  lemma YieldsNext(s: Pump)
    requires Quiet(s) && !s.isAsync && s.replies != []
    requires s.replies[0].Reply? && s.replies[0].value.Some? && !s.replies[0].done
    ensures var next := s.replies[0].value.value;
            ServedAndClosed(s) ==
            s.(replies := s.replies[1..], sendq := Filled(Some(next), false), wantWrite := next != [])
  {
    FillEmpty(s.replies[0].value, false);
    FilledIs(s.replies[0].value, false);
  }

  lemma {:induction false} TicksNeverFinish(s: Pump, junks: seq<nat>)
    requires Stuck(s) || Spinning(s) || Doomed(s)
    ensures Ticks(s, junks).completed == 0
    decreases junks
  {
    if junks != [] {
      if Spinning(s) {
        SpinningTick(s, junks[0]);
      } else if Doomed(s) {
        DoomedTick(s, junks[0]);
      }
      TicksNeverFinish(AfterWriteable(s, junks[0]), junks[1..]);
    }
  }

  /** A synchronous generator gets through exactly when it yields something and no chunk is empty:
      then k + 1 writeable events complete the transaction, whatever value the unset size has, and
      otherwise no number of events does. */
  lemma SyncFinishesExactlyWithoutEmptyChunks(http2: bool, chunks: seq<Block>, junks: seq<nat>)
    requires |junks| >= |chunks| + 1
    ensures var s := Ticks(Start(false, http2, Yields(chunks)), junks);
            s.completed > 0 <==> (chunks != [] && forall i :: 0 <= i < |chunks| ==> chunks[i] != [])
  {
    hide Start;
    if chunks != [] && forall i :: 0 <= i < |chunks| ==> chunks[i] != [] {
      FullChunksFinish(http2, chunks, junks);
    } else {
      FailingStart(http2, chunks);
      TicksNeverFinish(Start(false, http2, Yields(chunks)), junks);
    }
  }

  lemma FullChunksFinish(http2: bool, chunks: seq<Block>, junks: seq<nat>)
    requires |junks| >= |chunks| + 1
    requires chunks != [] && forall i :: 0 <= i < |chunks| ==> chunks[i] != []
    ensures Finished(Ticks(Start(false, http2, Yields(chunks)), junks), Flatten(chunks))
  {
    hide *;
    YieldsInScope(chunks);
    GoodStart(false, http2, Yields(chunks));
    YieldsHold(chunks);
    var s := Start(false, http2, Yields(chunks));
    StartIsSync(http2, Yields(chunks));
    OpenIsGood(s, Flatten(chunks));
    TicksFinish(s, junks, Flatten(chunks));
  }

  lemma YieldsInScope(chunks: seq<Block>)
    requires chunks != [] && forall i :: 0 <= i < |chunks| ==> chunks[i] != []
    ensures InScope(Yields(chunks), false)
  {
  }

  lemma StartIsSync(http2: bool, script: seq<Reply>)
    ensures !Start(false, http2, script).isAsync
  {
  }

  lemma OpenIsGood(s: Pump, total: Block)
    requires Open(s, total)
    ensures Good(s, total)
  {
  }

  lemma FailingStart(http2: bool, chunks: seq<Block>)
    requires chunks == [] || exists i :: 0 <= i < |chunks| && chunks[i] == []
    ensures var s := Start(false, http2, Yields(chunks)); Stuck(s) || Spinning(s) || Doomed(s)
  {
    var s := Start(false, http2, Yields(chunks));
    if chunks == [] {
      assert Data(EMPTY) == [];
    } else {
      FillEmpty(Some(chunks[0]), false);
      FilledIs(Some(chunks[0]), false);
      if chunks[0] != [] {
        var i :| 0 <= i < |chunks| && chunks[i] == [];
        assert s.replies[i - 1].value == Some([]);
      }
    }
  }

  lemma {:induction false} YieldsHold(chunks: seq<Block>)
    ensures ChunksOf(Yields(chunks)) == chunks
    decreases chunks
  {
    if chunks != [] {
      YieldsHold(chunks[1..]);
      assert Yields(chunks)[1..] == Yields(chunks[1..]);
      assert chunks == [chunks[0]] + chunks[1..];
    }
  }

  /** A promised empty chunk ends the transaction early: the writeable event asks the generator for
      more, finds nothing to write and completes with that promise outstanding. */
  lemma EmptyPromisedChunkCutsShort(s: Pump, junk: nat)
    requires s.isAsync && s.wantWrite && s.waitResolve == 0
    requires s.sendq == QueueState([Item([], false)], false)
    ensures var s' := AfterWriteable(s, junk); s'.completed == s.completed + 1 && s'.outstanding.Some?
  {
    assert Blocks(s.sendq.items) == [[]];
    FlattenOne<byte>([]);
    var s0 := HeadersSent(s.(wantWrite := false));
    assert Refilled(s0) == Served(s0) && Data(Served(s0).sendq) == [];
  }

  /** Such a script: an empty chunk, then a byte that is never sent. */
  lemma EmptyPromisedChunkLosesTheRest()
    ensures var script := [Reply(Some([]), false), Reply(Some([1]), false)];
            var s := PumpRun(Start(true, false, script), [Settle, Writeable(0)]);
            s.completed == 1 && s.outstanding == Some(script[1]) && Sent(s.wire) == []
  {
    var script := [Reply(Some([]), false), Reply(Some([1]), false)];
    var s0 := Start(true, false, script);
    var s1 := Settled(s0);
    assert [] + [Item([], false)] == [Item([], false)];
    assert Blocks(s1.sendq.items) == [[]];
    FlattenOne<byte>([]);
    var s2 := AfterWriteable(s1, 0);
    var h := HeadersSent(s1.(wantWrite := false));
    assert Refilled(h) == Served(h) && Pumped(Served(h)) == CompletedOnce(Served(h));
    assert s2.wire == [Headers(None), Completed];
    assert [Settle, Writeable(0)][1..] == [Writeable(0)];
    assert PumpRun(s0, [Settle, Writeable(0)]) == PumpRun(s1, [Writeable(0)]);
    assert [Writeable(0)][1..] == [];
    assert Sent([Headers(None), Completed]) == [] by {
      assert [Headers(None), Completed][1..] == [Completed];
      SentCons(Completed, []);
    }
  }
}

/** What the HTTP send pump writes, to the last byte and flag, for any script of any generator: which replies
    arrive, how they are cut, whether the length is announced, which piece is final, and whether the
    transaction completes at all. */
module HttpBodies {
  import opened Bytes
  import opened Queues
  import opened HttpPump
  import opened HttpRuns
  import Q = Queues

  // ---------- what a script comes to ----------

  /** The bytes a reply brings: those of its value, or the text of the error a promise was rejected with. */
  function Text(r: Reply, isAsync: bool): Block {
    match r
    case Reply(value, _) => if value.Some? then value.value else []
    case Failure(error) => if isAsync then error else []
  }

  /** Neither bytes nor an end: an empty chunk, or nothing. */
  predicate Blank(r: Reply) {
    r.Reply? && !r.done && (r.value.Some? ==> r.value.value == [])
  }

  /** The number of replies up to the first that ends the body, or in front of the first blank one. */
  function Arriving(script: seq<Reply>): (k: nat)
    ensures k <= |script|
    ensures forall i :: 0 <= i < k ==> !Blank(script[i])
    ensures forall i :: 0 <= i < k - 1 ==> !Last(script[i])
    ensures k < |script| ==> Blank(script[k]) || (k > 0 && Last(script[k - 1]))
  {
    if script == [] || Blank(script[0]) then 0
    else if Last(script[0]) then 1
    else 1 + Arriving(script[1..])
  }

  function BodyOf(script: seq<Reply>, isAsync: bool): Block {
    if script == [] then [] else Text(script[0], isAsync) + BodyOf(script[1..], isAsync)
  }

  /** The pieces of a chunk: of 1024 bytes on HTTP/2, and the rest; otherwise the chunk whole. */
  function Cut(data: Block, http2: bool): seq<Block> {
    if http2 then Chunks(1024, data) else if data == [] then [] else [data]
  }

  function Cuts(script: seq<Reply>, isAsync: bool, http2: bool): seq<Block> {
    if script == [] then [] else Cut(Text(script[0], isAsync), http2) + Cuts(script[1..], isAsync, http2)
  }

  /** All the connection sees: the pieces, whether their length is announced, whether the last is final, and
      whether the transaction completes. */
  datatype Outcome = Outcome(pieces: seq<Block>, announced: bool, final: bool, completes: bool)

  /** The outcome of promises from the first on, and of any replies once something was sent. */
  function Predict(script: seq<Reply>, isAsync: bool, http2: bool): Outcome {
    if script == [] then Outcome([], true, false, true)
    else
      var r := script[0];
      var text := Text(r, isAsync);
      if Blank(r) then Outcome([], false, false, isAsync && r.value.Some?)
      else if Last(r) then Outcome(Cut(text, http2), true, text != [], true)
      else
        var o := Predict(script[1..], isAsync, http2);
        Outcome(Cut(text, http2) + o.pieces, false, o.final, o.completes)
  }

  /** The first reply of a synchronous generator is served before the first event, and an end there is not
      acted upon; without a chunk the event finds nothing to do. */
  function OutcomeOf(script: seq<Reply>, isAsync: bool, http2: bool): Outcome {
    if isAsync then Predict(script, true, http2)
    else if script == [] || script[0].Failure? || script[0].value.None? || Blank(script[0]) then
      Outcome([], false, false, false)
    else
      var o := Predict(script[1..], false, http2);
      Outcome(Cut(Text(script[0], false), http2) + o.pieces, false, o.final, o.completes)
  }

  // ---------- the wire ----------

  /** Pieces as body writes, the last of them final or not. */
  function Bodies(pieces: seq<Block>, final: bool): (r: seq<Wire>)
    ensures |r| == |pieces|
    ensures forall i :: 0 <= i < |r| ==> r[i] == Body(pieces[i], final && i == |r| - 1)
  {
    if pieces == [] then [] else [Body(pieces[0], final && |pieces| == 1)] + Bodies(pieces[1..], final)
  }

  function WireOf(o: Outcome): seq<Wire> {
    [Headers(if o.announced then Some(|Flatten(o.pieces)|) else None)] + Bodies(o.pieces, o.final) + [Completed]
  }

  /** What was written while the transaction is open. */
  function OpenWireOf(sent: seq<Block>, started: bool): seq<Wire> {
    if started then [Headers(None)] + Bodies(sent, false) else []
  }

  lemma BodiesAppend(a: seq<Block>, b: seq<Block>, final: bool)
    requires final ==> b != []
    ensures Bodies(a + b, final) == Bodies(a, false) + Bodies(b, final)
  {
  }

  lemma {:induction false} PiecesAreCuts(data: Block, http2: bool, complete: bool)
    ensures Pieces(data, http2, false, complete) == Bodies(Cut(data, http2), complete)
    decreases |data|
  {
    if data != [] && http2 && |data| > 1024 {
      var rest := data[1024..];
      PiecesAreCuts(rest, http2, complete);
      assert Cut(data, true) == [data[..1024]] + Chunks(1024, rest);
      assert rest != [] && Chunks(1024, rest) != [];
    } else if data != [] {
      assert Cut(data, http2) == [data];
    }
  }

  lemma {:induction false} CutsJoin(data: Block, http2: bool)
    ensures Flatten(Cut(data, http2)) == data && (Cut(data, http2) == [] <==> data == [])
  {
    if http2 {
      ChunksAreAChunking(1024, data);
    } else if data != [] {
      FlattenOne(data);
    }
  }

  // ---------- the invariant ----------

  function Awaited(s: Pump): seq<Reply> {
    if s.outstanding.Some? then [s.outstanding.value] + s.replies else s.replies
  }

  predicate Unawaited(s: Pump) {
    s.outstanding.None? && s.waitResolve == 0
  }

  /** Does the outcome fit that the headers are sent now, with the queue complete or not? */
  predicate Announces(s: Pump, o: Outcome, complete: bool) {
    o.announced == (complete && !s.responseSent)
  }

  /** A promise is awaited; nothing is queued. */
  ghost predicate Waiting(s: Pump, rest: seq<Block>, o: Outcome) {
    var p := Predict(Awaited(s), true, s.http2);
    && s.isAsync && s.sendq == EMPTY && !s.wantWrite && s.outstanding.Some? && s.waitResolve == 1
    && p.pieces == rest && o.final == p.final && o.completes == p.completes && Announces(s, o, p.announced)
  }

  /** A chunk is queued, and more replies may come. */
  ghost predicate Loaded(s: Pump, rest: seq<Block>, o: Outcome, c: Block) {
    var p := Predict(s.replies, s.isAsync, s.http2);
    && s.wantWrite && Unawaited(s) && c != [] && s.sendq == Filled(Some(c), false)
    && rest == Cut(c, s.http2) + p.pieces && o.final == p.final && o.completes == p.completes && !o.announced
  }

  /** The last chunk is queued, or just the end. */
  ghost predicate LoadedLast(s: Pump, rest: seq<Block>, o: Outcome, c: Block) {
    && s.wantWrite && Unawaited(s) && s.sendq == Filled(if c == [] then None else Some(c), true)
    && rest == Cut(c, s.http2) && o.final == (c != []) && o.completes && Announces(s, o, true)
  }

  /** An empty chunk is queued, and nothing more arrives. */
  ghost predicate EmptyFront(s: Pump, rest: seq<Block>, o: Outcome, done: bool) {
    && s.wantWrite && Unawaited(s) && s.sendq == Filled(Some([]), done) && (s.isAsync || done || s.replies == [])
    && rest == [] && !o.final && o.completes && Announces(s, o, done)
  }

  /** The generator said neither a chunk nor an end; no event changes anything any more. */
  ghost predicate Stalled(s: Pump, rest: seq<Block>, o: Outcome) {
    && !s.wantWrite && Unawaited(s) && !Complete(s.sendq) && rest == [] && !o.completes
  }

  /** The generator was done before it yielded anything; events only ask it again. */
  ghost predicate Spinning(s: Pump, rest: seq<Block>, o: Outcome) {
    && s.wantWrite && Unawaited(s) && !s.isAsync && s.sendq == EMPTY && s.replies == [] && rest == []
    && !o.completes && !o.announced
  }

  ghost predicate Phase(s: Pump, rest: seq<Block>, o: Outcome) {
    || Waiting(s, rest, o)
    || (exists c: Block :: Loaded(s, rest, o, c))
    || (exists c: Block :: LoadedLast(s, rest, o, c))
    || (exists done: bool :: EmptyFront(s, rest, o, done))
    || Stalled(s, rest, o) || Spinning(s, rest, o)
  }

  /** While the transaction is open: these pieces were sent, and these are to come. */
  ghost predicate Going(s: Pump, sent: seq<Block>, rest: seq<Block>, o: Outcome) {
    && s.completed == 0 && !s.crashed && Phase(s, rest, o)
    && s.wire == OpenWireOf(sent, s.responseSent) && (!s.responseSent ==> sent == []) && sent + rest == o.pieces
    && (s.responseSent ==> !o.announced)
  }

  ghost predicate Gone(s: Pump, o: Outcome) {
    s.completed == 1 && !s.crashed && o.completes && s.wire == WireOf(o)
  }

  ghost predicate OnCourse(s: Pump, o: Outcome) {
    if s.completed == 0 then exists sent, rest :: Going(s, sent, rest, o) else Gone(s, o)
  }

  // ---------- the events ----------

  /** Headers, if they are still due. */
  lemma HeadersAre(s: Pump, sent: seq<Block>)
    requires s.wire == OpenWireOf(sent, s.responseSent) && (!s.responseSent ==> sent == [])
    ensures var s1 := HeadersSent(s);
            && s1 == s.(responseSent := true, wire := s1.wire)
            && s1.wire == [Headers(if Complete(s.sendq) && !s.responseSent then Some(|Data(s.sendq)|) else None)]
                          + Bodies(sent, false)
  {
  }

  lemma LastWire(header: Wire, sent: seq<Block>, pieces: seq<Block>, final: bool)
    requires final ==> pieces != []
    ensures [header] + Bodies(sent, false) + Bodies(pieces, final) + [Completed]
            == [header] + Bodies(sent + pieces, final) + [Completed]
  {
    BodiesAppend(sent, pieces, final);
  }

  lemma OpenWireGrows(sent: seq<Block>, pieces: seq<Block>)
    ensures [Headers(None)] + Bodies(sent, false) + Bodies(pieces, false) == OpenWireOf(sent + pieces, true)
  {
    BodiesAppend(sent, pieces, false);
  }

  lemma ServedAwaits(s: Pump, o: Outcome)
    requires Quiet(s) && s.isAsync
    requires var p := Predict(s.replies, true, s.http2);
             o.final == p.final && o.completes == p.completes && Announces(s, o, p.announced)
    ensures var s' := ServedAndClosed(s);
            && s' == s.(replies := s'.replies, outstanding := s'.outstanding, waitResolve := 1)
            && Waiting(s', Predict(s.replies, true, s.http2).pieces, o)
  {
    var s' := ServedAndClosed(s);
    if s.replies == [] {
      assert Awaited(s') == [Reply(None, true)];
      CutsJoin([], s.http2);
    } else {
      assert Awaited(s') == s.replies;
    }
  }

  /** What a reply given at once leaves in the queue. */
  function GivenAtOnce(r: Reply): QueueState {
    match r
    case Reply(value, done) => Filled(value, done)
    case Failure(_) => Filled(None, true)
  }

  lemma ServedIs(s: Pump)
    requires Quiet(s) && !s.isAsync
    ensures var r := NextReply(s);
            ServedAndClosed(s) == s.(replies := Asked(s).replies, sendq := GivenAtOnce(r), wantWrite := !Blank(r))
  {
    match NextReply(s)
    case Reply(value, done) =>
      FillEmpty(value, done);
      FilledIs(value, false);
    case Failure(_) =>
      FillEmpty(None, true);
      assert Data(EMPTY) == [];
  }

  /** A synchronous reply behind a chunk. */
  lemma ServedAtOnce(s: Pump, o: Outcome)
    requires Quiet(s) && !s.isAsync && s.responseSent && !o.announced
    requires var p := Predict(s.replies, false, s.http2); o.final == p.final && o.completes == p.completes
    ensures var s' := ServedAndClosed(s);
            && s' == s.(replies := s'.replies, sendq := s'.sendq, wantWrite := s'.wantWrite)
            && Phase(s', Predict(s.replies, false, s.http2).pieces, o)
  {
    hide ServedAndClosed;
    ServedIs(s);
    var s', r, pieces := ServedAndClosed(s), NextReply(s), Predict(s.replies, false, s.http2).pieces;
    var text := Text(r, false);
    NothingCut(s.http2);
    if Blank(r) {
      FilledIs(r.value, false);
      hide Filled;
      assert Stalled(s', pieces, o);
    } else if text == [] && r.Reply? && r.value.Some? {
      hide Filled;
      assert EmptyFront(s', pieces, o, true);
    } else if Last(r) {
      hide Filled;
      assert LoadedLast(s', pieces, o, text);
    } else {
      hide Filled;
      assert Loaded(s', pieces, o, text);
    }
  }

  lemma NothingCut(http2: bool)
    ensures Cut([], http2) == []
  {
  }

  function Answer(r: Reply): QueueState {
    match r
    case Reply(value, done) => Filled(value, done)
    case Failure(error) => Filled(Some(error), true)
  }

  lemma SettledIs(s: Pump)
    requires s.sendq == EMPTY && s.outstanding.Some? && s.waitResolve == 1 && !s.wantWrite
    ensures var r := s.outstanding.value;
            Settled(s) == s.(waitResolve := 0, outstanding := None, sendq := Answer(r), wantWrite := r != Reply(None, false))
  {
    match s.outstanding.value
    case Reply(value, done) => FillEmpty(value, done);
    case Failure(error) => FillEmpty(Some(error), true);
  }

  lemma SettledPhase(s: Pump, rest: seq<Block>, o: Outcome)
    requires Waiting(s, rest, o)
    ensures Phase(Settled(s), rest, o)
    ensures var s' := Settled(s); s' == s.(waitResolve := 0, outstanding := None, sendq := s'.sendq, wantWrite := s'.wantWrite)
  {
    hide Settled;
    SettledIs(s);
    var s', r := Settled(s), s.outstanding.value;
    var text := Text(r, true);
    assert Awaited(s)[0] == r && Awaited(s)[1..] == s.replies;
    CutsJoin([], s.http2);
    if Blank(r) {
      if r.value.Some? {
        assert EmptyFront(s', rest, o, false);
      } else {
        FilledIs(None, false);
        assert Stalled(s', rest, o);
      }
    } else if Last(r) {
      if text == [] && (r.Failure? || r.value.Some?) {
        assert EmptyFront(s', rest, o, true);
      } else {
        assert LoadedLast(s', rest, o, text);
      }
    } else {
      assert Loaded(s', rest, o, text);
    }
  }

  lemma WriteChunk(s: Pump, junk: nat, sent: seq<Block>, rest: seq<Block>, o: Outcome, c: Block)
    requires Going(s, sent, rest, o) && Loaded(s, rest, o, c)
    ensures Going(AfterWriteable(s, junk), sent + Cut(c, s.http2), Predict(s.replies, s.isAsync, s.http2).pieces, o)
  {
    hide Pieces;
    hide Predict;
    FilledIs(Some(c), false);
    PushChunk(s, junk, c);
    hide AfterWriteable;
    var s0 := s.(wantWrite := false);
    var s1 := HeadersSent(s0);
    var s2 := s1.(sendq := EMPTY, wire := s1.wire + Pieces(c, s.http2, false, false));
    HeadersAre(s0, sent);
    PiecesAreCuts(c, s.http2, false);
    OpenWireGrows(sent, Cut(c, s.http2));
    if s.isAsync {
      ServedAwaits(s2, o);
    } else {
      ServedAtOnce(s2, o);
    }
    Associate(sent, Cut(c, s.http2), Predict(s.replies, s.isAsync, s.http2).pieces);
  }

  lemma WriteLast(s: Pump, junk: nat, sent: seq<Block>, rest: seq<Block>, o: Outcome, c: Block)
    requires Going(s, sent, rest, o) && LoadedLast(s, rest, o, c)
    ensures Gone(AfterWriteable(s, junk), o)
  {
    hide Pieces;
    hide Bodies;
    hide Flatten;
    PushEnd(s, junk, c);
    hide AfterWriteable;
    FilledIs(if c == [] then None else Some(c), true);
    hide Filled;
    hide Data;
    WholeWire(s.(wantWrite := false), sent, c, o);
  }

  /** The wire of the outcome, put together from what was sent and the last chunk. */
  lemma WholeWire(s: Pump, sent: seq<Block>, c: Block, o: Outcome)
    requires s.wire == OpenWireOf(sent, s.responseSent) && (!s.responseSent ==> sent == [])
    requires Complete(s.sendq) && Data(s.sendq) == c && o.announced == !s.responseSent
    requires o.pieces == sent + Cut(c, s.http2) && o.final == (c != [])
    ensures HeadersSent(s).wire + Bodies(Cut(c, s.http2), c != []) + [Completed] == WireOf(o)
  {
    hide Bodies;
    hide Data;
    hide Complete;
    HeadersAre(s, sent);
    CutsJoin(c, s.http2);
    var pieces := Cut(c, s.http2);
    hide Cut;
    hide HeadersSent;
    hide Flatten;
    LastWire(HeadersSent(s).wire[0], sent, pieces, c != []);
    if !s.responseSent {
      assert [] + pieces == pieces;
    }
  }

  lemma PushEnd(s: Pump, junk: nat, c: Block)
    requires s.sendq == Filled(if c == [] then None else Some(c), true) && s.wantWrite && Unawaited(s)
    ensures var s1 := HeadersSent(s.(wantWrite := false)); var s' := AfterWriteable(s, junk);
            && s'.completed == s.completed + 1 && s'.crashed == s.crashed
            && s'.wire == s1.wire + Bodies(Cut(c, s.http2), c != []) + [Completed]
  {
    hide Pieces;
    if c == [] {
      PushDone(s, junk);
      NothingCut(s.http2);
      assert HeadersSent(s.(wantWrite := false)).wire + [] == HeadersSent(s.(wantWrite := false)).wire;
    } else {
      PushLast(s, junk, c);
      PiecesAreCuts(c, s.http2, true);
    }
  }

  /** An empty chunk in front: the event looks for more, finds nothing to write and completes. */
  lemma PushNothing(s: Pump, junk: nat, done: bool)
    requires s.sendq == Filled(Some([]), done) && s.wantWrite && Unawaited(s)
    requires s.isAsync || done || s.replies == []
    ensures var s' := AfterWriteable(s, junk); var s0 := HeadersSent(s.(wantWrite := false));
            && s'.wire == s0.wire + [Completed] && s'.completed == s.completed + 1 && s'.crashed == s.crashed
  {
    hide Pieces;
    FilledIs(Some([]), done);
    var s0 := HeadersSent(s.(wantWrite := false));
    EmptyStaysEmpty(s0, done);
    assert Pumped(Refilled(s0)) == CompletedOnce(Refilled(s0));
  }

  lemma EmptyStaysEmpty(s: Pump, done: bool)
    requires s.sendq == Filled(Some([]), done) && Unawaited(s) && (s.isAsync || done || s.replies == [])
    ensures var s1 := Refilled(s);
            && Data(s1.sendq) == [] && s1.sendq.items != [] && SeesQueue(s)
            && s1.wire == s.wire && s1.completed == s.completed && s1.crashed == s.crashed
  {
    FilledIs(Some([]), done);
    hide Data;
    if !done {
      if s.isAsync {
        assert Refilled(s) == Served(s);
      } else {
        DoneBehindEmpty();
        hide Filled;
        assert Served(s) == s.(wantWrite := true) && ServedDone(s);
        assert Refilled(s) == ClosedOff(Served(s));
      }
    }
  }

  lemma DoneBehindEmpty()
    ensures AfterClose(Filled(Some([]), false)) == Filled(Some([]), true) && Data(Filled(Some([]), true)) == []
    ensures Filled(Some([]), true).items != []
  {
    FilledIs(Some([]), true);
    assert Filled(Some([]), false).items + [Item([], true)] == Filled(Some([]), true).items;
  }

  lemma WriteNothing(s: Pump, junk: nat, sent: seq<Block>, rest: seq<Block>, o: Outcome, done: bool)
    requires Going(s, sent, rest, o) && EmptyFront(s, rest, o, done)
    ensures Gone(AfterWriteable(s, junk), o)
  {
    hide Flatten;
    hide Bodies;
    PushNothing(s, junk, done);
    hide AfterWriteable;
    FilledIs(Some([]), done);
    hide Filled;
    hide Data;
    assert sent + [] == sent;
    NothingWire(s.(wantWrite := false), sent, o);
  }

  lemma NothingWire(s: Pump, sent: seq<Block>, o: Outcome)
    requires s.wire == OpenWireOf(sent, s.responseSent) && (!s.responseSent ==> sent == [])
    requires Data(s.sendq) == [] && o.announced == (Complete(s.sendq) && !s.responseSent)
    requires o.pieces == sent && !o.final
    ensures HeadersSent(s).wire + [Completed] == WireOf(o)
  {
    hide Data;
    hide Complete;
    HeadersAre(s, sent);
    NothingSent();
  }

  lemma AskAgain(s: Pump, junk: nat, sent: seq<Block>, rest: seq<Block>, o: Outcome)
    requires Going(s, sent, rest, o) && Spinning(s, rest, o)
    ensures Going(AfterWriteable(s, junk), sent, rest, o) && Spinning(AfterWriteable(s, junk), rest, o)
  {
    assert Data(EMPTY) == [];
    var s0 := s.(wantWrite := false);
    HeadersAre(s0, sent);
    var s1 := HeadersSent(s0);
    assert Refilled(s1) == Served(s1) && Served(s1) == s1.(wantWrite := true) && !SeesQueue(s1);
    assert AfterWriteable(s, junk) == s1.(wantWrite := true);
  }

  lemma CourseStep(s: Pump, e: Event, o: Outcome)
    requires OnCourse(s, o) && Possible(s, e)
    ensures OnCourse(React(s, e), o)
  {
    hide Predict;
    hide Pieces;
    var sent, rest :| Going(s, sent, rest, o);
    match e
    case Settle =>
      SettledPhase(s, rest, o);
      assert Going(Settled(s), sent, rest, o);
    case Writeable(junk) => EventStep(s, junk, sent, rest, o);
  }

  lemma EventStep(s: Pump, junk: nat, sent: seq<Block>, rest: seq<Block>, o: Outcome)
    requires Going(s, sent, rest, o)
    ensures OnCourse(AfterWriteable(s, junk), o)
  {
    hide Predict;
    if Waiting(s, rest, o) || Stalled(s, rest, o) {
      assert !s.wantWrite && !Complete(s.sendq);
      assert AfterWriteable(s, junk) == s;
    } else if Spinning(s, rest, o) {
      AskAgain(s, junk, sent, rest, o);
    } else if done: bool :| EmptyFront(s, rest, o, done) {
      WriteNothing(s, junk, sent, rest, o, done);
    } else if c: Block :| LoadedLast(s, rest, o, c) {
      WriteLast(s, junk, sent, rest, o, c);
    } else {
      var c: Block :| Loaded(s, rest, o, c);
      WriteChunk(s, junk, sent, rest, o, c);
    }
  }

  lemma {:induction false} CourseRun(s: Pump, events: seq<Event>, o: Outcome)
    requires OnCourse(s, o) && PossibleRun(s, events)
    ensures OnCourse(PumpRun(s, events), o)
    decreases events
  {
    if events != [] {
      CourseStep(s, events[0], o);
      CourseRun(React(s, events[0]), events[1..], o);
    }
  }

  /** A generator that is over gives nothing more. Of promises, nothing behind an end is asked for anyway. */
  predicate Sensible(script: seq<Reply>, isAsync: bool) {
    isAsync || forall i :: 0 <= i < |script| - 1 ==> !Last(script[i])
  }

  lemma CourseStart(isAsync: bool, http2: bool, script: seq<Reply>)
    requires Sensible(script, isAsync)
    ensures OnCourse(Start(isAsync, http2, script), OutcomeOf(script, isAsync, http2))
  {
    var s0, s, o := NewSession(isAsync, http2, script), Start(isAsync, http2, script), OutcomeOf(script, isAsync, http2);
    if isAsync {
      ServedAwaits(s0, o);
      assert ServedAndClosed(s0) == s;
      assert Going(s, [], o.pieces, o);
    } else {
      StartAtOnce(s0, o);
      assert Going(s, [], o.pieces, o);
    }
  }

  /** The first reply of a synchronous generator is put into the queue; its end is passed over. */
  lemma ServedFirst(s: Pump)
    requires Quiet(s) && !s.isAsync
    ensures var r := NextReply(s); var chunk := if r.Reply? then r.value else None;
            Served(s) == s.(replies := Asked(s).replies, sendq := Filled(chunk, false), wantWrite := !Blank(r))
  {
    var r := NextReply(s);
    var chunk := if r.Reply? then r.value else None;
    FillEmpty(chunk, false);
    FilledIs(chunk, false);
    FilledIs(None, false);
    hide Data;
    hide Filled;
    hide AfterWrite;
  }

  lemma StartAtOnce(s: Pump, o: Outcome)
    requires Quiet(s) && !s.isAsync && !s.responseSent && Sensible(s.replies, false)
    requires o == OutcomeOf(s.replies, false, s.http2)
    ensures var s' := Served(s);
            && s' == s.(replies := s'.replies, sendq := s'.sendq, wantWrite := s'.wantWrite)
            && Phase(s', o.pieces, o)
  {
    ServedFirst(s);
    hide Served;
    var s', r := Served(s), NextReply(s);
    FilledIs(None, false);
    hide Data;
    if Blank(r) {
      FilledIs(r.value, false);
      hide Filled;
      assert Stalled(s', o.pieces, o);
    } else if r.Failure? || r.value.None? {
      assert s'.replies == [];
      assert Spinning(s', o.pieces, o);
    } else if r.value.value == [] {
      NothingCut(s.http2);
      hide Filled;
      assert s'.replies == [];
      assert EmptyFront(s', o.pieces, o, false);
    } else {
      hide Filled;
      assert s'.replies == s.replies[1..];
      assert Loaded(s', o.pieces, o, r.value.value);
    }
  }

  // ---------- the law ----------

  /** The send pump, for every script of every generator and every run: while the transaction is open, the
      headers and a prefix of the pieces were written, in order, none of them final; once it completed, exactly
      the wire of the outcome was. It completes only if the outcome says so, once, and no null queue is touched. */
  lemma WireIsPredicted(isAsync: bool, http2: bool, script: seq<Reply>, events: seq<Event>)
    requires Sensible(script, isAsync) && PossibleRun(Start(isAsync, http2, script), events)
    ensures var s := PumpRun(Start(isAsync, http2, script), events); !s.crashed && s.completed <= 1
    ensures var s, o := PumpRun(Start(isAsync, http2, script), events), OutcomeOf(script, isAsync, http2);
            if s.completed == 0 then
              exists sent :: s.wire == OpenWireOf(sent, s.responseSent) && sent <= o.pieces
            else o.completes && s.wire == WireOf(o)
  {
    CourseStart(isAsync, http2, script);
    CourseRun(Start(isAsync, http2, script), events, OutcomeOf(script, isAsync, http2));
    var s, o := PumpRun(Start(isAsync, http2, script), events), OutcomeOf(script, isAsync, http2);
    if s.completed == 0 {
      var sent, rest :| Going(s, sent, rest, o);
      assert s.wire == OpenWireOf(sent, s.responseSent) && sent <= o.pieces;
    }
  }

  // ---------- the outcome in plain terms ----------

  /** Did the generator end the body, rather than go blank? */
  predicate EndsOrRunsOut(script: seq<Reply>) {
    var k := Arriving(script); k == |script| || (k > 0 && Last(script[k - 1]))
  }

  /** Does the last reply that arrives bring bytes together with the end? */
  predicate EndsWithText(script: seq<Reply>, isAsync: bool) {
    var k := Arriving(script); k > 0 && Last(script[k - 1]) && Text(script[k - 1], isAsync) != []
  }

  lemma {:induction false} PredictIs(script: seq<Reply>, isAsync: bool, http2: bool)
    ensures var o, k := Predict(script, isAsync, http2), Arriving(script);
            && o.pieces == Cuts(script[..k], isAsync, http2)
            && (o.announced <==> script == [] || Last(script[0]))
            && (o.final <==> EndsWithText(script, isAsync))
            && (o.completes <==> EndsOrRunsOut(script) || (isAsync && script[k].value.Some?))
  {
    if script != [] && !Blank(script[0]) {
      var r, rest := script[0], script[1..];
      if Last(r) {
        assert script[..1] == [r] && [r][1..] == [];
      } else {
        PredictIs(rest, isAsync, http2);
        var k := Arriving(rest);
        assert Arriving(script) == 1 + k;
        assert script[..1 + k][0] == r && script[..1 + k][1..] == rest[..k];
        assert k > 0 ==> script[1 + k - 1] == rest[k - 1];
        assert k < |rest| ==> script[1 + k] == rest[k];
      }
    }
  }

  /** A synchronous generator has to start with a chunk, be it empty together with the end. */
  predicate StartsAtOnce(script: seq<Reply>) {
    script != [] && script[0].Reply? && script[0].value.Some? && !Blank(script[0])
  }

  /** In plain terms: what arrives is cut as the protocol wants; the length is announced if the first promise
      was the last; the last piece is final if its reply was the last, and not the very first one of a
      synchronous generator; promises complete unless one brings neither value nor end, and a synchronous
      generator if it starts with a chunk and never yields an empty one. */
  lemma OutcomeIs(script: seq<Reply>, isAsync: bool, http2: bool)
    requires Sensible(script, isAsync)
    ensures var o, k := OutcomeOf(script, isAsync, http2), Arriving(script);
            && o.pieces == Cuts(script[..k], isAsync, http2)
            && (o.announced <==> isAsync && (script == [] || Last(script[0])))
            && (o.final <==> EndsWithText(script, isAsync) && (isAsync || k > 1))
            && (o.completes <==>
                  if isAsync then EndsOrRunsOut(script) || script[k].value.Some?
                  else StartsAtOnce(script) && EndsOrRunsOut(script))
  {
    if isAsync {
      PredictIs(script, true, http2);
    } else if StartsAtOnce(script) {
      AtOnceIs(script, http2);
    } else {
      NothingArrives(script, http2);
    }
  }

  lemma AtOnceIs(script: seq<Reply>, http2: bool)
    requires Sensible(script, false) && StartsAtOnce(script)
    ensures var o, k := OutcomeOf(script, false, http2), Arriving(script);
            && o.pieces == Cuts(script[..k], false, http2) && !o.announced
            && (o.final <==> EndsWithText(script, false) && k > 1) && (o.completes <==> EndsOrRunsOut(script))
  {
    var r, rest := script[0], script[1..];
    hide Cut;
    PredictIs(rest, false, http2);
    NothingCut(http2);
    if Last(r) {
      assert rest == [] && script[..1] == [r] && [r][1..] == [];
    } else {
      hide Predict;
      hide Text;
      var k := Arriving(rest);
      assert script[..1 + k][0] == r && script[..1 + k][1..] == rest[..k];
      assert k > 0 ==> script[1 + k - 1] == rest[k - 1];
    }
  }

  lemma NothingArrives(script: seq<Reply>, http2: bool)
    requires Sensible(script, false) && !StartsAtOnce(script)
    ensures OutcomeOf(script, false, http2) == Outcome([], false, false, false)
    ensures var k := Arriving(script);
            Cuts(script[..k], false, http2) == [] && !(EndsWithText(script, false) && k > 1)
  {
    if script != [] && !Blank(script[0]) {
      NothingCut(http2);
      assert script[..1] == [script[0]] && [script[0]][1..] == [];
      assert Cuts([script[0]], false, http2) == Cut([], http2) + [];
    }
  }

  lemma {:induction false} CutsAreBody(script: seq<Reply>, isAsync: bool, http2: bool)
    ensures Flatten(Cuts(script, isAsync, http2)) == BodyOf(script, isAsync)
  {
    if script != [] {
      hide Cut;
      CutsAreBody(script[1..], isAsync, http2);
      CutsJoin(Text(script[0], isAsync), http2);
      FlattenAppend(Cut(Text(script[0], isAsync), http2), Cuts(script[1..], isAsync, http2));
    }
  }

  lemma {:induction false} SentBodies(pieces: seq<Block>, final: bool)
    ensures Sent(Bodies(pieces, final)) == Flatten(pieces)
  {
    if pieces != [] {
      SentBodies(pieces[1..], final);
      assert Bodies(pieces, final)[1..] == Bodies(pieces[1..], final);
    }
  }

  lemma SentBetween(header: Wire, pieces: seq<Block>, final: bool, end: seq<Wire>)
    requires header.Headers? && (end == [] || end == [Completed])
    ensures Sent([header] + Bodies(pieces, final) + end) == Flatten(pieces)
  {
    hide Sent;
    hide Flatten;
    SentBodies(pieces, final);
    SentAppend([header] + Bodies(pieces, final), end);
    SentCons(header, Bodies(pieces, final));
    SentEnd(end);
    NothingMore(Flatten(pieces));
  }

  lemma SentEnd(end: seq<Wire>)
    requires end == [] || end == [Completed]
    ensures Sent(end) == []
  {
  }

  /** The body: what was sent is always a prefix of the bytes that arrive, all of them once the transaction
      completed, and then the whole body exactly if no reply behind these has any bytes. */
  lemma BodyArrives(isAsync: bool, http2: bool, script: seq<Reply>, events: seq<Event>)
    requires Sensible(script, isAsync) && PossibleRun(Start(isAsync, http2, script), events)
    ensures var s, k := PumpRun(Start(isAsync, http2, script), events), Arriving(script);
            && Sent(s.wire) <= BodyOf(script[..k], isAsync)
            && (s.completed > 0 ==>
                  && Sent(s.wire) == BodyOf(script[..k], isAsync)
                  && (Sent(s.wire) == BodyOf(script, isAsync)
                      <==> forall i :: k <= i < |script| ==> Text(script[i], isAsync) == []))
  {
    hide PumpRun;
    hide PossibleRun;
    hide OutcomeOf;
    hide Sent;
    hide BodyOf;
    var s, o := PumpRun(Start(isAsync, http2, script), events), OutcomeOf(script, isAsync, http2);
    WireIsPredicted(isAsync, http2, script, events);
    OutcomeIs(script, isAsync, http2);
    CutsAreBody(script[..Arriving(script)], isAsync, http2);
    WholeExactlyIf(script, Arriving(script), isAsync);
    if s.completed == 0 {
      var sent :| s.wire == OpenWireOf(sent, s.responseSent) && sent <= o.pieces;
      SentSoFar(sent, s.responseSent, o.pieces);
    } else {
      SentBetween(WireOf(o)[0], o.pieces, o.final, [Completed]);
    }
  }

  lemma SentSoFar(sent: seq<Block>, started: bool, pieces: seq<Block>)
    requires sent <= pieces
    ensures Sent(OpenWireOf(sent, started)) <= Flatten(pieces)
  {
    var rest := pieces[|sent|..];
    assert pieces == sent + rest;
    FlattenAppend(sent, rest);
    if started {
      SentBetween(Headers(None), sent, false, []);
      assert [Headers(None)] + Bodies(sent, false) + [] == OpenWireOf(sent, true);
    }
  }

  lemma {:induction false} BodyAppend(a: seq<Reply>, b: seq<Reply>, isAsync: bool)
    ensures BodyOf(a + b, isAsync) == BodyOf(a, isAsync) + BodyOf(b, isAsync)
  {
    if a == [] {
      assert a + b == b;
    } else {
      BodyAppend(a[1..], b, isAsync);
      assert (a + b)[0] == a[0] && (a + b)[1..] == a[1..] + b;
      Associate(Text(a[0], isAsync), BodyOf(a[1..], isAsync), BodyOf(b, isAsync));
    }
  }

  lemma {:induction false} BodyIsEmpty(script: seq<Reply>, isAsync: bool)
    ensures BodyOf(script, isAsync) == [] <==> forall i :: 0 <= i < |script| ==> Text(script[i], isAsync) == []
  {
    if script != [] {
      hide Text;
      BodyIsEmpty(script[1..], isAsync);
      assert forall i :: 0 < i < |script| ==> script[i] == script[1..][i - 1];
      assert forall i :: 0 <= i < |script| - 1 ==> script[1..][i] == script[i + 1];
    }
  }

  lemma WholeExactlyIf(script: seq<Reply>, k: nat, isAsync: bool)
    requires k <= |script|
    ensures BodyOf(script[..k], isAsync) == BodyOf(script, isAsync)
            <==> forall i :: k <= i < |script| ==> Text(script[i], isAsync) == []
  {
    hide BodyOf;
    hide Text;
    var back := script[k..];
    assert script == script[..k] + back;
    BodyAppend(script[..k], back, isAsync);
    BodyIsEmpty(back, isAsync);
    assert forall i :: k <= i < |script| ==> script[i] == back[i - k];
    assert forall i :: 0 <= i < |back| ==> back[i] == script[k + i];
    NothingAdded(BodyOf(script[..k], isAsync), BodyOf(back, isAsync));
  }

  lemma NothingAdded(a: Block, b: Block)
    ensures a == a + b <==> b == []
  {
    assert |a + b| == |a| + |b|;
    if b == [] {
      assert a + [] == a;
    }
  }

  // ---------- headers and flags ----------

  /** The bodies between headers and completion: pieces of 1 to 1024 bytes on HTTP/2, the last one final or not,
      all others not. */
  ghost predicate BodiesEnd(ws: seq<Wire>, http2: bool, final: bool) {
    forall i :: 0 <= i < |ws| ==>
      && ws[i].Body? && ws[i].piece != [] && (http2 ==> |ws[i].piece| <= 1024)
      && (ws[i].final <==> final && i == |ws| - 1)
  }

  /** The whole wire: headers, bodies, completion. */
  ghost predicate WholeWireIs(wire: seq<Wire>, contentLength: Option<nat>, http2: bool, final: bool) {
    && |wire| >= 2 && wire[0] == Headers(contentLength) && wire[|wire| - 1] == Completed
    && BodiesEnd(wire[1..|wire| - 1], http2, final)
  }

  ghost predicate SmallPieces(pieces: seq<Block>, http2: bool) {
    forall i :: 0 <= i < |pieces| ==> pieces[i] != [] && (http2 ==> |pieces[i]| <= 1024)
  }

  lemma CutIsSmall(data: Block, http2: bool)
    ensures SmallPieces(Cut(data, http2), http2)
  {
    if http2 {
      ChunksAreAChunking(1024, data);
    }
  }

  lemma {:induction false} CutsAreSmall(script: seq<Reply>, isAsync: bool, http2: bool)
    ensures SmallPieces(Cuts(script, isAsync, http2), http2)
  {
    if script != [] {
      hide Cut;
      CutIsSmall(Text(script[0], isAsync), http2);
      CutsAreSmall(script[1..], isAsync, http2);
      var first, rest := Cut(Text(script[0], isAsync), http2), Cuts(script[1..], isAsync, http2);
      assert forall i :: 0 <= i < |rest| ==> (first + rest)[|first| + i] == rest[i];
    }
  }

  /** For every script and every run, once completed: the length is announced, and it is that of the body that
      arrives, exactly if the generator is asynchronous and its first promise was the end; and the last piece of
      the body is final exactly if the reply it came with ends the body, unless that was the very first one of a
      synchronous generator. Neither depends on the protocol. */
  lemma HeadersAndFlags(isAsync: bool, http2: bool, script: seq<Reply>, events: seq<Event>)
    requires Sensible(script, isAsync) && PossibleRun(Start(isAsync, http2, script), events)
    ensures var s, k := PumpRun(Start(isAsync, http2, script), events), Arriving(script);
            var length := |BodyOf(script[..k], isAsync)|;
            s.completed > 0 ==>
              WholeWireIs(s.wire, if isAsync && (script == [] || Last(script[0])) then Some(length) else None, http2,
                          EndsWithText(script, isAsync) && (isAsync || k > 1))
  {
    hide PumpRun;
    hide PossibleRun;
    hide OutcomeOf;
    hide BodyOf;
    hide Flatten;
    hide Cuts;
    hide Bodies;
    var s, o := PumpRun(Start(isAsync, http2, script), events), OutcomeOf(script, isAsync, http2);
    WireIsPredicted(isAsync, http2, script, events);
    OutcomeIs(script, isAsync, http2);
    CutsAreBody(script[..Arriving(script)], isAsync, http2);
    CutsAreSmall(script[..Arriving(script)], isAsync, http2);
    if s.completed > 0 {
      WireParts(WireOf(o)[0], Bodies(o.pieces, o.final));
    }
  }

  lemma WireParts(first: Wire, bodies: seq<Wire>)
    ensures var w := [first] + bodies + [Completed];
            && |w| == |bodies| + 2 && w[0] == first && w[|w| - 1] == Completed && w[1..|w| - 1] == bodies
  {
  }

  // ---------- scripts in scope ----------

  lemma {:induction false} ProperArrives(script: seq<Reply>, isAsync: bool)
    requires Proper(script, isAsync)
    ensures Arriving(script) == |script| && BodyOf(script, isAsync) == Flatten(ChunksOf(script))
  {
    if script != [] {
      var r := script[0];
      ProperTail(script, isAsync);
      ProperArrives(script[1..], isAsync);
      assert ProperReply(r, isAsync);
      FlattenAppend(Chunk(r), ChunksOf(script[1..]));
      FlattenOne(Text(r, isAsync));
    }
  }

  /** Does the script end with a chunk that ends the body? */
  predicate LastChunkEnds(script: seq<Reply>) {
    script != [] && var r := script[|script| - 1]; Last(r) && Chunk(r) != []
  }

  lemma BodyInScope(isAsync: bool, http2: bool, script: seq<Reply>, events: seq<Event>)
    requires InScope(script, isAsync)
    requires PossibleRun(Start(isAsync, http2, script), events)
    ensures var s0 := Start(isAsync, http2, script); var s := PumpRun(s0, events);
            var body := Flatten(ChunksOf(script)); var k := |ChunksOf(script)|;
            && (if s.completed == 0 then Open(s, body) else Finished(s, body))
            && Sent(s.wire) <= body
            && EffectiveEvents(s0, events) <= k + 1
            && (EffectiveEvents(s0, events) == k + 1 ==> s.completed == 1)
  {
    GoodStart(isAsync, http2, script);
    GoodRun(Start(isAsync, http2, script), events, Flatten(ChunksOf(script)));
  }

  lemma InScopeIsSensible(script: seq<Reply>, isAsync: bool)
    requires InScope(script, isAsync)
    ensures Sensible(script, isAsync) && Proper(script, isAsync)
  {
  }

  lemma WireInScope(isAsync: bool, http2: bool, script: seq<Reply>, events: seq<Event>)
    requires InScope(script, isAsync)
    requires PossibleRun(Start(isAsync, http2, script), events)
    ensures var s := PumpRun(Start(isAsync, http2, script), events); var body := Flatten(ChunksOf(script));
            s.completed > 0 ==>
              WholeWireIs(s.wire, if isAsync && (script == [] || Last(script[0])) then Some(|body|) else None, http2,
                          LastChunkEnds(script) && (isAsync || |script| > 1))
  {
    hide *;
    InScopeIsSensible(script, isAsync);
    ProperArrives(script, isAsync);
    HeadersAndFlags(isAsync, http2, script, events);
    assert script[..|script|] == script;
    EndsWithLastChunk(script, isAsync);
  }

  lemma EndsWithLastChunk(script: seq<Reply>, isAsync: bool)
    requires Proper(script, isAsync) && Arriving(script) == |script|
    ensures EndsWithText(script, isAsync) == LastChunkEnds(script)
  {
    if script != [] {
      var r := script[|script| - 1];
      assert ProperReply(r, isAsync);
    }
  }

  /** The send pump, over every run in scope: what was passed to the connection is always a prefix
      of the script's chunks, in order, without loss or repetition, behind headers sent once; no
      null queue is touched; at most one promise is awaited. While the transaction is open a
      write is wanted exactly when something is queued, at most one chunk is, and otherwise a
      promise is awaited. Once it completed, the whole body was sent, in pieces of at most 1024
      bytes on HTTP/2; its length was announced exactly if the first promise was the end; and the
      very last piece, and no other, is final exactly if it came with the end of the body, unless
      it was the first reply of a synchronous generator. With k chunks that takes at most k + 1
      effective writeable events. */
  lemma SendPump(isAsync: bool, http2: bool, script: seq<Reply>, events: seq<Event>)
    requires InScope(script, isAsync)
    requires PossibleRun(Start(isAsync, http2, script), events)
    ensures var s0 := Start(isAsync, http2, script); var s := PumpRun(s0, events);
            var body := Flatten(ChunksOf(script)); var k := |ChunksOf(script)|;
            && (if s.completed == 0 then Open(s, body) else Finished(s, body))
            && Sent(s.wire) <= body
            && EffectiveEvents(s0, events) <= k + 1
            && (EffectiveEvents(s0, events) == k + 1 ==> s.completed == 1)
    ensures var s := PumpRun(Start(isAsync, http2, script), events); var body := Flatten(ChunksOf(script));
            s.completed > 0 ==>
              WholeWireIs(s.wire, if isAsync && (script == [] || Last(script[0])) then Some(|body|) else None, http2,
                          LastChunkEnds(script) && (isAsync || |script| > 1))
  {
    hide *;
    BodyInScope(isAsync, http2, script, events);
    WireInScope(isAsync, http2, script, events);
  }

  // ---------- progress ----------

  /** The effective writeable events replies take: one for each chunk, and one for the end. */
  function Rounds(script: seq<Reply>): (n: nat)
    ensures 1 <= n <= Arriving(script) + 1
  {
    if script == [] || Blank(script[0]) || Last(script[0]) then 1 else 1 + Rounds(script[1..])
  }

  function RoundsOf(script: seq<Reply>, isAsync: bool): (n: nat)
    ensures n <= Arriving(script) + 1
  {
    if isAsync then Rounds(script)
    else if script == [] || Text(script[0], false) == [] then 1
    else 1 + if Last(script[0]) then 1 else Rounds(script[1..])
  }

  function RoundsLeft(s: Pump): nat {
    if s.completed > 0 then 0
    else if !s.wantWrite then Rounds(Awaited(s))
    else if Data(s.sendq) != [] && !Complete(s.sendq) then 1 + Rounds(s.replies)
    else 1
  }

  lemma SettleGoesOn(s: Pump, rest: seq<Block>, o: Outcome)
    requires Waiting(s, rest, o) && o.completes && s.completed == 0
    ensures RoundsLeft(Settled(s)) <= RoundsLeft(s)
  {
    hide Settled;
    SettledIs(s);
    var r := s.outstanding.value;
    AnswerIs(r);
    assert Awaited(s)[0] == r && Awaited(s)[1..] == s.replies;
    hide Answer;
    hide Data;
  }

  lemma AnswerIs(r: Reply)
    ensures Complete(Answer(r)) == Last(r) && Data(Answer(r)) == Text(r, true)
  {
    match r
    case Reply(value, done) => FilledIs(value, done);
    case Failure(error) => FilledIs(Some(error), true);
  }

  lemma ChunkGoesOn(s: Pump, junk: nat, sent: seq<Block>, rest: seq<Block>, o: Outcome, c: Block)
    requires Going(s, sent, rest, o) && Loaded(s, rest, o, c) && o.completes
    ensures RoundsLeft(AfterWriteable(s, junk)) + 1 <= RoundsLeft(s)
  {
    FilledIs(Some(c), false);
    PushChunk(s, junk, c);
    hide AfterWriteable;
    hide Pieces;
    var s1 := HeadersSent(s.(wantWrite := false));
    ServedGoesOn(s1.(sendq := EMPTY, wire := s1.wire + Pieces(c, s.http2, false, false)));
  }

  lemma ServedGoesOn(s: Pump)
    requires Quiet(s) && s.completed == 0 && Predict(s.replies, s.isAsync, s.http2).completes
    ensures RoundsLeft(ServedAndClosed(s)) <= Rounds(s.replies)
  {
    if s.isAsync {
      var s' := ServedAndClosed(s);
      assert Awaited(s') == if s.replies == [] then [Reply(None, true)] else s.replies;
    } else {
      ServedIs(s);
      hide ServedAndClosed;
      var r := NextReply(s);
      if r.Reply? {
        FilledIs(r.value, r.done);
      } else {
        FilledIs(None, true);
      }
      hide Filled;
      hide Data;
    }
  }

  lemma EventGoesOn(s: Pump, junk: nat, sent: seq<Block>, rest: seq<Block>, o: Outcome)
    requires Going(s, sent, rest, o) && o.completes && s.wantWrite
    ensures RoundsLeft(AfterWriteable(s, junk)) + 1 <= RoundsLeft(s)
  {
    hide Predict;
    if done: bool :| EmptyFront(s, rest, o, done) {
      WriteNothing(s, junk, sent, rest, o, done);
    } else if c: Block :| LoadedLast(s, rest, o, c) {
      WriteLast(s, junk, sent, rest, o, c);
    } else {
      var c: Block :| Loaded(s, rest, o, c);
      ChunkGoesOn(s, junk, sent, rest, o, c);
    }
  }

  lemma {:induction false} RunGoesOn(s: Pump, events: seq<Event>, o: Outcome)
    requires OnCourse(s, o) && o.completes && PossibleRun(s, events)
    ensures EffectiveEvents(s, events) + RoundsLeft(PumpRun(s, events)) <= RoundsLeft(s)
    decreases events
  {
    if events != [] {
      var sent, rest :| Going(s, sent, rest, o);
      CourseStep(s, events[0], o);
      match events[0] {
        case Settle => SettleGoesOn(s, rest, o);
        case Writeable(junk) =>
          if s.wantWrite {
            EventGoesOn(s, junk, sent, rest, o);
          }
      }
      RunGoesOn(React(s, events[0]), events[1..], o);
    }
  }

  /** Progress: if the outcome is that the transaction completes, then until it does a write is wanted or a
      promise awaited, and it takes exactly so many effective events that these many complete it: one at most
      for each reply that arrives, and one. Otherwise no number of events completes it. */
  lemma CompletesExactlyIf(isAsync: bool, http2: bool, script: seq<Reply>, events: seq<Event>)
    requires Sensible(script, isAsync) && PossibleRun(Start(isAsync, http2, script), events)
    ensures var s0 := Start(isAsync, http2, script); var s := PumpRun(s0, events);
            if OutcomeOf(script, isAsync, http2).completes then
              && EffectiveEvents(s0, events) <= RoundsOf(script, isAsync) <= Arriving(script) + 1
              && (EffectiveEvents(s0, events) == RoundsOf(script, isAsync) ==> s.completed == 1)
              && (s.completed == 0 ==> s.wantWrite || s.outstanding.Some?)
            else s.completed == 0
  {
    var s0, o := Start(isAsync, http2, script), OutcomeOf(script, isAsync, http2);
    WireIsPredicted(isAsync, http2, script, events);
    CourseStart(isAsync, http2, script);
    CourseRun(s0, events, o);
    if o.completes {
      RunGoesOn(s0, events, o);
      StartRounds(isAsync, http2, script);
      StillGoing(PumpRun(s0, events), o);
    }
  }

  lemma StillGoing(s: Pump, o: Outcome)
    requires OnCourse(s, o) && o.completes
    ensures if s.completed == 0 then (s.wantWrite || s.outstanding.Some?) && RoundsLeft(s) > 0 else s.completed == 1
  {
    hide Predict;
  }

  lemma StartRounds(isAsync: bool, http2: bool, script: seq<Reply>)
    requires Sensible(script, isAsync) && OutcomeOf(script, isAsync, http2).completes
    ensures RoundsLeft(Start(isAsync, http2, script)) == RoundsOf(script, isAsync)
  {
    var s := Start(isAsync, http2, script);
    if isAsync {
      assert Awaited(s) == if script == [] then [Reply(None, true)] else script;
    } else {
      var r := script[0];
      assert Data(EMPTY) == [];
      FillEmpty(r.value, false);
      FilledIs(r.value, false);
      assert s.replies == script[1..];
    }
  }
}

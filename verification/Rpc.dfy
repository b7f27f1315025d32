/** RPC request and response correlation (js/rpc.js): a client numbers its calls, the server answers
    them in any order, and a factory endpoint numbers the objects it creates. */
module Rpc {
  import opened Bytes

  /** Ids come from a one-element Uint32Array. */
  const IDS: nat := 0x1_0000_0000

  /** An abstract JavaScript value. */
  type Value = int

  class IdSequencer {
    var a: nat

    ghost predicate Valid()
      reads this
    {
      a < IDS
    }

    constructor (start: nat)
      ensures Valid() && a == start % 0x1_0000_0000
    {
      a := start % IDS;
    }

    /** The id after n of them were made is n modulo 2^32, see `IdAfter`. */
    method MakeId() returns (id: nat)
      requires Valid()
      modifies this
      ensures Valid() && id == old(a) && a == (id + 1) % 0x1_0000_0000
    {
      id := a;
      a := (a + 1) % IDS;
    }
  }

  function IdAfter(n: nat): nat {
    n % IDS
  }

  lemma NextIdAfter(n: nat)
    ensures (IdAfter(n) + 1) % 0x1_0000_0000 == IdAfter(n + 1)
  {
  }

  /** Ids are distinct exactly up to 2^32 of them. */
  lemma IdsAreDistinct(n: nat)
    ensures (forall i, j :: 0 <= i < j < n ==> IdAfter(i) != IdAfter(j)) <==> n <= 0x1_0000_0000
  {
    if n > IDS {
      assert IdAfter(0) == IdAfter(IDS);
    }
  }

  // ---------- messages ----------

  /** `origin` is the number of the call a message belongs to; no step looks at it. */
  datatype Request = Request(id: nat, name: string, params: seq<Value>, origin: nat)

  /** What the handler of a request comes to: `Respond(true, result)`, `Respond(false, error)`, or
      an exception, after which the answer holds the id alone. */
  datatype Answer = Success(result: Value) | Failure(error: Value) | Threw

  datatype Response = Response(id: nat, answer: Answer, origin: nat)

  /** A call: its id, what it asks, and what its promise resolved with. */
  datatype Call = Call(id: nat, name: string, params: seq<Value>, resolved: Option<Value>)

  // ---------- the client ----------

  datatype ClientState = ClientState(nextId: nat, handlers: map<nat, nat>, calls: seq<Call>)

  function AfterCall(c: ClientState, name: string, params: seq<Value>): ClientState {
    c.(nextId := (c.nextId + 1) % IDS, calls := c.calls + [Call(c.nextId, name, params, None)])
  }

  /** Once the message is sent, the call leaves its resolve function under its id. */
  function AfterRegister(c: ClientState, call: nat): ClientState
    requires call < |c.calls|
  {
    c.(handlers := c.handlers[c.calls[call].id := call])
  }

  /** A promise resolves once. */
  function ResolveCall(c: ClientState, call: nat, value: Value): ClientState {
    if call < |c.calls| && c.calls[call].resolved.None? then
      c.(calls := c.calls[call := c.calls[call].(resolved := Some(value))])
    else c
  }

  /** An answer without success stops in the log statement, which names an undeclared variable. */
  function AfterMessage(c: ClientState, id: nat, answer: Answer): ClientState {
    if answer.Success? && id in c.handlers then ResolveCall(c, c.handlers[id], answer.result) else c
  }

  class RpcClient {
    const ids: IdSequencer
    var handlers: map<nat, nat>
    var calls: seq<Call>

    ghost function State(): ClientState
      reads this, ids
    {
      ClientState(ids.a, handlers, calls)
    }

    constructor ()
      ensures ids.Valid() && State() == ClientState(0, map[], []) && fresh(ids)
    {
      ids := new IdSequencer(0);
      handlers, calls := map[], [];
    }

    /** The first half of `call`, up to sending the message. */
    method StartCall(name: string, params: seq<Value>) returns (message: Request)
      requires ids.Valid()
      modifies this, ids
      ensures ids.Valid() && State() == AfterCall(old(State()), name, params)
      ensures message == Request(old(ids.a), name, params, |old(calls)|)
    {
      var id := ids.MakeId();
      message := Request(id, name, params, |calls|);
      calls := calls + [Call(id, name, params, None)];
    }

    /** The second half, after the message was sent. */
    method FinishCall(call: nat)
      requires call < |calls|
      modifies this
      ensures State() == AfterRegister(old(State()), call)
    {
      handlers := handlers[calls[call].id := call];
    }

    method ProcessMessage(id: nat, answer: Answer)
      modifies this
      ensures State() == AfterMessage(old(State()), id, answer)
    {
      if !answer.Success? {
        return;
      }
      if id in handlers {
        var call := handlers[id];
        if call < |calls| && calls[call].resolved.None? {
          calls := calls[call := calls[call].(resolved := Some(answer.result))];
        }
      }
    }
  }

  // ---------- client, server and the messages between them ----------

  /** `produced` records what the endpoint made of each call's request. */
  datatype System = System(
    client: ClientState, requests: seq<Request>, responses: seq<Response>, produced: map<nat, (Request, Answer)>)

  const START := System(ClientState(0, map[], []), [], [], map[])

  /** Requests are handled, and answers arrive, in any order. */
  datatype Event =
    | Calls(name: string, params: seq<Value>)
    | Registers(call: nat)
    | Handles(request: nat, answer: Answer)
    | Receives(response: nat)

  predicate CanHappen(s: System, e: Event) {
    match e
    case Calls(_, _) => true
    case Registers(call) => call < |s.client.calls|
    case Handles(i, _) => i < |s.requests|
    case Receives(i) => i < |s.responses|
  }

  function Without<T>(s: seq<T>, i: nat): seq<T>
    requires i < |s|
  {
    s[..i] + s[i + 1..]
  }

  function Happen(s: System, e: Event): System
    requires CanHappen(s, e)
  {
    match e
    case Calls(m, p) =>
      s.(client := AfterCall(s.client, m, p),
         requests := s.requests + [Request(s.client.nextId, m, p, |s.client.calls|)])
    case Registers(call) => s.(client := AfterRegister(s.client, call))
    case Handles(i, answer) =>
      var r := s.requests[i];
      s.(requests := Without(s.requests, i), responses := s.responses + [Response(r.id, answer, r.origin)],
         produced := s.produced[r.origin := (r, answer)])
    case Receives(i) =>
      s.(responses := Without(s.responses, i),
         client := AfterMessage(s.client, s.responses[i].id, s.responses[i].answer))
  }

  ghost predicate CanRun(s: System, events: seq<Event>)
    decreases events
  {
    events != [] ==> CanHappen(s, events[0]) && CanRun(Happen(s, events[0]), events[1..])
  }

  ghost function Run(s: System, events: seq<Event>): System
    requires CanRun(s, events)
    decreases events
  {
    if events == [] then s else Run(Happen(s, events[0]), events[1..])
  }

  /** A message belongs to a call and carries that call's id. */
  ghost predicate BelongsTo(c: ClientState, id: nat, origin: nat) {
    origin < |c.calls| && id == c.calls[origin].id
  }

  /** Everything the messages and handlers say about calls is true, each request is in one place,
      and what a call resolved with is what the endpoint produced for it. */
  ghost predicate Correlated(s: System) {
    && s.client.nextId == IdAfter(|s.client.calls|)
    && (forall c :: 0 <= c < |s.client.calls| ==> s.client.calls[c].id == IdAfter(c))
    && (forall id :: id in s.client.handlers ==> BelongsTo(s.client, id, s.client.handlers[id]))
    && (forall i :: 0 <= i < |s.requests| ==>
          BelongsTo(s.client, s.requests[i].id, s.requests[i].origin) && s.requests[i].origin !in s.produced
          && SameQuestion(s.requests[i], s.client.calls[s.requests[i].origin]))
    && (forall i, j :: 0 <= i < j < |s.requests| ==> s.requests[i].origin != s.requests[j].origin)
    && (forall i :: 0 <= i < |s.responses| ==>
          && BelongsTo(s.client, s.responses[i].id, s.responses[i].origin)
          && s.responses[i].origin in s.produced
          && s.produced[s.responses[i].origin].1 == s.responses[i].answer)
    && (forall c :: c in s.produced ==>
          c < |s.client.calls| && s.produced[c].0.origin == c && SameQuestion(s.produced[c].0, s.client.calls[c]))
    && (forall c :: 0 <= c < |s.client.calls| && s.client.calls[c].resolved.Some? ==> Answered(s, c))
  }

  predicate SameQuestion(r: Request, c: Call) {
    r.id == c.id && r.name == c.name && r.params == c.params
  }

  /** The endpoint answered this call's own request with the value it resolved with. */
  predicate Answered(s: System, c: nat)
    requires c < |s.client.calls| && s.client.calls[c].resolved.Some?
  {
    c in s.produced && s.produced[c].1 == Success(s.client.calls[c].resolved.value)
  }

  lemma CallStep(s: System, m: string, p: seq<Value>)
    requires Correlated(s)
    ensures Correlated(Happen(s, Calls(m, p)))
  {
    NextIdAfter(|s.client.calls|);
    var s' := Happen(s, Calls(m, p));
    assert forall c :: 0 <= c < |s.client.calls| ==> s'.client.calls[c] == s.client.calls[c];
    assert forall c :: c in s.produced ==> SameQuestion(s.produced[c].0, s'.client.calls[c]);
  }

  lemma HandleStep(s: System, i: nat, answer: Answer)
    requires Correlated(s) && i < |s.requests|
    ensures Correlated(Happen(s, Handles(i, answer)))
  {
    var s' := Happen(s, Handles(i, answer));
    var origin := s.requests[i].origin;
    forall k | 0 <= k < |s'.requests|
      ensures s'.requests[k] in s.requests && s'.requests[k].origin != origin
    {
      assert s'.requests[k] == s.requests[if k < i then k else k + 1];
    }
    forall j, k | 0 <= j < k < |s'.requests|
      ensures s'.requests[j].origin != s'.requests[k].origin
    {
      assert s'.requests[j] == s.requests[if j < i then j else j + 1];
      assert s'.requests[k] == s.requests[if k < i then k else k + 1];
    }
    forall k | 0 <= k < |s'.responses|
      ensures BelongsTo(s'.client, s'.responses[k].id, s'.responses[k].origin)
      ensures s'.responses[k].origin in s'.produced && s'.produced[s'.responses[k].origin].1 == s'.responses[k].answer
    {
      if k < |s.responses| {
        assert s'.responses[k] == s.responses[k] && s.responses[k].origin in s.produced;
      }
    }
    forall c | 0 <= c < |s.client.calls| && s.client.calls[c].resolved.Some?
      ensures Answered(s', c)
    {
      assert Answered(s, c);
    }
  }

  /** While ids are distinct, the function kept under an answer's id is that of the call it answers. */
  lemma HandlerIsOwn(s: System, i: nat)
    requires Correlated(s) && i < |s.responses| && |s.client.calls| <= 0x1_0000_0000
    ensures var r := s.responses[i];
            r.origin < |s.client.calls| && (r.id in s.client.handlers ==> s.client.handlers[r.id] == r.origin)
  {
    var r := s.responses[i];
    assert BelongsTo(s.client, r.id, r.origin);
    if r.id in s.client.handlers {
      IdsAreDistinct(|s.client.calls|);
      assert IdAfter(s.client.handlers[r.id]) == IdAfter(r.origin);
    }
  }

  lemma ReceiveStep(s: System, i: nat)
    requires Correlated(s) && i < |s.responses| && |s.client.calls| <= 0x1_0000_0000
    ensures Correlated(Happen(s, Receives(i)))
  {
    hide IdAfter;
    HandlerIsOwn(s, i);
    var s' := Happen(s, Receives(i));
    forall k | 0 <= k < |s'.responses|
      ensures s'.responses[k] in s.responses
    {
      assert s'.responses[k] == s.responses[if k < i then k else k + 1];
    }
    forall c | 0 <= c < |s'.client.calls| && s'.client.calls[c].resolved.Some?
      ensures Answered(s', c)
    {
      if s.client.calls[c].resolved.Some? {
        assert Answered(s, c);
      }
    }
  }

  lemma RegisterStep(s: System, call: nat)
    requires Correlated(s) && call < |s.client.calls|
    ensures Correlated(Happen(s, Registers(call)))
  {
    forall c | 0 <= c < |s.client.calls| && s.client.calls[c].resolved.Some?
      ensures Answered(Happen(s, Registers(call)), c)
    {
      assert Answered(s, c);
    }
  }

  lemma HappenKeepsCalls(s: System, e: Event)
    requires CanHappen(s, e)
    ensures |Happen(s, e).client.calls| >= |s.client.calls|
  {
  }

  lemma {:induction false} RunGrows(s: System, events: seq<Event>)
    requires CanRun(s, events)
    ensures |Run(s, events).client.calls| >= |s.client.calls|
    decreases events
  {
    if events != [] {
      HappenKeepsCalls(s, events[0]);
      RunGrows(Happen(s, events[0]), events[1..]);
    }
  }

  lemma {:induction false} RunCorrelates(s: System, events: seq<Event>)
    requires Correlated(s) && CanRun(s, events) && |Run(s, events).client.calls| <= 0x1_0000_0000
    ensures Correlated(Run(s, events))
    decreases events
  {
    if events != [] {
      var s' := Happen(s, events[0]);
      RunGrows(s', events[1..]);
      HappenKeepsCalls(s, events[0]);
      match events[0] {
        case Calls(m, p) => CallStep(s, m, p);
        case Registers(call) => RegisterStep(s, call);
        case Handles(i, answer) => HandleStep(s, i, answer);
        case Receives(i) => ReceiveStep(s, i);
      }
      RunCorrelates(s', events[1..]);
    }
  }

  /** A call that resolved did so with what the endpoint produced for its own request. */
  ghost predicate GotItsOwn(s: System, c: nat)
    requires c < |s.client.calls|
  {
    s.client.calls[c].resolved.Some? ==>
      && c in s.produced && SameQuestion(s.produced[c].0, s.client.calls[c])
      && s.produced[c].1 == Success(s.client.calls[c].resolved.value)
  }

  /** Correlation: in every run of at most 2^32 calls, whatever the order in which requests are
      handled and answers arrive, a call resolves only with the result the endpoint produced for
      that call's own request; a call whose request failed or threw never resolves. */
  lemma CallsGetTheirOwnResults(events: seq<Event>, c: nat)
    requires CanRun(START, events) && |Run(START, events).client.calls| <= 0x1_0000_0000
    requires c < |Run(START, events).client.calls|
    ensures var s := Run(START, events);
            && GotItsOwn(s, c)
            && (c in s.produced && !s.produced[c].1.Success? ==> s.client.calls[c].resolved.None?)
  {
    RunCorrelates(START, events);
    var s := Run(START, events);
    if s.client.calls[c].resolved.Some? {
      assert Answered(s, c);
    }
  }

  /** Delivery: when an answer with a result arrives, the call it answers resolves with that result exactly
      if it has left its resolve function by then (and did not resolve before); no other call changes. */
  lemma RegisteredCallResolves(s: System, i: nat)
    requires Correlated(s) && i < |s.responses| && |s.client.calls| <= 0x1_0000_0000 && s.responses[i].answer.Success?
    ensures var r := s.responses[i]; var calls, calls' := s.client.calls, Happen(s, Receives(i)).client.calls;
            && r.origin < |calls| == |calls'|
            && (calls[r.origin].resolved.None? ==>
                  calls'[r.origin].resolved == (if r.id in s.client.handlers then Some(r.answer.result) else None))
            && (calls[r.origin].resolved.Some? ==> calls'[r.origin] == calls[r.origin])
            && (forall c :: 0 <= c < |calls| && c != r.origin ==> calls'[c] == calls[c])
  {
    HandlerIsOwn(s, i);
  }

  /** A promise resolves once: in every run, however long, a call that resolved keeps its value. */
  lemma {:induction false} ResolvedStaysResolved(s: System, events: seq<Event>, c: nat)
    requires CanRun(s, events) && c < |s.client.calls| && s.client.calls[c].resolved.Some?
    ensures c < |Run(s, events).client.calls| && Run(s, events).client.calls[c] == s.client.calls[c]
    decreases events
  {
    if events != [] {
      ResolvedStaysOnce(s, events[0], c);
      ResolvedStaysResolved(Happen(s, events[0]), events[1..], c);
    }
  }

  lemma ResolvedStaysOnce(s: System, e: Event, c: nat)
    requires CanHappen(s, e) && c < |s.client.calls| && s.client.calls[c].resolved.Some?
    ensures c < |Happen(s, e).client.calls| && Happen(s, e).client.calls[c] == s.client.calls[c]
  {
  }

  // ---------- one call too many ----------

  function Asks(n: nat): seq<Event> {
    seq(n, i => Calls("", []))
  }

  /** The system after n calls, none handled. */
  function AfterCalls(n: nat): System {
    System(ClientState(IdAfter(n), map[], seq(n, i requires 0 <= i < n => Call(IdAfter(i), "", [], None))),
           seq(n, i requires 0 <= i < n => Request(IdAfter(i), "", [], i)), [], map[])
  }

  lemma OneMoreCall(n: nat)
    ensures Happen(AfterCalls(n), Calls("", [])) == AfterCalls(n + 1)
  {
    NextIdAfter(n);
  }

  lemma {:induction false} CallsThen(k: nat, n: nat, rest: seq<Event>)
    requires CanRun(AfterCalls(k + n), rest)
    ensures CanRun(AfterCalls(k), Asks(n) + rest)
    ensures Run(AfterCalls(k), Asks(n) + rest) == Run(AfterCalls(k + n), rest)
    decreases n
  {
    var events := Asks(n) + rest;
    if n == 0 {
      assert events == rest;
    } else {
      OneMoreCall(k);
      assert events[0] == Calls("", []) && events[1..] == Asks(n - 1) + rest;
      CallsThen(k + 1, n - 1, rest);
    }
  }

  /** Beyond 2^32 calls correlation fails: for every larger number there is a run of that many calls in
      which call 2^32 resolves with the result of the first one's request, before its own was handled. */
  lemma OneCallTooMany(n: nat, value: Value) returns (events: seq<Event>)
    requires n > 0x1_0000_0000
    ensures CanRun(START, events)
    ensures var s := Run(START, events);
            && |s.client.calls| == n && s.client.calls[0x1_0000_0000].resolved == Some(value)
            && 0x1_0000_0000 !in s.produced && 0 in s.produced && s.produced[0].1 == Success(value)
  {
    var last := [Registers(IDS), Handles(0, Success(value)), Receives(0)];
    var s0 := AfterCalls(n);
    var s1 := Happen(s0, last[0]);
    var s2 := Happen(s1, last[1]);
    assert s2.responses == [Response(0, Success(value), 0)];
    var s3 := Happen(s2, last[2]);
    assert last[1..] == [Handles(0, Success(value)), Receives(0)] && last[1..][1..] == [Receives(0)];
    assert [Receives(0)][1..] == [];
    assert Run(s2, [Receives(0)]) == s3;
    assert Run(s1, last[1..]) == s3 && Run(s0, last) == s3;
    CallsThen(0, n, last);
    assert START == AfterCalls(0);
    events := Asks(n) + last;
  }

  /** In all runs of n calls every call gets its own result. */
  ghost predicate AlwaysCorrelated(n: nat) {
    forall events: seq<Event>, c: nat ::
      CanRun(START, events) && |Run(START, events).client.calls| == n && c < n ==> GotItsOwn(Run(START, events), c)
  }

  /** And that is exactly the limit. */
  lemma CorrelatedExactlyIf(n: nat)
    ensures AlwaysCorrelated(n) <==> n <= 0x1_0000_0000
  {
    if n <= IDS {
      forall events: seq<Event>, c: nat | CanRun(START, events) && |Run(START, events).client.calls| == n && c < n
        ensures GotItsOwn(Run(START, events), c)
      {
        CallsGetTheirOwnResults(events, c);
      }
    } else {
      var events := OneCallTooMany(n, 0);
      assert !GotItsOwn(Run(START, events), IDS);
    }
  }

  // ---------- a message is delivered once ----------

  /** An answer that arrives before its call registered is dropped, and nothing is left to resolve
      the call with: its promise stays pending for ever. */
  ghost predicate Unanswerable(s: System, c: nat) {
    && Correlated(s) && c < |s.client.calls| && s.client.calls[c].resolved.None?
    && c in s.produced && forall i :: 0 <= i < |s.responses| ==> s.responses[i].origin != c
  }

  lemma UnanswerableStep(s: System, e: Event, c: nat)
    requires Unanswerable(s, c) && CanHappen(s, e) && |Happen(s, e).client.calls| <= 0x1_0000_0000
    ensures Unanswerable(Happen(s, e), c)
  {
    match e {
      case Calls(m, p) => CallStep(s, m, p); hide Correlated;
      case Registers(call) => RegisterStep(s, call); hide Correlated;
      case Handles(i, answer) => StillUnanswerable(s, i, answer, c);
      case Receives(i) => StaysUnanswered(s, i, c);
    }
  }

  lemma StillUnanswerable(s: System, i: nat, answer: Answer, c: nat)
    requires Unanswerable(s, c) && i < |s.requests|
    ensures Unanswerable(Happen(s, Handles(i, answer)), c)
  {
    HandleStep(s, i, answer);
    assert s.requests[i].origin !in s.produced;
    hide Correlated;
  }

  lemma StaysUnanswered(s: System, i: nat, c: nat)
    requires Unanswerable(s, c) && i < |s.responses| && |s.client.calls| <= 0x1_0000_0000
    ensures Unanswerable(Happen(s, Receives(i)), c)
  {
    var s' := Happen(s, Receives(i));
    ReceiveStep(s, i);
    ReceivedTouchesOwn(s, i, c);
    hide Correlated;
    forall k | 0 <= k < |s'.responses|
      ensures s'.responses[k].origin != c
    {
      assert s'.responses[k] == s.responses[if k < i then k else k + 1];
    }
  }

  /** An answer resolves no call but its own. */
  lemma ReceivedTouchesOwn(s: System, i: nat, c: nat)
    requires Correlated(s) && i < |s.responses| && |s.client.calls| <= 0x1_0000_0000
    requires c < |s.client.calls| && s.responses[i].origin != c
    ensures var calls := Happen(s, Receives(i)).client.calls;
            |calls| == |s.client.calls| && calls[c] == s.client.calls[c]
  {
    HandlerIsOwn(s, i);
  }

  lemma {:induction false} DroppedAnswerIsLost(s: System, events: seq<Event>, c: nat)
    requires Unanswerable(s, c) && CanRun(s, events) && |Run(s, events).client.calls| <= 0x1_0000_0000
    ensures Unanswerable(Run(s, events), c)
    decreases events
  {
    if events != [] {
      RunGrows(Happen(s, events[0]), events[1..]);
      UnanswerableStep(s, events[0], c);
      DroppedAnswerIsLost(Happen(s, events[0]), events[1..], c);
    }
  }

  // ---------- the factory endpoint ----------

  /** A property key: the decimal text of an id, or any other text. */
  datatype Key = Id(id: nat) | Name(name: string)

  /** The names every plain object inherits (Properties of the Object Prototype Object, ECMA-262). */
  const INHERITED := {
    "constructor", "hasOwnProperty", "isPrototypeOf", "propertyIsEnumerable", "toLocaleString", "toString",
    "valueOf", "__proto__", "__defineGetter__", "__defineSetter__", "__lookupGetter__", "__lookupSetter__"
  }

  datatype EndpointState = EndpointState(nextId: nat, instances: map<nat, Value>)

  const NO_OBJECTS := EndpointState(0, map[])

  /** What a request finds under a key: an object that was made, one of the inherited functions, or none. */
  datatype Found = Made(obj: Value) | InheritedName | NoSuchObject

  /** `made` is what the constructor returned, if it returned; a throwing one takes no id. */
  function AfterNew(e: EndpointState, made: Option<Value>): EndpointState {
    if made.None? then e
    else EndpointState((e.nextId + 1) % IDS, e.instances[e.nextId := made.value])
  }

  function AfterDelete(e: EndpointState, key: Key): EndpointState {
    if key.Id? then e.(instances := e.instances - {key.id}) else e
  }

  class FactoryEndpoint {
    const ids: IdSequencer
    var instances: map<nat, Value>

    ghost function State(): EndpointState
      reads this, ids
    {
      EndpointState(ids.a, instances)
    }

    constructor ()
      ensures ids.Valid() && State() == NO_OBJECTS && fresh(ids)
    {
      ids := new IdSequencer(0);
      instances := map[];
    }

    /** Responds with the instance's id. */
    method New(made: Option<Value>) returns (answer: Answer)
      requires ids.Valid()
      modifies this, ids
      ensures ids.Valid() && State() == AfterNew(old(State()), made)
      ensures made.Some? ==> answer == Success(old(ids.a))
      ensures made.None? ==> answer.Failure?
    {
      if made.None? {
        return Answer.Failure(0);
      }
      var instance := ids.MakeId();
      instances := instances[instance := made.value];
      answer := Success(instance);
    }

    /** Deletes own properties only. */
    method Delete(key: Key)
      modifies this
      ensures State() == AfterDelete(old(State()), key)
    {
      if key.Id? {
        instances := instances - {key.id};
      }
    }

    /** The test of `invoke`, `get`, `set` and the listings: the `in` operator, which sees inherited names. */
    method Find(key: Key) returns (found: Found)
      ensures found.Made? <==> key.Id? && key.id in instances
      ensures found.Made? ==> found.obj == instances[key.id]
      ensures found.InheritedName? <==> key.Name? && key.name in INHERITED
    {
      match key {
        case Id(id) =>
          if id in instances {
            return Made(instances[id]);
          }
        case Name(name) =>
          if name in INHERITED {
            return InheritedName;
          }
      }
      found := NoSuchObject;
    }
  }

  datatype EndpointOp = New(made: Option<Value>) | Delete(key: Key)

  function EndpointStep(e: EndpointState, op: EndpointOp): EndpointState {
    match op
    case New(made) => AfterNew(e, made)
    case Delete(key) => AfterDelete(e, key)
  }

  function EndpointRun(e: EndpointState, ops: seq<EndpointOp>): EndpointState
    decreases ops
  {
    if ops == [] then e else EndpointStep(EndpointRun(e, ops[..|ops| - 1]), ops[|ops| - 1])
  }

  predicate Creates(op: EndpointOp) {
    op.New? && op.made.Some?
  }

  function Created(ops: seq<EndpointOp>): nat {
    if ops == [] then 0 else Created(ops[..|ops| - 1]) + if Creates(ops[|ops| - 1]) then 1 else 0
  }

  /** Operation i created an object under this id, and no later one deleted the id or made another under it. */
  ghost predicate LastMade(ops: seq<EndpointOp>, i: nat, id: nat) {
    && i < |ops| && MakesId(ops, i, id)
    && forall j :: i < j < |ops| ==> ops[j] != Delete(Id(id)) && !MakesId(ops, j, id)
  }

  predicate MakesId(ops: seq<EndpointOp>, i: nat, id: nat)
    requires i < |ops|
  {
    Creates(ops[i]) && IdAfter(Created(ops[..i])) == id
  }

  /** The id was given to an object that was not deleted since. */
  ghost predicate IsLive(ops: seq<EndpointOp>, id: nat) {
    exists i: nat :: LastMade(ops, i, id)
  }

  lemma LastMadeEarlier(ops: seq<EndpointOp>, op: EndpointOp, i: nat, id: nat)
    requires i < |ops|
    ensures LastMade(ops + [op], i, id) <==>
            LastMade(ops, i, id) && op != Delete(Id(id)) && !MakesId(ops + [op], |ops|, id)
  {
    var all := ops + [op];
    forall j | 0 <= j < |ops|
      ensures all[j] == ops[j] && MakesId(all, j, id) == MakesId(ops, j, id)
    {
      assert all[..j] == ops[..j];
    }
    assert all[|ops|] == op;
  }

  lemma LastMadeNow(ops: seq<EndpointOp>, op: EndpointOp, id: nat)
    ensures LastMade(ops + [op], |ops|, id) <==> Creates(op) && IdAfter(Created(ops)) == id
  {
    assert (ops + [op])[..|ops|] == ops;
  }

  /** What the operations say about an id is what the endpoint holds: exactly the live ids have an object, and
      it is the one last made under the id. */
  lemma {:induction false} HoldsLiveObjects(ops: seq<EndpointOp>, id: nat)
    ensures var e := EndpointRun(NO_OBJECTS, ops);
            && e.nextId == Created(ops) % 0x1_0000_0000
            && (id in e.instances <==> IsLive(ops, id))
            && (forall i: nat :: LastMade(ops, i, id) ==> id in e.instances && ops[i].made == Some(e.instances[id]))
    decreases ops
  {
    if ops != [] {
      var front, op := ops[..|ops| - 1], ops[|ops| - 1];
      assert ops == front + [op];
      HoldsLiveObjects(front, id);
      NextIdAfter(Created(front));
      LastMadeNow(front, op, id);
      var e, made := EndpointRun(NO_OBJECTS, front), Creates(op) && IdAfter(Created(front)) == id;
      forall i: nat | LastMade(ops, i, id)
        ensures id in EndpointStep(e, op).instances && ops[i].made == Some(EndpointStep(e, op).instances[id])
      {
        LastMadeCases(front, op, i, id);
      }
      if id in EndpointStep(e, op).instances && !made {
        var i: nat :| LastMade(front, i, id);
        LastMadeEarlier(front, op, i, id);
        assert ops[..|front|] == front;
      }
    }
  }

  lemma LastMadeCases(ops: seq<EndpointOp>, op: EndpointOp, i: nat, id: nat)
    requires LastMade(ops + [op], i, id)
    ensures if i == |ops| then Creates(op) && IdAfter(Created(ops)) == id
            else LastMade(ops, i, id) && op != Delete(Id(id)) && !(Creates(op) && IdAfter(Created(ops)) == id)
  {
    assert (ops + [op])[..|ops|] == ops;
    if i < |ops| {
      LastMadeEarlier(ops, op, i, id);
    }
  }

  /** The next creation overwrites a live object exactly if its id, which wraps after 2^32 creations, was given
      before and not deleted since. */
  lemma NewOverwritesExactlyIf(ops: seq<EndpointOp>)
    ensures var e := EndpointRun(NO_OBJECTS, ops);
            e.nextId in e.instances <==> IsLive(ops, Created(ops) % 0x1_0000_0000)
  {
    HoldsLiveObjects(ops, IdAfter(Created(ops)));
  }

  /** It never does within the first 2^32 creations. Until then, from any earlier point of a run on, ids that
      were deleted do not come back, and objects that stay are those that were there. */
  lemma NewNeverOverwrites(ops: seq<EndpointOp>, k: nat)
    requires Created(ops) < 0x1_0000_0000 && k <= |ops|
    ensures var e, e' := EndpointRun(NO_OBJECTS, ops[..k]), EndpointRun(NO_OBJECTS, ops);
            && e'.nextId !in e'.instances
            && forall id: nat :: id < Created(ops[..k]) ==>
                 && (id !in e.instances ==> id !in e'.instances)
                 && (id in e.instances && id in e'.instances ==> e'.instances[id] == e.instances[id])
  {
    var id := IdAfter(Created(ops));
    HoldsLiveObjects(ops, id);
    if IsLive(ops, id) {
      var i: nat :| LastMade(ops, i, id);
      CreatedBefore(ops, i);
      assert false;
    }
    IdsStay(ops, k);
  }

  lemma {:induction false} IdsStay(ops: seq<EndpointOp>, k: nat)
    requires Created(ops) < 0x1_0000_0000 && k <= |ops|
    ensures Created(ops[..k]) <= Created(ops)
    ensures var e, e' := EndpointRun(NO_OBJECTS, ops[..k]), EndpointRun(NO_OBJECTS, ops);
            forall id: nat :: id < Created(ops[..k]) ==>
              && (id !in e.instances ==> id !in e'.instances)
              && (id in e.instances && id in e'.instances ==> e'.instances[id] == e.instances[id])
    decreases |ops|
  {
    if k == |ops| {
      assert ops[..k] == ops;
    } else {
      var front := ops[..|ops| - 1];
      IdsStay(front, k);
      HoldsLiveObjects(front, 0);
      assert front[..k] == ops[..k];
    }
  }

  lemma {:induction false} CreatedBefore(ops: seq<EndpointOp>, i: nat)
    requires i < |ops| && Creates(ops[i])
    ensures Created(ops[..i]) < Created(ops)
    decreases |ops|
  {
    var front := ops[..|ops| - 1];
    if i < |front| {
      CreatedBefore(front, i);
      assert front[..i] == ops[..i];
    }
  }

  /** And without deletions it does from then on. */
  lemma NewOverwritesAfterWrapping(ops: seq<EndpointOp>)
    requires forall i :: 0 <= i < |ops| ==> ops[i].New?
    ensures var e := EndpointRun(NO_OBJECTS, ops);
            e.nextId in e.instances <==> Created(ops) >= 0x1_0000_0000
  {
    if Created(ops) < IDS {
      NewNeverOverwrites(ops, 0);
    } else {
      HoldsLiveObjects(ops, IdAfter(Created(ops)));
      AllIdsLive(ops, IdAfter(Created(ops)));
    }
  }

  lemma {:induction false} AllIdsLive(ops: seq<EndpointOp>, id: nat)
    requires forall i :: 0 <= i < |ops| ==> ops[i].New?
    requires id < 0x1_0000_0000 && id < Created(ops)
    ensures id in EndpointRun(NO_OBJECTS, ops).instances
    decreases ops
  {
    var front, op := ops[..|ops| - 1], ops[|ops| - 1];
    HoldsLiveObjects(front, id);
    if id < Created(front) {
      AllIdsLive(front, id);
    }
  }

  /** A request is answered for a key that no creation gave out exactly if it is the name of something every
      object inherits: the endpoint then works on a function of the language, where it should say that there
      is no such object. */
  lemma FindsExactlyIf(ops: seq<EndpointOp>, key: Key, found: Found)
    requires var e := EndpointRun(NO_OBJECTS, ops);
             && (found.Made? <==> key.Id? && key.id in e.instances)
             && (found.InheritedName? <==> key.Name? && key.name in INHERITED)
    ensures !found.NoSuchObject? <==>
            || (key.Id? && IsLive(ops, key.id))
            || (key.Name? && key.name in {
                  "constructor", "hasOwnProperty", "isPrototypeOf", "propertyIsEnumerable", "toLocaleString",
                  "toString", "valueOf", "__proto__", "__defineGetter__", "__defineSetter__", "__lookupGetter__",
                  "__lookupSetter__" })
  {
    if key.Id? {
      HoldsLiveObjects(ops, key.id);
    }
  }
}

/** The FIFO of pending reads (lib/asynciterator.c, lib/asynciterator.h). Promises are numbered in
    the order `next` creates them, and every settlement is logged. */
module AsyncIterators {
  import opened Bytes

  /** The JavaScript values that pass through: nothing, null, or bytes. */
  datatype Value = Undefined | Null | Data(bytes: Block)

  datatype Read = Read(promise: nat, id: nat)

  datatype Settlement =
    | Resolved(promise: nat, value: Value, done: bool)
    | Rejected(promise: nat, error: Value)

  datatype IterState = IterState(
    pending: seq<Read>, closed: bool, closing: bool, serial: nat,
    created: nat, log: seq<Settlement>)

  const FRESH := IterState([], false, false, 0, 0, [])
  const UINT32 := 0x1_0000_0000

  predicate Stopped(s: IterState) {
    s.closing || s.closed
  }

  // ---------- what each operation leaves ----------

  function AfterNext(s: IterState): IterState {
    if Stopped(s) then
      s.(closed := true, closing := true, created := s.created + 1,
         log := s.log + [Resolved(s.created, Undefined, true)])
    else
      var serial := (s.serial + 1) % UINT32;
      s.(pending := s.pending + [Read(s.created, serial)], serial := serial, created := s.created + 1)
  }

  function AfterEmplace(s: IterState, value: Value, done: bool): IterState {
    if s.pending == [] then s
    else s.(pending := s.pending[1..], log := s.log + [Resolved(s.pending[0].promise, value, done)])
  }

  function Rejections(waiting: seq<Read>, error: Value): (r: seq<Settlement>)
    ensures |r| == |waiting|
    ensures forall i :: 0 <= i < |waiting| ==> r[i] == Rejected(waiting[i].promise, error)
  {
    seq(|waiting|, i requires 0 <= i < |waiting| => Rejected(waiting[i].promise, error))
  }

  function AfterCancel(s: IterState, error: Value): IterState {
    s.(pending := [], closed := true, log := s.log + Rejections(s.pending, error))
  }

  function AfterStop(s: IterState, value: Value): IterState {
    if s.pending == [] then s.(closing := true)
    else AfterCancel(AfterEmplace(s, value, true).(closing := false), Null)
  }

  function AfterThrow(s: IterState, error: Value): IterState {
    if s.pending == [] then s else AfterCancel(s, error)
  }

  class AsyncIterator {
    var pending: seq<Read>
    var closed: bool
    var closing: bool
    var serial: nat
    var created: nat
    ghost var log: seq<Settlement>

    ghost function State(): IterState
      reads this
    {
      IterState(pending, closed, closing, serial, created, log)
    }

    constructor ()
      ensures State() == FRESH
    {
      pending, closed, closing, serial, created, log := [], false, false, 0, 0, [];
    }

    /** Asserts, like the source, that a stopped iterator has no pending read. */
    method Next()
      requires Stopped(State()) ==> pending == []
      modifies this
      ensures State() == AfterNext(old(State()))
    {
      if closing || closed {
        assert pending == [];
        log := log + [Resolved(created, Undefined, true)];
        closed := true;
        closing := true;
      } else {
        serial := (serial + 1) % UINT32;
        pending := pending + [Read(created, serial)];
      }
      created := created + 1;
    }

    method Emplace(value: Value, done: bool) returns (taken: bool)
      modifies this
      ensures State() == AfterEmplace(old(State()), value, done)
      ensures taken == (old(pending) != [])
    {
      taken := false;
      if pending != [] {
        log := log + [Resolved(pending[0].promise, value, done)];
        pending := pending[1..];
        taken := true;
      }
    }

    method Yield(value: Value) returns (taken: bool)
      modifies this
      ensures State() == AfterEmplace(old(State()), value, false)
      ensures taken == (old(pending) != [])
    {
      if pending == [] {
        return false;
      }
      taken := Emplace(value, false);
    }

    method Cancel(error: Value) returns (rejected: nat)
      modifies this
      ensures State() == AfterCancel(old(State()), error)
      ensures rejected == |old(pending)|
    {
      rejected := 0;
      while pending != []
        invariant rejected <= |old(pending)| && pending == old(pending)[rejected..]
        invariant log == old(log) + Rejections(old(pending)[..rejected], error)
        invariant closed == old(closed) && closing == old(closing)
        invariant serial == old(serial) && created == old(created)
        decreases |pending|
      {
        log := log + [Rejected(pending[0].promise, error)];
        pending := pending[1..];
        rejected := rejected + 1;
      }
      closed := true;
      assert old(pending)[..rejected] == old(pending);
    }

    method Stop(value: Value) returns (taken: bool)
      modifies this
      ensures State() == AfterStop(old(State()), value)
      ensures taken == (old(pending) != [])
    {
      if pending != [] {
        var _ := Emplace(value, true);
        closing := false;
        closed := true;
        var _ := Cancel(Null);
        return true;
      }
      closing := true;
      return false;
    }

    method Throw(error: Value) returns (taken: bool)
      modifies this
      ensures State() == AfterThrow(old(State()), error)
      ensures taken == (old(pending) != [])
    {
      if pending == [] {
        return false;
      }
      var _ := Cancel(error);
      return true;
    }
  }

  // ---------- runs ----------

  datatype IterOp =
    | Next
    | Emplace(value: Value, done: bool)
    | Cancel(error: Value)
    | Stop(last: Value)
    | Throw(error: Value)

  function Step(s: IterState, op: IterOp): IterState {
    match op
    case Next => AfterNext(s)
    case Emplace(v, done) => AfterEmplace(s, v, done)
    case Cancel(e) => AfterCancel(s, e)
    case Stop(v) => AfterStop(s, v)
    case Throw(e) => AfterThrow(s, e)
  }

  function Run(s: IterState, ops: seq<IterOp>): IterState
    decreases ops
  {
    if ops == [] then s else Run(Step(s, ops[0]), ops[1..])
  }

  /** Promise accounting. The k-th settlement settles promise k, the pending reads hold the
      promises after those in order, and a stopped iterator has no pending read. So each promise
      is settled at most once, first come first served, and none is lost. */
  ghost predicate Accounted(s: IterState) {
    && (forall i :: 0 <= i < |s.log| ==> s.log[i].promise == i)
    && (forall i :: 0 <= i < |s.pending| ==> s.pending[i].promise == |s.log| + i)
    && s.created == |s.log| + |s.pending|
    && (Stopped(s) ==> s.pending == [])
  }

  lemma StepAccounts(s: IterState, op: IterOp)
    requires Accounted(s)
    ensures Accounted(Step(s, op)) && s.log <= Step(s, op).log
    ensures Stopped(s) ==> Stopped(Step(s, op))
  {
    match op
    case Next =>
    case Emplace(v, done) =>
    case Cancel(e) => CancelAccounts(s, e);
    case Stop(v) =>
      if s.pending != [] {
        CancelAccounts(AfterEmplace(s, v, true).(closing := false), Null);
      }
    case Throw(e) => CancelAccounts(s, e);
  }

  lemma CancelAccounts(s: IterState, e: Value)
    requires Accounted(s)
    ensures Accounted(AfterCancel(s, e)) && s.log <= AfterCancel(s, e).log
  {
  }

  function ReadsAsked(ops: seq<IterOp>): nat {
    if ops == [] then 0 else (if ops[0].Next? then 1 else 0) + ReadsAsked(ops[1..])
  }

  lemma {:induction false} RunAccounts(s: IterState, ops: seq<IterOp>)
    requires Accounted(s)
    ensures Accounted(Run(s, ops)) && s.log <= Run(s, ops).log
    ensures Run(s, ops).created == s.created + ReadsAsked(ops)
    ensures Stopped(s) ==> Stopped(Run(s, ops))
    decreases ops
  {
    if ops != [] {
      StepAccounts(s, ops[0]);
      StepCreates(s, ops[0]);
      RunAccounts(Step(s, ops[0]), ops[1..]);
    }
  }

  lemma StepCreates(s: IterState, op: IterOp)
    ensures Step(s, op).created == s.created + if op.Next? then 1 else 0
  {
  }

  /** Reads are numbered from 1 on, in 32 bits: nothing was asked but not queued while the iterator runs. */
  ghost predicate Numbered(s: IterState) {
    && (!Stopped(s) ==> s.serial == s.created % 0x1_0000_0000)
    && (forall i :: 0 <= i < |s.pending| ==> s.pending[i].id == (s.pending[i].promise + 1) % 0x1_0000_0000)
  }

  lemma {:induction false} RunNumbers(s: IterState, ops: seq<IterOp>)
    requires Accounted(s) && Numbered(s)
    ensures Numbered(Run(s, ops))
    decreases ops
  {
    if ops != [] {
      StepAccounts(s, ops[0]);
      StepNumbers(s, ops[0]);
      RunNumbers(Step(s, ops[0]), ops[1..]);
    }
  }

  lemma StepNumbers(s: IterState, op: IterOp)
    requires Accounted(s) && Numbered(s)
    ensures Numbered(Step(s, op))
  {
    match op
    case Next => NextSerial(s.created);
    case Emplace(v, done) =>
    case Cancel(e) =>
    case Stop(v) =>
    case Throw(e) =>
  }

  lemma NextSerial(n: nat)
    ensures (n % UINT32 + 1) % UINT32 == (n + 1) % UINT32
  {
  }

  /** Over every run of a new iterator: the k-th settlement settles the promise of the k-th call of
      `next`, the promises of all later calls are pending, in that order, and no settlement is taken
      back by what follows. */
  lemma PromisesAreAccounted(ops: seq<IterOp>, more: seq<IterOp>)
    ensures var s := Run(FRESH, ops);
            && |s.log| + |s.pending| == ReadsAsked(ops)
            && (forall k :: 0 <= k < |s.log| ==> s.log[k].promise == k)
            && (forall k :: 0 <= k < |s.pending| ==>
                  s.pending[k] == Read(|s.log| + k, (|s.log| + k + 1) % 0x1_0000_0000))
            && (Stopped(s) ==> |s.log| == ReadsAsked(ops))
            && s.log <= Run(s, more).log
  {
    RunAccounts(FRESH, ops);
    RunNumbers(FRESH, ops);
    RunAccounts(Run(FRESH, ops), more);
  }

  /** Stopping with reads pending completes the oldest and rejects all the others, and the iterator is closed;
      without one it only waits to be closed. */
  lemma StopSettlesEveryRead(s: IterState, value: Value)
    requires Accounted(s)
    ensures var s' := AfterStop(s, value);
            && s'.pending == [] && |s'.log| == s.created == s'.created && s.log <= s'.log
            && (s.pending == [] ==> s'.log == s.log && s'.closing && s'.closed == s.closed)
            && (s.pending != [] ==>
                  && s'.log[|s.log|] == Resolved(|s.log|, value, true)
                  && (forall i :: |s.log| < i < s.created ==> s'.log[i] == Rejected(i, Null))
                  && s'.closed && !s'.closing)
  {
  }

  /** Cancelling rejects every pending read with the error given, and closes; so does throwing, if a read is
      pending, and otherwise it does nothing. */
  lemma CancelRejectsEveryRead(s: IterState, error: Value)
    requires Accounted(s)
    ensures var s' := AfterCancel(s, error);
            && s'.pending == [] && s'.closed && |s'.log| == s.created == s'.created && s.log <= s'.log
            && (forall i :: |s.log| <= i < s.created ==> s'.log[i] == Rejected(i, error))
            && AfterThrow(s, error) == (if s.pending == [] then s else s')
  {
  }

  /** A value goes to the oldest pending read alone, with its flag; without a read it goes nowhere. */
  lemma EmplaceSettlesOldest(s: IterState, value: Value, done: bool)
    requires Accounted(s)
    ensures var s' := AfterEmplace(s, value, done);
            if s.pending == [] then s' == s
            else s'.log == s.log + [Resolved(|s.log|, value, done)] && s'.pending == s.pending[1..]
                 && s'.created == s.created && s'.serial == s.serial && Stopped(s') == Stopped(s)
  {
  }

  /** After a stop, whatever happens in between, a call of `next` settles at once as done and closes for good. */
  lemma NextAfterStopIsDone(s: IterState, value: Value, later: seq<IterOp>)
    requires Accounted(s)
    ensures var t := Run(AfterStop(s, value), later);
            && t.pending == []
            && AfterNext(t).log == t.log + [Resolved(t.created, Undefined, true)]
            && AfterNext(t).pending == [] && AfterNext(t).closed && AfterNext(t).closing
  {
    StepAccounts(s, Stop(value));
    RunAccounts(AfterStop(s, value), later);
  }
}

/** The growing byte buffer (lib/buffer.c, lib/buffer.h), on the heap or empty. The block runs from
    `start` to `end`; read and write positions are counted from its start. */
module Buffers {

  /** The bytes written, the read position and the size of the block. */
  datatype BufferState = BufferState(text: string, read: nat, size: nat)

  predicate Sane(s: BufferState) {
    s.read <= |s.text| <= s.size
  }

  /** Reallocates only if the bytes and a NUL do not fit, and then to just that. */
  function AfterAppend(s: BufferState, x: string): BufferState {
    BufferState(s.text + x, s.read, if s.size < |s.text| + |x| + 1 then |s.text| + |x| + 1 else s.size)
  }

  /** Growing an empty block by nothing frees it. */
  function AfterGrow(s: BufferState, size: nat): BufferState {
    if s.size + size == 0 then BufferState("", 0, 0) else s.(size := s.size + size)
  }

  function AfterWrite(s: BufferState, x: string): BufferState {
    s.(text := s.text + x)
  }

  class ByteBuffer {
    var block: array<char>
    var read: nat
    var write: nat

    /** start <= write <= end */
    ghost predicate Bounded()
      reads this
    {
      write <= block.Length
    }

    /** start <= read <= write <= end */
    ghost predicate Valid()
      reads this
    {
      read <= write && Bounded()
    }

    /** The bytes written so far. */
    ghost function Text(): string
      requires Bounded()
      reads this, block
    {
      block[..write]
    }

    /** The state of a valid buffer is sane, and the other way round. */
    ghost function State(): (s: BufferState)
      requires Bounded()
      reads this, block
      ensures Sane(s) <==> Valid()
    {
      BufferState(Text(), read, block.Length)
    }

    function Size(): nat
      reads this
    {
      block.Length
    }

    function Avail(): nat
      requires Bounded()
      reads this
    {
      block.Length - write
    }

    constructor ()
      ensures Valid() && Text() == [] && read == 0 && Size() == 0 && fresh(block)
    {
      block := new char[0];
      read, write := 0, 0;
    }

    /** Moves the block to one of the given size; asserts, like the source, that what was written
        fits. Size 0 frees the buffer. */
    method Realloc(size: nat)
      requires Bounded() && (size > 0 ==> size >= write)
      modifies this
      ensures Bounded() && fresh(block) && Size() == size
      ensures size > 0 ==> Text() == old(Text()) && read == old(read) && write == old(write)
      ensures old(Valid()) ==> Valid()
      ensures size == 0 ==> Text() == [] && read == 0
    {
      var bigger := new char[size];
      if size == 0 {
        read, write := 0, 0;
      } else {
        var keep := if block.Length < size then block.Length else size;
        for k := 0 to keep
          modifies bigger
          invariant bigger[..k] == block[..k]
        {
          bigger[k] := block[k];
        }
        assert bigger[..keep][..write] == block[..keep][..write];
      }
      block := bigger;
    }

    method Grow(size: nat)
      requires Bounded()
      modifies this
      ensures Bounded() && fresh(block) && State() == AfterGrow(old(State()), size)
      ensures old(write) <= Size() ==> Text() == old(Text())
      ensures Avail() == old(Avail()) + size
    {
      Realloc(size + block.Length);
    }

    /** Asserts, like the source, that the bytes fit. */
    method Write(x: string)
      requires Bounded() && Avail() >= |x|
      modifies this, block
      ensures Bounded() && block == old(block) && State() == AfterWrite(old(State()), x)
      ensures Avail() == old(Avail()) - |x|
    {
      Copy(x);
      write := write + |x|;
    }

    /** `memcpy` to the write position. */
    method Copy(x: string)
      requires Bounded() && write + |x| <= block.Length
      modifies block
      ensures block[..write + |x|] == old(block[..write]) + x
    {
      for k := 0 to |x|
        invariant block[..write + k] == old(block[..write]) + x[..k]
      {
        block[write + k] := x[k];
        assert block[..write + k + 1] == block[..write + k] + [x[k]];
        assert x[..k + 1] == x[..k] + [x[k]];
      }
      assert x[..|x|] == x;
    }

    /** Grows as needed, and terminates the text with a NUL that does not count. */
    method Append(x: string)
      requires Bounded()
      modifies this, block
      ensures Bounded() && State() == AfterAppend(old(State()), x)
      ensures block == old(block) || fresh(block)
      ensures Text() == old(Text()) + x && read == old(read)
      ensures Size() == if old(Avail()) > |x| then old(Size()) else old(write) + |x| + 1
      ensures write < Size() && block[write] == '\0'
    {
      if block.Length - write < |x| + 1 {
        Realloc(write + |x| + 1);
      }
      Copy(x + ['\0']);
      write := write + |x|;
      assert block[..write + 1] == old(Text()) + (x + ['\0']);
      assert block[..write] == block[..write + 1][..write];
    }
  }

  // ---------- runs ----------

  datatype BufferOp = Append(x: string) | Grow(size: nat) | Write(x: string)

  function Step(s: BufferState, op: BufferOp): BufferState {
    match op
    case Append(x) => AfterAppend(s, x)
    case Grow(size) => AfterGrow(s, size)
    case Write(x) => AfterWrite(s, x)
  }

  /** The assertion in `buffer_write`. */
  predicate Fits(s: BufferState, op: BufferOp) {
    op.Write? ==> |s.text| + |op.x| <= s.size
  }

  function Run(s: BufferState, ops: seq<BufferOp>): BufferState
    decreases ops
  {
    if ops == [] then s else Run(Step(s, ops[0]), ops[1..])
  }

  predicate AllFit(s: BufferState, ops: seq<BufferOp>)
    decreases ops
  {
    ops != [] ==> Fits(s, ops[0]) && AllFit(Step(s, ops[0]), ops[1..])
  }

  function WrittenBy(op: BufferOp): string {
    if op.Grow? then "" else op.x
  }

  function Written(ops: seq<BufferOp>): string {
    if ops == [] then "" else WrittenBy(ops[0]) + Written(ops[1..])
  }

  /** A step keeps the positions in order exactly if the assertion holds. */
  lemma StepIsSane(s: BufferState, op: BufferOp)
    requires Sane(s)
    ensures Sane(Step(s, op)) <==> Fits(s, op)
  {
  }

  /** In every run in which the assertion holds the read and write positions stay in order and in the block,
      which never shrinks; the bytes there before stay in front, the bytes written follow in order, and the
      read position does not move, whatever was reallocated. */
  lemma {:induction false} RunKeepsBytes(s: BufferState, ops: seq<BufferOp>)
    requires Sane(s) && AllFit(s, ops)
    ensures var s' := Run(s, ops);
            Sane(s') && s'.read == s.read && s'.size >= s.size && s'.text == s.text + Written(ops)
    decreases ops
  {
    if ops == [] {
      assert s.text + "" == s.text;
    } else {
      RunKeepsBytes(Step(s, ops[0]), ops[1..]);
      assert s.text + WrittenBy(ops[0]) + Written(ops[1..]) == s.text + (WrittenBy(ops[0]) + Written(ops[1..]));
    }
  }

  function Writes(writes: seq<string>): (r: seq<BufferOp>)
    ensures |r| == |writes|
  {
    if writes == [] then [] else [Write(writes[0])] + Writes(writes[1..])
  }

  /** The assertion holds all along a sequence of writes exactly if there is room for all the bytes. */
  lemma {:induction false} RoomForAll(s: BufferState, writes: seq<string>)
    requires Sane(s)
    ensures AllFit(s, Writes(writes)) <==> |s.text| + |Written(Writes(writes))| <= s.size
    decreases writes
  {
    if writes != [] {
      assert Writes(writes)[1..] == Writes(writes[1..]);
      if Fits(s, Write(writes[0])) {
        RoomForAll(AfterWrite(s, writes[0]), writes[1..]);
      }
    }
  }
}

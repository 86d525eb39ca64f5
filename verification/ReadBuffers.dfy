/** The read buffers of a loop (lluv_utils.c): one static buffer, guarded by the flag BUFFER_BUSY, and
    buffers from the heap for whoever reads while it is lent. Libuv asks for a buffer, fills it, and
    hands it back in the read callback of the same handle. */
module ReadBuffers {

  type Address = nat

  const NULL: Address := 0

  /** What happens, in order: a buffer is lent to a reader, its bytes are copied into a Lua string, it is
      taken back, the Lua callback of the reader is called. */
  datatype Event =
    | Lent(reader: nat, base: Address)
    | Copied(reader: nat, base: Address)
    | Released(reader: nat, base: Address)
    | Called(reader: nat)

  /** `fault` records a failed assertion, or a heap address freed that was not allocated. */
  datatype Memory = Memory(buffer: Address, busy: bool, heap: set<Address>, trace: seq<Event>, fault: bool)
  {
    function Note(e: Event): Memory { this.(trace := trace + [e]) }
  }

  /** How a read ended: the handle is no longer open, or a datagram socket had nothing to read; bytes; an
      error. */
  datatype Outcome = Ignored | Data(n: nat) | Failed

  /** `lluv_alloc_buffer_cb`; `answer` is what the heap returns, NULL when it is exhausted. */
  function AllocBuffer(m: Memory, reader: nat, answer: Address): Memory {
    if !m.busy then m.(busy := true).Note(Lent(reader, m.buffer))
    else if answer == NULL then m
    else m.(heap := m.heap + {answer}).Note(Lent(reader, answer))
  }

  function Lendable(m: Memory, answer: Address): Address {
    if m.busy then answer else m.buffer
  }

  /** `lluv_free_buffer`. */
  function FreeBuffer(m: Memory, reader: nat, base: Address): Memory {
    if base == NULL then m
    else if base == m.buffer then m.(busy := false, fault := m.fault || !m.busy).Note(Released(reader, base))
    else m.(heap := m.heap - {base}, fault := m.fault || base !in m.heap).Note(Released(reader, base))
  }

  /** `lluv_on_stream_read_cb` and `lluv_on_udp_recv_cb`, in what they do with the buffer. */
  function ReadCallback(m: Memory, reader: nat, base: Address, outcome: Outcome): Memory {
    match outcome
    case Ignored => FreeBuffer(m, reader, base)
    case Data(_) =>
      FreeBuffer(if base == NULL then m else m.Note(Copied(reader, base)), reader, base).Note(Called(reader))
    case Failed => FreeBuffer(m, reader, base).Note(Called(reader))
  }

  // ----- What a trace says -----

  /** The buffer a reader holds after a trace, or NULL. */
  function Holds(trace: seq<Event>, reader: nat): Address
    decreases |trace|
  {
    if trace == [] then NULL
    else
      var e := trace[|trace| - 1];
      if e.Lent? && e.reader == reader then e.base
      else if e.Released? && e.reader == reader then NULL
      else Holds(trace[..|trace| - 1], reader)
  }

  ghost predicate Held(trace: seq<Event>, p: Address) {
    exists r :: Holds(trace, r) == p
  }

  /** No buffer is with two readers. */
  ghost predicate Exclusive(trace: seq<Event>) {
    forall r, r' :: Holds(trace, r) == Holds(trace, r') != NULL ==> r == r'
  }

  /** May this happen next? A buffer is lent to a reader that has none, and nobody else has it; bytes are
      copied from the buffer the reader holds; a reader gives back what it holds; when its Lua callback
      runs, it holds nothing. */
  ghost predicate Proper(trace: seq<Event>, e: Event) {
    match e
    case Lent(r, p) => p != NULL && Holds(trace, r) == NULL && !Held(trace, p)
    case Copied(r, p) => p != NULL && Holds(trace, r) == p
    case Released(r, p) => p != NULL && Holds(trace, r) == p
    case Called(r) => Holds(trace, r) == NULL
  }

  ghost predicate Orderly(trace: seq<Event>) {
    forall i :: 0 <= i < |trace| ==> Proper(trace[..i], trace[i])
  }

  lemma HoldsAfter(trace: seq<Event>, e: Event, reader: nat)
    ensures Holds(trace + [e], reader)
         == if e.Lent? && e.reader == reader then e.base
            else if e.Released? && e.reader == reader then NULL
            else Holds(trace, reader)
  {
  }

  /** Lending and taking back are the only things that change what is held, by one buffer. */
  lemma HeldAfter(trace: seq<Event>, e: Event)
    requires Proper(trace, e) && Exclusive(trace)
    ensures Exclusive(trace + [e])
    ensures forall p ::
              p != NULL ==>
                (Held(trace + [e], p)
                 <==> (e.Lent? && p == e.base) || (Held(trace, p) && !(e.Released? && p == e.base)))
  {
    forall r
      ensures Holds(trace + [e], r)
           == if e.Lent? && e.reader == r then e.base
              else if e.Released? && e.reader == r then NULL
              else Holds(trace, r)
    {
      HoldsAfter(trace, e, r);
    }
    forall p | p != NULL
      ensures Held(trace + [e], p) <==> (e.Lent? && p == e.base) || (Held(trace, p) && !(e.Released? && p == e.base))
    {
      if e.Lent? && p == e.base {
        assert Holds(trace + [e], e.reader) == p;
      } else if Held(trace, p) && !(e.Released? && p == e.base) {
        var r :| Holds(trace, r) == p;
        assert Holds(trace + [e], r) == p;
      }
    }
  }

  lemma OrderlyAfter(trace: seq<Event>, e: Event)
    requires Orderly(trace) && Proper(trace, e)
    ensures Orderly(trace + [e])
  {
    forall i | 0 <= i < |trace + [e]|
      ensures Proper((trace + [e])[..i], (trace + [e])[i])
    {
      assert (trace + [e])[..i] == trace[..i];
      assert trace[..|trace|] == trace;
    }
  }

  function Count(trace: seq<Event>, e: Event): nat
    decreases |trace|
  {
    if trace == [] then 0
    else Count(trace[..|trace| - 1], e) + if trace[|trace| - 1] == e then 1 else 0
  }

  /** In an orderly trace every lending is taken back once, or is still held. */
  lemma {:induction false} LentIsReleasedOnce(trace: seq<Event>, reader: nat, p: Address)
    requires Orderly(trace) && p != NULL
    ensures Count(trace, Lent(reader, p))
         == Count(trace, Released(reader, p)) + if Holds(trace, reader) == p then 1 else 0
    decreases |trace|
  {
    if trace != [] {
      var n := |trace| - 1;
      var before := trace[..n];
      forall i | 0 <= i < n
        ensures Proper(before[..i], before[i])
      {
        assert before[..i] == trace[..i];
      }
      LentIsReleasedOnce(before, reader, p);
      assert Proper(before, trace[n]);
    }
  }

  // ----- The loop as a transition system -----

  datatype Step = Alloc(reader: nat, answer: Address) | Read(reader: nat, outcome: Outcome)

  /** Libuv asks for a buffer when the reader has none, and passes the reader's own buffer to its read
      callback, or none. The heap returns an address that is not in use. */
  predicate Enabled(m: Memory, step: Step) {
    match step
    case Alloc(r, answer) => Holds(m.trace, r) == NULL && answer !in m.heap && answer != m.buffer
    case Read(_, _) => true
  }

  function Next(m: Memory, step: Step): Memory {
    match step
    case Alloc(r, answer) => AllocBuffer(m, r, answer)
    case Read(r, outcome) => ReadCallback(m, r, Holds(m.trace, r), outcome)
  }

  predicate Init(m: Memory) {
    m.buffer != NULL && m == Memory(m.buffer, false, {}, [], false)
  }

  /** A buffer is out: the static one when the flag is set, a heap one when it is allocated. */
  predicate Out(m: Memory, p: Address) {
    if p == m.buffer then m.busy else p in m.heap
  }

  ghost predicate Inv(m: Memory) {
    && m.buffer != NULL && NULL !in m.heap && m.buffer !in m.heap && !m.fault
    && Orderly(m.trace)
    && Exclusive(m.trace)
    && (forall p :: p != NULL ==> (Out(m, p) <==> Held(m.trace, p)))
  }

  lemma LendHolds(m: Memory, reader: nat, p: Address)
    requires Inv(m) && Holds(m.trace, reader) == NULL && p != NULL && !Out(m, p)
    ensures p == m.buffer ==> Inv(m.(busy := true).Note(Lent(reader, p)))
    ensures p != m.buffer ==> Inv(m.(heap := m.heap + {p}).Note(Lent(reader, p)))
  {
    var trace := m.trace + [Lent(reader, p)];
    OrderlyAfter(m.trace, Lent(reader, p));
    var m' := if p == m.buffer then m.(busy := true, trace := trace) else m.(heap := m.heap + {p}, trace := trace);
    HeldAfter(m.trace, Lent(reader, p));
    assert forall q :: Out(m', q) <==> Out(m, q) || q == p;
  }

  lemma FreeHolds(m: Memory, reader: nat)
    requires Inv(m)
    ensures var m' := FreeBuffer(m, reader, Holds(m.trace, reader));
            Inv(m') && Holds(m'.trace, reader) == NULL && m'.buffer == m.buffer
  {
    var p := Holds(m.trace, reader);
    if p != NULL {
      var m' := FreeBuffer(m, reader, p);
      assert Held(m.trace, p) && Out(m, p);
      OrderlyAfter(m.trace, Released(reader, p));
      HoldsAfter(m.trace, Released(reader, p), reader);
      HeldAfter(m.trace, Released(reader, p));
      assert forall q :: Out(m', q) <==> Out(m, q) && q != p;
    }
  }

  /** An event that lends nothing and releases nothing. */
  lemma QuietHolds(m: Memory, e: Event)
    requires Inv(m) && Proper(m.trace, e) && (e.Copied? || e.Called?)
    ensures Inv(m.Note(e))
    ensures forall r :: Holds(m.Note(e).trace, r) == Holds(m.trace, r)
  {
    OrderlyAfter(m.trace, e);
    forall r
      ensures Holds(m.Note(e).trace, r) == Holds(m.trace, r)
    {
      HoldsAfter(m.trace, e, r);
    }
    HeldAfter(m.trace, e);
    assert forall q :: Out(m.Note(e), q) <==> Out(m, q);
  }

  lemma ReadCallbackHolds(m: Memory, reader: nat, outcome: Outcome)
    requires Inv(m)
    ensures Inv(ReadCallback(m, reader, Holds(m.trace, reader), outcome))
  {
    var p := Holds(m.trace, reader);
    var m1 := if outcome.Data? && p != NULL then m.Note(Copied(reader, p)) else m;
    if outcome.Data? && p != NULL {
      QuietHolds(m, Copied(reader, p));
    }
    FreeHolds(m1, reader);
    var m2 := FreeBuffer(m1, reader, p);
    if !outcome.Ignored? {
      QuietHolds(m2, Called(reader));
    }
  }

  lemma StepHolds(m: Memory, step: Step)
    requires Inv(m) && Enabled(m, step)
    ensures Inv(Next(m, step)) && Next(m, step).buffer == m.buffer
  {
    match step
    case Alloc(r, answer) =>
      if Lendable(m, answer) != NULL {
        LendHolds(m, r, Lendable(m, answer));
      }
    case Read(r, outcome) =>
      ReadCallbackHolds(m, r, outcome);
  }

  ghost predicate IsRun(m: Memory, steps: seq<Step>)
    decreases |steps|
  {
    steps == [] || (Enabled(m, steps[0]) && IsRun(Next(m, steps[0]), steps[1..]))
  }

  function Final(m: Memory, steps: seq<Step>): Memory
    decreases |steps|
  {
    if steps == [] then m else Final(Next(m, steps[0]), steps[1..])
  }

  lemma {:induction false} RunHolds(m: Memory, steps: seq<Step>)
    requires Inv(m) && IsRun(m, steps)
    ensures Inv(Final(m, steps)) && Final(m, steps).buffer == m.buffer
    decreases |steps|
  {
    if steps != [] {
      StepHolds(m, steps[0]);
      RunHolds(Next(m, steps[0]), steps[1..]);
    }
  }

  /** Over any run: the events are orderly, no assertion fails, the static buffer is lent to at most one
      reader, the flag is set exactly when it is lent, and the heap holds exactly the other buffers that
      are lent, so that nothing is left over when nobody reads. */
  lemma BuffersAreLentProperly(m0: Memory, steps: seq<Step>)
    requires Init(m0) && IsRun(m0, steps)
    ensures var m := Final(m0, steps);
            && Orderly(m.trace) && !m.fault
            && (m.busy <==> Held(m.trace, m.buffer))
            && Exclusive(m.trace)
            && (forall p :: p in m.heap <==> p != m.buffer && p != NULL && Held(m.trace, p))
  {
    assert Inv(m0);
    RunHolds(m0, steps);
    var m := Final(m0, steps);
    assert m.busy <==> Out(m, m.buffer);
    assert forall p :: p in m.heap <==> p != m.buffer && Out(m, p);
  }

  /** Whenever a Lua read callback runs, every buffer its reader was ever lent has been taken back exactly
      once. */
  lemma ReleasedBeforeCallback(m0: Memory, steps: seq<Step>, i: nat, p: Address)
    requires Init(m0) && IsRun(m0, steps)
    requires i < |Final(m0, steps).trace| && Final(m0, steps).trace[i].Called? && p != NULL
    ensures var trace := Final(m0, steps).trace;
            var r := trace[i].reader;
            Count(trace[..i], Lent(r, p)) == Count(trace[..i], Released(r, p))
  {
    BuffersAreLentProperly(m0, steps);
    var trace := Final(m0, steps).trace;
    forall j | 0 <= j < i
      ensures Proper(trace[..i][..j], trace[..i][j])
    {
      assert trace[..i][..j] == trace[..j];
    }
    LentIsReleasedOnce(trace[..i], trace[i].reader, p);
    assert Proper(trace[..i], trace[i]);
  }

  // ----- What each step writes -----

  /** A reader that asks gets the static buffer exactly when nobody has it, and otherwise what the heap gives,
      if anything. */
  lemma AllocWrites(m0: Memory, steps: seq<Step>, reader: nat, answer: Address)
    requires Init(m0) && IsRun(m0, steps) && Enabled(Final(m0, steps), Step.Alloc(reader, answer))
    ensures var m := Final(m0, steps);
            var written := if !Held(m.trace, m.buffer) then [Lent(reader, m.buffer)]
                           else if answer != NULL then [Lent(reader, answer)]
                           else [];
            Next(m, Step.Alloc(reader, answer)).trace == m.trace + written
  {
    BuffersAreLentProperly(m0, steps);
    ConcatNothing(Final(m0, steps).trace);
  }

  lemma ConcatNothing(trace: seq<Event>)
    ensures trace + [] == trace
  {
  }

  /** A read callback copies bytes out of the buffer it was lent, gives the buffer back, and calls the Lua
      callback, in this order: it copies only bytes, and calls once, unless the read is to be ignored. */
  lemma ReadWrites(m: Memory, reader: nat, outcome: Outcome)
    ensures var base := Holds(m.trace, reader);
            var copied := if base != NULL && outcome.Data? then [Copied(reader, base)] else [];
            var released := if base != NULL then [Released(reader, base)] else [];
            var called := if outcome.Ignored? then [] else [Called(reader)];
            Next(m, Read(reader, outcome)).trace == m.trace + copied + released + called
  {
    ConcatNothing(m.trace);
    ConcatNothing(m.trace + [Released(reader, Holds(m.trace, reader))]);
  }

  /** How often libuv reports data or an error to a reader. */
  function Reports(steps: seq<Step>, reader: nat): nat {
    if steps == [] then 0
    else
      (if steps[0].Read? && steps[0].reader == reader && !steps[0].outcome.Ignored? then 1 else 0)
      + Reports(steps[1..], reader)
  }

  lemma CountPush(trace: seq<Event>, e: Event, f: Event)
    ensures Count(trace + [e], f) == Count(trace, f) + if e == f then 1 else 0
  {
    assert (trace + [e])[..|trace|] == trace;
  }

  lemma StepCalls(m: Memory, step: Step, reader: nat)
    ensures Count(Next(m, step).trace, Called(reader)) == Count(m.trace, Called(reader)) + Reports([step], reader)
  {
    hide Count;
    assert [step][1..] == [];
    match step
    case Alloc(r, answer) => CountPush(m.trace, Lent(r, Lendable(m, answer)), Called(reader));
    case Read(r, outcome) =>
      var base := Holds(m.trace, r);
      var t1 := if base != NULL && outcome.Data? then m.trace + [Copied(r, base)] else m.trace;
      var t2 := if base != NULL then t1 + [Released(r, base)] else t1;
      CountPush(m.trace, Copied(r, base), Called(reader));
      CountPush(t1, Released(r, base), Called(reader));
      CountPush(t2, Called(r), Called(reader));
  }

  lemma {:induction false} RunCalls(m: Memory, steps: seq<Step>, reader: nat)
    ensures Count(Final(m, steps).trace, Called(reader)) == Count(m.trace, Called(reader)) + Reports(steps, reader)
    decreases |steps|
  {
    if steps != [] {
      StepCalls(m, steps[0], reader);
      assert [steps[0]][1..] == [];
      RunCalls(Next(m, steps[0]), steps[1..], reader);
    }
  }

  /** Over any run the Lua callback of a reader is called exactly as often as libuv reports data or an error
      to it. */
  lemma EveryReportIsCalled(m0: Memory, steps: seq<Step>, reader: nat)
    requires Init(m0)
    ensures Count(Final(m0, steps).trace, Called(reader)) == Reports(steps, reader)
  {
    RunCalls(m0, steps, reader);
  }

  // ----- The loop object -----

  class Loop {
    const buffer: Address
    var busy: bool
    var heap: set<Address>
    ghost var trace: seq<Event>

    ghost function View(): Memory
      reads this
    {
      Memory(buffer, busy, heap, trace, false)
    }

    constructor (buffer: Address)
      requires buffer != NULL
      ensures Init(View()) && this.buffer == buffer
    {
      this.buffer, busy, heap, trace := buffer, false, {}, [];
    }

    /** `lluv_alloc_buffer_cb`. */
    method Alloc(reader: nat, answer: Address) returns (base: Address)
      requires Inv(View()) && Enabled(View(), Step.Alloc(reader, answer))
      modifies this
      ensures Inv(View()) && View() == AllocBuffer(old(View()), reader, answer)
      ensures base == Holds(trace, reader)
      ensures base != NULL ==> !Held(old(trace), base)
    {
      StepHolds(View(), Step.Alloc(reader, answer));
      if !busy {
        busy := true;
        base := buffer;
      } else {
        heap := if answer == NULL then heap else heap + {answer};
        base := answer;
      }
      if base != NULL {
        HoldsAfter(trace, Lent(reader, base), reader);
        trace := trace + [Lent(reader, base)];
      }
    }

    /** `lluv_free_buffer`. */
    method Free(reader: nat, base: Address)
      requires Inv(View()) && base == Holds(trace, reader)
      modifies this
      ensures Inv(View()) && View() == FreeBuffer(old(View()), reader, base)
      ensures Holds(trace, reader) == NULL
    {
      FreeHolds(View(), reader);
      if base != NULL {
        if base == buffer {
          assert busy;
          busy := false;
        } else {
          assert base in heap;
          heap := heap - {base};
        }
        trace := trace + [Released(reader, base)];
      }
    }

    /** `lluv_on_stream_read_cb`: the bytes are copied before the buffer is taken back, the Lua callback
        is called after. */
    method OnRead(reader: nat, base: Address, outcome: Outcome)
      requires Inv(View()) && base == Holds(trace, reader)
      modifies this
      ensures Inv(View()) && View() == ReadCallback(old(View()), reader, base, outcome)
    {
      if outcome.Ignored? {
        Free(reader, base);
        return;
      }
      if outcome.Data? && base != NULL {
        QuietHolds(View(), Copied(reader, base));
        trace := trace + [Copied(reader, base)];
      }
      Free(reader, base);
      QuietHolds(View(), Called(reader));
      trace := trace + [Called(reader)];
    }
  }
}

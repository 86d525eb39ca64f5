/** One handle as a transition system: the calls of Lua code, the callbacks of libuv, the deferred
    calls, the garbage collector, and everybody else who uses the registry.

    The steps follow lluv_handle.c, lluv_timer.c, lluv_stream.c, lluv_req.c and `lluv_return_req`.
    `polite` says that libuv completes or cancels every request before it runs the close callback. */
module HandleSystem {
  import opened HandleMemory

  datatype Kind = Timer | Stream

  /** An entry of the defer queue: the error of a request, or of a failed start. */
  datatype Deferred = RequestFailed(id: nat) | StartFailed(slot: nat, cb: Ref)

  /** What a trace says about one request, in order. */
  function Life(trace: seq<Event>, id: nat): seq<Event>
    decreases |trace|
  {
    if trace == [] then []
    else
      var before, e := Life(trace[..|trace| - 1], id), trace[|trace| - 1];
      if e.id == id then before + [e] else before
  }

  datatype Sys = Sys(
    kind: Kind,
    polite: bool,
    m: Memory,
    // the lluv_req_t not yet freed, all known to libuv, and the defer queue
    reqs: map<nat, Request>,
    deferred: seq<Deferred>,
    // libuv's view: the handle was initialised, is active, listens, has a timer callback, is closing, is closed
    inited: bool,
    active: bool,
    listening: bool,
    started: bool,
    closing: bool,
    closed: bool,
    // the collector's view
    reachable: bool,
    finalized: bool,
    freed: bool)

  datatype Step =
    | TimerStart(ok: bool, cb: Ref, self: Ref)
    | TimerStop(ok: bool, self: Ref)
    | TimerAgain(ok: bool, running: bool, self: Ref)
    | TimerFire(repeats: bool)
    | StartRead(ok: bool, cb: Ref, self: Ref)
    | StopRead(ok: bool)
    | ReadCallback(failed: bool)
    | Listen(ok: bool, cb: Ref, self: Ref)
    | ConnectionCallback
    | Send(ok: bool, id: nat, q: Request, self: Ref)
    | Complete(id: nat)
    | RunDeferred
    | ManualLock(self: Ref)
    | ManualUnlock
    | Close(cb: Ref, self: Ref)
    | CloseCallback
    | Release
    | Acquire
    | Finalize(self: Ref)
    | Collect
    | Others(reg: map<Ref, Slot>)

  /** Something other than Lua code keeps the handle alive: its registry reference, or a deferred call
      that captured it. */
  predicate Pinned(s: Sys) {
    (s.m.self > 0 && s.m.self in s.m.reg) || s.deferred != []
  }

  /** Lua code can call a method that needs an open handle. */
  predicate Callable(s: Sys) {
    s.reachable && !s.freed && s.m.open
  }

  /** Steps libuv takes on its own through its pointer to the handle. */
  predicate IsUvStep(step: Step) {
    step.TimerFire? || step.ReadCallback? || step.ConnectionCallback? || step.Complete? || step.CloseCallback?
  }

  predicate TwoFresh(m: Memory, a: Ref, b: Ref) {
    Fresh(m, a) && Fresh(m, b) && a != b
  }

  /** When a step can happen: what the source checks of its callers, what libuv promises, what Lua's
      collector promises. Nothing here asks whether the memory is still there, except for Lua code. */
  ghost predicate Enabled(s: Sys, step: Step) {
    match step
    case TimerStart(ok, cb, self) =>
      Callable(s) && s.kind.Timer? && TwoFresh(s.m, cb, self) && (ok ==> !s.closing)
    case TimerStop(_, self) => Callable(s) && s.kind.Timer? && Fresh(s.m, self)
    case TimerAgain(ok, running, self) =>
      Callable(s) && s.kind.Timer? && Fresh(s.m, self) && (ok && running ==> s.started && !s.closing)
    case TimerFire(_) => s.kind.Timer? && s.active
    case StartRead(ok, cb, self) =>
      Callable(s) && s.kind.Stream? && TwoFresh(s.m, cb, self) && (ok ==> !s.closing)
    case StopRead(_) => Callable(s) && s.kind.Stream?
    case ReadCallback(_) => s.kind.Stream? && s.active
    case Listen(ok, cb, self) =>
      Callable(s) && s.kind.Stream? && TwoFresh(s.m, cb, self) && (ok ==> !s.closing)
    case ConnectionCallback => s.kind.Stream? && s.listening
    case Send(_, id, q, self) =>
      Callable(s) && s.kind.Stream? && Life(s.m.trace, id) == [] && FreshRequest(s.m, q, self)
    case Complete(id) => id in s.reqs && (s.polite || !s.freed)
    case RunDeferred => s.deferred != []
    case ManualLock(self) => Callable(s) && Fresh(s.m, self)
    case ManualUnlock => Callable(s)
    case Close(cb, self) => s.reachable && !s.freed && Fresh(s.m, self) && (cb == NOREF || (Fresh(s.m, cb) && cb != self))
    case CloseCallback => s.closing && !s.closed && (s.polite ==> s.reqs == map[])
    case Release => s.reachable
    case Acquire => !s.freed
    case Finalize(self) => !s.reachable && !Pinned(s) && !s.finalized && !s.freed && Fresh(s.m, self)
    case Collect => !s.reachable && !Pinned(s) && s.finalized && !s.freed
    case Others(reg) =>
      && (forall r :: r in s.m.reg && !s.m.reg[r].OtherSlot? ==> r in reg && reg[r] == s.m.reg[r])
      && (forall r :: r in reg && !reg[r].OtherSlot? ==> r in s.m.reg && s.m.reg[r] == reg[r])
  }

  /** `lluv_handle_close`, which is also `__gc`. */
  function CloseMemory(s: Sys, cb: Ref, self: Ref): Memory {
    if !s.m.open || s.closing then s.m else Closing(s.m, cb, self)
  }

  /** `lluv_defer_call` on the front of the defer queue. */
  function DeferredRun(m: Memory, queue: seq<Deferred>): Memory {
    if queue == [] then m
    else
      match queue[0]
      case RequestFailed(id) => Note(m, Called(id))
      case StartFailed(slot, cb) => NoteCall(m, slot, cb)
  }

  /** What a step does to the handle's memory and to the registry. */
  function NextMemory(s: Sys, step: Step): Memory {
    match step
    case TimerStart(ok, cb, self) => Start(s.m, START_CB, LOCK_START, ok, cb, self)
    case TimerStop(ok, self) => LockIf(s.m, ok, self)
    case TimerAgain(ok, _, self) => LockIf(s.m, ok, self)
    case TimerFire(repeats) => TimerFired(s.m, repeats)
    case StartRead(ok, cb, self) => Start(s.m, READ_CB, LOCK_READ, ok, cb, self)
    case StopRead(ok) => StoppedRead(s.m, ok)
    case ReadCallback(failed) => ReadDone(s.m, failed)
    case Listen(ok, cb, self) => Start(s.m, CONNECTION_CB, LOCK_CONNECTION, ok, cb, self)
    case ConnectionCallback => Connected(s.m)
    case Send(ok, id, q, self) => Answered(RequestNew(s.m, id, q, self), id, q, ok)
    case Complete(id) => if id in s.reqs then Completed(s.m, id, s.reqs[id]) else s.m
    case RunDeferred => DeferredRun(s.m, s.deferred)
    case ManualLock(self) => Lock(s.m, LOCK_MANUAL, self)
    case ManualUnlock => Unlock(s.m, LOCK_MANUAL)
    case Close(cb, self) => CloseMemory(s, cb, self)
    case CloseCallback => Closed(s.m)
    case Finalize(self) => CloseMemory(s, NOREF, self)
    case Others(reg) => s.m.(reg := reg)
    case _ => s.m
  }

  /** The callback slot of a start. */
  function SlotOf(step: Step): nat {
    if step.Listen? then CONNECTION_CB else START_CB
  }

  predicate StartFails(step: Step) {
    (step.TimerStart? || step.StartRead? || step.Listen?) && !step.ok
  }

  /** What a step does to the defer queue. */
  function NextDeferred(s: Sys, step: Step): seq<Deferred> {
    if StartFails(step) then s.deferred + [StartFailed(SlotOf(step), step.cb)]
    else if step.Send? && !step.ok && step.q.cb > 0 then s.deferred + [RequestFailed(step.id)]
    else if step.RunDeferred? && s.deferred != [] then s.deferred[1..]
    else s.deferred
  }

  /** What a step does to the set of live requests. */
  function NextRequests(s: Sys, step: Step): map<nat, Request> {
    if step.Send? && step.ok then s.reqs[step.id := step.q]
    else if step.Complete? then s.reqs - {step.id}
    else s.reqs
  }

  /** The step calls `uv_close`. */
  predicate Closes(s: Sys, step: Step) {
    (step.Close? || step.Finalize?) && s.m.open && !s.closing
  }

  function NextActive(s: Sys, step: Step): bool {
    if step.TimerStart? || step.StartRead? then s.active || step.ok
    else if step.TimerStop? || step.StopRead? then s.active && !step.ok
    else if step.TimerAgain? && step.ok then step.running
    else if step.TimerFire? then step.repeats
    else if step.ReadCallback? then !step.failed
    else s.active && !Closes(s, step)
  }

  /** The step runs Lua code that is handed the handle. */
  predicate HandsOut(s: Sys, step: Step) {
    || step.Acquire? || step.TimerFire? || step.ReadCallback? || step.ConnectionCallback? || step.RunDeferred?
    || (step.Complete? && s.m.open && step.id in s.reqs && s.reqs[step.id].cb > 0)
    || (step.CloseCallback? && s.m.cbs.close != NOREF)
  }

  /** The next state, given what the step does to the memory. */
  function With(s: Sys, step: Step, m: Memory): Sys {
    Sys(s.kind, s.polite, m,
        NextRequests(s, step),
        NextDeferred(s, step),
        s.inited,
        NextActive(s, step),
        (s.listening || (step.Listen? && step.ok)) && !Closes(s, step),
        s.started || (step.TimerStart? && step.ok),
        s.closing || Closes(s, step),
        s.closed || step.CloseCallback?,
        (s.reachable && !step.Release?) || HandsOut(s, step),
        s.finalized || step.Finalize?,
        s.freed || step.Collect?)
  }

  function Next(s: Sys, step: Step): Sys {
    With(s, step, NextMemory(s, step))
  }

  /** After `lluv_handle_create` and libuv's init call; a failed init is cleaned up at once. */
  ghost predicate Init(s: Sys) {
    exists reg: map<Ref, Slot> ::
      && (forall r :: r in reg ==> reg[r] == OtherSlot)
      && s.m == (if s.inited then Created(reg) else Cleanup(Created(reg)))
      && s == Sys(s.kind, s.polite, s.m, map[], [], s.inited, false, false, false, false, false, true, false, false)
  }

  // ----- Runs -----

  ghost predicate IsRun(s: Sys, steps: seq<Step>)
    decreases |steps|
  {
    steps == [] || (Enabled(s, steps[0]) && IsRun(Next(s, steps[0]), steps[1..]))
  }

  function Final(s: Sys, steps: seq<Step>): Sys
    decreases |steps|
  {
    if steps == [] then s else Final(Next(s, steps[0]), steps[1..])
  }

  ghost predicate Reachable(s: Sys) {
    exists s0: Sys, steps: seq<Step> :: Init(s0) && IsRun(s0, steps) && s == Final(s0, steps)
  }

  // ----- The invariant -----

  /** Every live request owns its references, and every reference made for a request is one of a live
      request's three. */
  ghost predicate RequestRefs(reg: map<Ref, Slot>, reqs: map<nat, Request>) {
    forall id: nat ::
      if id in reqs then OwnsRequest(reg, id, reqs[id]) && OnlyRefs(reg, id, reqs[id]) else NoRefs(reg, id)
  }

  /** Locks and counter. */
  ghost predicate LockInv(s: Sys) {
    && Sound(s.m)
    && RequestRefs(s.m.reg, s.reqs)
    && (s.m.open ==> s.m.counter == |s.reqs|)
    && (Has(s.m.lock, LOCK_CLOSE) ==> s.closing)
  }

  /** What is active is locked and has a callback. */
  ghost predicate ActiveInv(s: Sys) {
    && (s.active ==> s.m.open && !s.closing && Has(s.m.lock, LOCK_START) && s.m.cbs.start != NOREF)
    && (s.listening ==>
          s.m.open && !s.closing && Has(s.m.lock, LOCK_CONNECTION) && s.m.cbs.connection != NOREF)
    && (s.started ==> s.kind.Timer? && (s.m.open ==> s.m.cbs.start != NOREF))
  }

  /** The life of the handle. */
  ghost predicate LifeInv(s: Sys) {
    && (s.closing && !s.closed ==> s.m.open && Has(s.m.lock, LOCK_CLOSE))
    && (s.closed ==> s.closing && !s.m.open)
    && (s.closing ==> s.inited)
    && (s.m.cbs.close != NOREF ==> s.closing)
    && (!s.m.open ==> s.closed || !s.inited)
    && (s.m.open ==> s.inited)
    && (s.finalized && s.m.open ==> s.closing)
    && (s.freed ==> s.finalized && !s.m.open)
    && ((s.polite || !s.inited) && !s.m.open ==> s.reqs == map[])
  }

  ghost predicate Inv(s: Sys) {
    LockInv(s) && ActiveInv(s) && LifeInv(s)
  }

  lemma InitHolds(s: Sys)
    requires Init(s)
    ensures Inv(s)
  {
  }

  /** Requests keep their references when only the handle's references change. */
  lemma RequestsStay(s: Sys, m: Memory)
    requires RequestRefs(s.m.reg, s.reqs) && KeepsRequests(s.m, m)
    ensures RequestRefs(m.reg, s.reqs) && KeepsOthers(s.m, m)
  {
    forall id: nat
      ensures if id in s.reqs then OwnsRequest(m.reg, id, s.reqs[id]) && OnlyRefs(m.reg, id, s.reqs[id])
              else NoRefs(m.reg, id)
    {
      RefsStay(s.m, m, id, if id in s.reqs then s.reqs[id] else Request(NOREF, NOREF, NOREF));
    }
  }
}

/** What a run tells about a handle's callbacks, read off the steps alone: which callback each slot holds,
    which callbacks have been called and in which order, and what waits in the defer queue. */
module HandleHistory {
  import opened HandleMemory
  import opened HandleSystem
  import opened HandleInvariant
  import opened HandleLives
  import opened HandleTheorems
  import Locks = HandleLocks

  /** The callbacks given last and not taken back, NOREF for none; whether the handle takes no more `close`;
      whether it is locked by hand; the defer queue; the calls so far. */
  datatype History = History(
    start: Ref,
    connection: Ref,
    close: Ref,
    ending: bool,
    manual: bool,
    queue: seq<Deferred>,
    called: seq<Call>)

  function Beginning(inited: bool): History {
    History(NOREF, NOREF, NOREF, !inited, false, [], [])
  }

  function Calls(h: History, slot: nat, cb: Ref): History {
    h.(called := h.called + [Call(slot, cb)])
  }

  /** The error of a refused start is deferred to the callback given with it. */
  function Started(h: History, ok: bool, slot: nat, cb: Ref): History {
    if ok then h else h.(queue := h.queue + [StartFailed(slot, cb)])
  }

  function After(h: History, step: Step): History {
    match step
    case TimerStart(ok, cb, _) => Started(h.(start := cb), ok, START_CB, cb)
    case StartRead(ok, cb, _) => Started(h.(start := cb), ok, READ_CB, cb)
    case Listen(ok, cb, _) => Started(h.(connection := cb), ok, CONNECTION_CB, cb)
    case StopRead(ok) => if ok then h.(start := NOREF) else h
    case TimerFire(_) => Calls(h, START_CB, h.start)
    case ReadCallback(failed) => Calls(if failed then h.(start := NOREF) else h, READ_CB, h.start)
    case ConnectionCallback => Calls(h, CONNECTION_CB, h.connection)
    case Send(ok, id, q, _) => if !ok && q.cb > 0 then h.(queue := h.queue + [RequestFailed(id)]) else h
    case RunDeferred =>
      if h.queue == [] then h
      else if h.queue[0].StartFailed? then Calls(h.(queue := h.queue[1..]), h.queue[0].slot, h.queue[0].cb)
      else h.(queue := h.queue[1..])
    case ManualLock(_) => h.(manual := true)
    case ManualUnlock => h.(manual := false)
    case Close(cb, _) => if h.ending then h else h.(ending := true, close := cb)
    case Finalize(_) => h.(ending := true)
    case CloseCallback => if h.close == NOREF then h else Calls(h, CLOSE_CB, h.close)
    case _ => h
  }

  function Told(h: History, steps: seq<Step>): History
    decreases |steps|
  {
    if steps == [] then h else Told(After(h, steps[0]), steps[1..])
  }

  // ----- The state and its history -----

  predicate Agree(s: Sys, h: History) {
    && s.m.called == h.called && s.deferred == h.queue
    && (s.m.open ==> s.m.cbs == Callbacks(h.close, h.start, h.connection))
    && (h.ending <==> s.closing || !s.inited)
    && (s.m.open ==> (Has(s.m.lock, LOCK_MANUAL) <==> h.manual))
    && (s.m.open && !s.closing ==> (Has(s.m.lock, LOCK_CONNECTION) <==> s.listening))
  }

  /** The parts of `Agree` that are about the memory. */
  predicate MemoryAgrees(m: Memory, h: History, listening: bool, closing: bool) {
    && m.called == h.called
    && (m.open ==> m.cbs == Callbacks(h.close, h.start, h.connection))
    && (m.open ==> (Has(m.lock, LOCK_MANUAL) <==> h.manual))
    && (m.open && !closing ==> (Has(m.lock, LOCK_CONNECTION) <==> listening))
  }

  lemma StartAgrees(s: Sys, h: History, step: Step)
    requires Inv(s) && Enabled(s, step) && Agree(s, h) && (step.TimerStart? || step.StartRead? || step.Listen?)
    ensures MemoryAgrees(NextMemory(s, step), After(h, step), Next(s, step).listening, s.closing)
  {
    var slot := SlotOf(step);
    var bit := if step.Listen? then LOCK_CONNECTION else LOCK_START;
    assert s.m.open && TwoFresh(s.m, step.cb, step.self);
    hide Start, Inv, Sound, Has, KeepsRequests, Enabled, TwoFresh, Fresh;
    StartKeeps(s, slot, bit, step.ok, step.cb, step.self);
    StartTrace(s.m, slot, bit, step.ok, step.cb, step.self);
    RefusedStart(s.m, slot, bit, step.cb, step.self);
  }

  lemma RefusedStart(m: Memory, slot: nat, bit: bv8, cb: Ref, self: Ref)
    requires slot < 3
    ensures Start(m, slot, bit, false, cb, self).lock == m.lock
  {
  }

  lemma UvStepAgrees(s: Sys, h: History, step: Step)
    requires Inv(s) && Enabled(s, step) && Agree(s, h)
    requires step.TimerFire? || step.ReadCallback? || step.ConnectionCallback? || step.CloseCallback?
    ensures MemoryAgrees(NextMemory(s, step), After(h, step), s.listening, s.closing)
  {
    if step.TimerFire? {
      FireAgrees(s, h, step);
    } else if step.ReadCallback? {
      ReadAgrees(s, h, step);
    } else {
      assert Sound(s.m) && s.m.open;
      hide Inv, Sound, Has, KeepsRequests, Closed;
      if step.CloseCallback? {
        ClosedKeeps(s.m);
        CloseTrace(s.m, NOREF, NOREF);
      }
    }
  }

  lemma FireAgrees(s: Sys, h: History, step: Step)
    requires Inv(s) && Enabled(s, step) && Agree(s, h) && step.TimerFire?
    ensures MemoryAgrees(NextMemory(s, step), After(h, step), s.listening, s.closing)
  {
    assert Sound(s.m) && s.m.open;
    hide Unlock, Inv, Sound, Has, KeepsRequests;
    UnlockKeeps(s.m, LOCK_START);
    UnlockTrace(s.m, LOCK_START);
  }

  lemma ReadAgrees(s: Sys, h: History, step: Step)
    requires Inv(s) && Enabled(s, step) && Agree(s, h) && step.ReadCallback?
    ensures MemoryAgrees(NextMemory(s, step), After(h, step), s.listening, s.closing)
  {
    assert Sound(s.m) && s.m.open;
    hide ReadDone, Inv, Sound, Has, KeepsRequests;
    ActiveHasStart(s);
    ReadDoneKeeps(s.m, step.failed);
    ReadTrace(s.m, step.failed);
  }

  lemma ActiveHasStart(s: Sys)
    requires Inv(s) && s.active
    ensures s.m.cbs.start != NOREF
  {
  }

  lemma LuaStepAgrees(s: Sys, h: History, step: Step)
    requires Inv(s) && Enabled(s, step) && Agree(s, h)
    requires step.TimerStop? || step.TimerAgain? || step.StopRead? || step.ManualLock? || step.ManualUnlock?
    ensures MemoryAgrees(NextMemory(s, step), After(h, step), s.listening, s.closing)
  {
    if step.TimerStop? || step.TimerAgain? {
      TimerLockAgrees(s, h, step);
    } else if step.StopRead? {
      assert Sound(s.m) && s.m.open;
      hide StoppedRead, Inv, Sound, Has, KeepsRequests;
      StoppedReadKeeps(s.m, step.ok);
      ReadTrace(s.m, step.ok);
    } else {
      ManualAgrees(s, h, step);
    }
  }

  lemma TimerLockAgrees(s: Sys, h: History, step: Step)
    requires Inv(s) && Enabled(s, step) && Agree(s, h) && (step.TimerStop? || step.TimerAgain?)
    ensures MemoryAgrees(NextMemory(s, step), After(h, step), s.listening, s.closing)
  {
    assert Sound(s.m) && s.m.open && Fresh(s.m, step.self);
    hide Lock, Inv, Enabled, Fresh, Sound, Has, KeepsRequests;
    LockKeeps(s.m, LOCK_START, step.self);
    LockTrace(s.m, LOCK_START, step.self);
  }

  lemma ManualAgrees(s: Sys, h: History, step: Step)
    requires Inv(s) && Enabled(s, step) && Agree(s, h) && (step.ManualLock? || step.ManualUnlock?)
    ensures MemoryAgrees(NextMemory(s, step), After(h, step), s.listening, s.closing)
  {
    assert Sound(s.m) && s.m.open && (step.ManualLock? ==> Fresh(s.m, step.self));
    hide Lock, Unlock, Inv, Enabled, Fresh, Sound, Has, KeepsRequests;
    if step.ManualLock? {
      LockKeeps(s.m, LOCK_MANUAL, step.self);
      LockTrace(s.m, LOCK_MANUAL, step.self);
    } else {
      UnlockKeeps(s.m, LOCK_MANUAL);
      UnlockTrace(s.m, LOCK_MANUAL);
    }
  }

  lemma CloseAgrees(s: Sys, h: History, step: Step, cb: Ref, self: Ref)
    requires Inv(s) && Agree(s, h) && Fresh(s.m, self) && (cb == NOREF || (Fresh(s.m, cb) && cb != self))
    requires step == Close(cb, self) || (step == Finalize(self) && cb == NOREF)
    ensures MemoryAgrees(CloseMemory(s, cb, self), After(h, step), s.listening, s.closing || Closes(s, step))
    ensures After(h, step).ending <==> s.closing || Closes(s, step) || !s.inited
  {
    NeverGiven(s);
    EndsIff(s, h, step);
    if s.m.open && !s.closing {
      hide Inv, Fresh, CloseMemory, Agree, MemoryAgrees, After;
      ClosingAgrees(s, h, step, cb, self);
    } else {
      hide Inv, Fresh, Has;
    }
  }

  lemma EndsIff(s: Sys, h: History, step: Step)
    requires Inv(s) && Agree(s, h) && (step.Close? || step.Finalize?)
    ensures After(h, step).ending <==> s.closing || Closes(s, step) || !s.inited
  {
    NeverGiven(s);
    hide Inv, Has;
  }

  lemma ClosingAgrees(s: Sys, h: History, step: Step, cb: Ref, self: Ref)
    requires Inv(s) && Agree(s, h) && Fresh(s.m, self) && (cb == NOREF || (Fresh(s.m, cb) && cb != self))
    requires s.m.open && !s.closing && s.inited && s.m.cbs.close == NOREF
    requires step == Close(cb, self) || (step == Finalize(self) && cb == NOREF)
    ensures MemoryAgrees(CloseMemory(s, cb, self), After(h, step), s.listening, true)
  {
    hide Closing, Inv, Sound, Has, KeepsRequests, Fresh;
    CloseMemoryKeeps(s, cb, self);
    CloseTrace(s.m, cb, self);
  }

  /** Before the handle closes it has no close callback. */
  lemma NeverGiven(s: Sys)
    requires Inv(s)
    ensures s.m.open && !s.closing ==> s.m.cbs.close == NOREF
    ensures s.m.open ==> s.inited
    ensures !s.m.open ==> s.closing || !s.inited
  {
  }

  lemma SendAgrees(s: Sys, h: History, step: Step)
    requires Inv(s) && Enabled(s, step) && Agree(s, h) && step.Send? && step.id !in s.reqs
    ensures MemoryAgrees(NextMemory(s, step), After(h, step), s.listening, s.closing)
  {
    assert s.m.open && FreshRequest(s.m, step.q, step.self);
    hide RequestNew, RequestFree, Inv, Sound, Has, KeepsOthers, RequestRefs, Enabled, FreshRequest;
    SendMemory(s, step);
    var m1 := RequestNew(s.m, step.id, step.q, step.self);
    NewTrace(s.m, step.id, step.q, step.self);
    FreeTrace(m1, step.id, step.q);
  }

  lemma CompleteAgrees(s: Sys, h: History, step: Step)
    requires Inv(s) && Enabled(s, step) && Agree(s, h) && step.Complete?
    ensures MemoryAgrees(NextMemory(s, step), After(h, step), s.listening, s.closing)
  {
    var id, q := step.id, s.reqs[step.id];
    hide Inv, Enabled, Agree, MemoryAgrees, After, Completed, NextMemory, Sound, OwnsRequest, OnlyRefs, RequestRefs;
    CompleteTells(h, step);
    CompleteMemory(s, step);
    LiveRequest(s, id);
    CompletedAgrees(s, h, id, q);
  }

  lemma CompleteTells(h: History, step: Step)
    requires step.Complete?
    ensures After(h, step) == h
  {
  }

  lemma CompletedAgrees(s: Sys, h: History, id: nat, q: Request)
    requires Agree(s, h) && Sound(s.m) && (s.m.open ==> s.m.counter > 0)
    requires OwnsRequest(s.m.reg, id, q) && OnlyRefs(s.m.reg, id, q)
    ensures MemoryAgrees(Completed(s.m, id, q), h, s.listening, s.closing)
  {
    hide Completed, Sound, Has, KeepsBut, OwnsRequest, OnlyRefs, NoRefs;
    CompletedKeeps(s.m, id, q);
    CompletedCalls(s.m, id, q);
  }

  lemma CompletedCalls(m: Memory, id: nat, q: Request)
    ensures Completed(m, id, q).called == m.called
  {
    hide RequestFree;
    FreeTrace(m, id, q);
  }

  lemma DeferredAgrees(s: Sys, h: History, step: Step)
    requires Inv(s) && Enabled(s, step) && Agree(s, h) && step.RunDeferred?
    ensures MemoryAgrees(NextMemory(s, step), After(h, step), s.listening, s.closing)
  {
    hide Has, Inv;
  }

  /** What a step does to the rest. */
  lemma OtherFields(s: Sys, h: History, step: Step)
    requires Inv(s) && Enabled(s, step) && Agree(s, h)
    ensures NextDeferred(s, step) == After(h, step).queue
    ensures !step.Close? && !step.Finalize? ==> After(h, step).ending == h.ending && !Closes(s, step)
    ensures !step.Listen? && !Closes(s, step) ==> With(s, step, s.m).listening == s.listening
  {
    hide Has, Inv;
  }

  lemma MemoryIsEnough(s: Sys, h: History, step: Step, m: Memory)
    requires MemoryAgrees(m, After(h, step), With(s, step, m).listening, s.closing || Closes(s, step))
    requires NextDeferred(s, step) == After(h, step).queue
    requires After(h, step).ending <==> s.closing || Closes(s, step) || !s.inited
    ensures Agree(With(s, step, m), After(h, step))
  {
    hide Has;
  }

  lemma StepMemoryAgrees(s: Sys, h: History, step: Step)
    requires Inv(s) && Enabled(s, step) && Agree(s, h) && (step.Send? ==> step.id !in s.reqs)
    requires !step.Close? && !step.Finalize?
    ensures MemoryAgrees(NextMemory(s, step), After(h, step), Next(s, step).listening, s.closing)
  {
    OtherFields(s, h, step);
    hide Inv, Enabled, NextMemory, After, MemoryAgrees, Agree;
    if step.TimerStart? || step.StartRead? || step.Listen? {
      StartAgrees(s, h, step);
    } else if step.TimerFire? || step.ReadCallback? || step.ConnectionCallback? || step.CloseCallback? {
      UvStepAgrees(s, h, step);
    } else if step.Send? {
      SendAgrees(s, h, step);
    } else if step.Complete? {
      CompleteAgrees(s, h, step);
    } else if step.RunDeferred? {
      DeferredAgrees(s, h, step);
    } else if step.Release? || step.Acquire? || step.Collect? || step.Others? {
      IdleAgrees(s, h, step);
    } else {
      LuaStepAgrees(s, h, step);
    }
  }

  lemma CloseStepAgrees(s: Sys, h: History, step: Step)
    requires Inv(s) && Enabled(s, step) && Agree(s, h) && (step.Close? || step.Finalize?)
    ensures Agree(Next(s, step), After(h, step))
  {
    var cb := if step.Close? then step.cb else NOREF;
    OtherFields(s, h, step);
    CloseAgrees(s, h, step, cb, step.self);
    assert Next(s, step) == With(s, step, CloseMemory(s, cb, step.self));
    hide Inv, Enabled, CloseMemory, After, Has, NextDeferred;
  }

  lemma StepAgrees(s: Sys, h: History, step: Step)
    requires Inv(s) && Enabled(s, step) && Agree(s, h) && (step.Send? ==> step.id !in s.reqs)
    ensures Agree(Next(s, step), After(h, step))
  {
    if step.Close? || step.Finalize? {
      CloseStepAgrees(s, h, step);
    } else {
      OtherFields(s, h, step);
      StepMemoryAgrees(s, h, step);
      assert h.ending <==> s.closing || !s.inited;
      hide Inv, Enabled, NextMemory, After, MemoryAgrees, Agree;
      MemoryIsEnough(s, h, step, NextMemory(s, step));
    }
  }

  lemma IdleAgrees(s: Sys, h: History, step: Step)
    requires Agree(s, h) && (step.Release? || step.Acquire? || step.Collect? || step.Others?)
    ensures MemoryAgrees(NextMemory(s, step), After(h, step), s.listening, s.closing)
  {
    hide Has;
  }

  // ----- The close callback -----

  /** The callbacks called for one slot, in order. */
  function CallsOf(called: seq<Call>, slot: nat): seq<Ref>
    decreases |called|
  {
    if called == [] then []
    else
      var before, last := CallsOf(called[..|called| - 1], slot), called[|called| - 1];
      if last.slot == slot then before + [last.cb] else before
  }

  lemma CallsOfPush(called: seq<Call>, call: Call, slot: nat)
    ensures CallsOf(called + [call], slot)
         == if call.slot == slot then CallsOf(called, slot) + [call.cb] else CallsOf(called, slot)
  {
    assert (called + [call])[..|called|] == called;
  }

  /** No start is for the close slot. */
  predicate QueueIsOfStarts(queue: seq<Deferred>) {
    forall i :: 0 <= i < |queue| && queue[i].StartFailed? ==> queue[i].slot != CLOSE_CB
  }

  predicate ClosedOnce(h: History, closed: bool) {
    && QueueIsOfStarts(h.queue)
    && (closed ==> h.ending)
    && (h.close != NOREF ==> h.ending)
    && CallsOf(h.called, CLOSE_CB) == if closed && h.close != NOREF then [h.close] else []
  }

  /** A call for another slot. */
  lemma OtherCall(h: History, h': History, call: Call, closed: bool)
    requires ClosedOnce(h, closed) && call.slot != CLOSE_CB && QueueIsOfStarts(h'.queue)
    requires h'.called == h.called + [call] && h'.close == h.close && h'.ending == h.ending
    ensures ClosedOnce(h', closed)
  {
    CallsOfPush(h.called, call, CLOSE_CB);
  }

  lemma ClosedOnceAfter(h: History, step: Step, closed: bool)
    requires ClosedOnce(h, closed) && (step.CloseCallback? ==> !closed && h.ending)
    ensures ClosedOnce(After(h, step), closed || step.CloseCallback?)
  {
    var h' := After(h, step);
    if step.CloseCallback? {
      CallsOfPush(h.called, Call(CLOSE_CB, h.close), CLOSE_CB);
    } else if h'.called == h.called {
      QuietAfter(h, step, closed);
    } else {
      CallingAfter(h, step, closed);
    }
    hide ClosedOnce, CallsOf;
  }

  lemma QuietAfter(h: History, step: Step, closed: bool)
    requires ClosedOnce(h, closed) && !step.CloseCallback? && After(h, step).called == h.called
    ensures ClosedOnce(After(h, step), closed)
  {
    hide CallsOf;
  }

  lemma CallingAfter(h: History, step: Step, closed: bool)
    requires ClosedOnce(h, closed) && !step.CloseCallback? && After(h, step).called != h.called
    ensures ClosedOnce(After(h, step), closed)
  {
    hide CallsOf;
    match step
    case TimerFire(_) => OtherCall(h, After(h, step), Call(START_CB, h.start), closed);
    case ReadCallback(_) => OtherCall(h, After(h, step), Call(READ_CB, h.start), closed);
    case ConnectionCallback => OtherCall(h, After(h, step), Call(CONNECTION_CB, h.connection), closed);
    case RunDeferred => OtherCall(h, After(h, step), Call(h.queue[0].slot, h.queue[0].cb), closed);
  }

  lemma ClosedOnceStep(s: Sys, h: History, step: Step)
    requires Enabled(s, step) && Agree(s, h) && ClosedOnce(h, s.closed)
    ensures ClosedOnce(After(h, step), Next(s, step).closed)
  {
    assert step.CloseCallback? ==> !s.closed && h.ending;
    assert Next(s, step).closed == (s.closed || step.CloseCallback?);
    hide Enabled, Agree, Next, After, ClosedOnce;
    ClosedOnceAfter(h, step, s.closed);
  }

  // ----- Runs -----

  lemma {:induction false} RunAgrees(s: Sys, h: History, steps: seq<Step>)
    requires Inv(s) && Lives(s) && IsRun(s, steps) && Agree(s, h) && ClosedOnce(h, s.closed)
    ensures Inv(Final(s, steps)) && Agree(Final(s, steps), Told(h, steps))
    ensures ClosedOnce(Told(h, steps), Final(s, steps).closed)
    decreases |steps|
  {
    if steps != [] {
      ReachableSend(s, steps[0]);
      StepAgrees(s, h, steps[0]);
      ClosedOnceStep(s, h, steps[0]);
      StepHolds(s, steps[0]);
      LivesHold(s, steps[0]);
      RunAgrees(Next(s, steps[0]), After(h, steps[0]), steps[1..]);
    }
  }

  lemma InitAgrees(s: Sys)
    requires Init(s)
    ensures Agree(s, Beginning(s.inited)) && ClosedOnce(Beginning(s.inited), s.closed)
  {
    assert !Has(0, LOCK_MANUAL) && !Has(0, LOCK_CONNECTION);
  }

  lemma RunTells(s0: Sys, steps: seq<Step>)
    requires Init(s0) && IsRun(s0, steps)
    ensures Inv(Final(s0, steps)) && Agree(Final(s0, steps), Told(Beginning(s0.inited), steps))
    ensures ClosedOnce(Told(Beginning(s0.inited), steps), Final(s0, steps).closed)
  {
    InitHolds(s0);
    InitLives(s0);
    InitAgrees(s0);
    RunAgrees(s0, Beginning(s0.inited), steps);
  }

  // ----- The theorems -----

  predicate LiveCallback(reg: map<Ref, Slot>, cb: Ref, slot: nat) {
    cb != NOREF ==> cb > 0 && cb in reg && reg[cb] == CallbackSlot(slot)
  }

  /** Over every run, from the steps: the callbacks called are the ones given, in the order in which libuv and
      the defer queue asked for them; the defer queue holds every error not yet reported, in order; and as long
      as the handle is open, each slot holds the callback given last, as a live reference. */
  lemma CallbacksAsGiven(s0: Sys, steps: seq<Step>)
    requires Init(s0) && IsRun(s0, steps)
    ensures var s, h := Final(s0, steps), Told(Beginning(s0.inited), steps);
            && s.m.called == h.called && s.deferred == h.queue
            && (s.m.open ==>
                  && s.m.cbs == Callbacks(h.close, h.start, h.connection)
                  && LiveCallback(s.m.reg, h.close, CLOSE_CB)
                  && LiveCallback(s.m.reg, h.start, START_CB)
                  && LiveCallback(s.m.reg, h.connection, CONNECTION_CB))
  {
    RunTells(s0, steps);
  }

  /** Over every run, the callback given to the call that closed the handle: kept, as a live reference, until
      libuv has closed the handle; then called exactly once; and none is called if none was given. */
  lemma CloseCallbackOnce(s0: Sys, steps: seq<Step>)
    requires Init(s0) && IsRun(s0, steps)
    ensures var s, h := Final(s0, steps), Told(Beginning(s0.inited), steps);
            && (!s.closed ==> CallsOf(s.m.called, CLOSE_CB) == [])
            && (s.closed ==> CallsOf(s.m.called, CLOSE_CB) == if h.close == NOREF then [] else [h.close])
            && (s.closing && !s.closed ==>
                  s.m.open && s.m.cbs.close == h.close && LiveCallback(s.m.reg, h.close, CLOSE_CB))
  {
    RunTells(s0, steps);
  }

  /** A run in which a handle is closed with a callback, and the callback is called. */
  lemma CloseCallbackIsReachable(kind: Kind)
    ensures var s0, steps := Locks.Beginning(kind), [Step.Close(1, 2)] + [CloseCallback];
            IsRun(s0, steps) && Final(s0, steps).closed && CallsOf(Final(s0, steps).m.called, CLOSE_CB) == [1]
  {
    hide Next, Enabled, CallsOf, Init, IsRun, Final, Told;
    var s0 := Locks.Beginning(kind);
    CloseIsEnabled(kind);
    TwoSteps(s0, Step.Close(1, 2), CloseCallback);
    ToldTwo(Beginning(true), Step.Close(1, 2), CloseCallback);
    CloseCallbackOnce(s0, [Step.Close(1, 2)] + [CloseCallback]);
  }

  lemma CloseIsEnabled(kind: Kind)
    ensures var s0 := Locks.Beginning(kind);
            Enabled(s0, Step.Close(1, 2)) && Enabled(Next(s0, Step.Close(1, 2)), CloseCallback)
  {
  }

  lemma TwoSteps(s: Sys, a: Step, b: Step)
    requires Enabled(s, a) && Enabled(Next(s, a), b)
    ensures IsRun(s, [a] + [b]) && Final(s, [a] + [b]) == Next(Next(s, a), b)
    ensures b.CloseCallback? ==> Final(s, [a] + [b]).closed
  {
    assert IsRun(s, []) && Final(s, []) == s;
    assert [] + [a] == [a];
    hide Enabled, Next, IsRun, Final;
    RunAndStep(s, [], a);
    RunAndStep(s, [a], b);
    ClosedByCallback(Next(s, a), b);
  }

  lemma ClosedByCallback(s: Sys, step: Step)
    ensures step.CloseCallback? ==> Next(s, step).closed
  {
  }

  lemma ToldTwo(h: History, a: Step, b: Step)
    ensures Told(h, [a] + [b]) == After(After(h, a), b)
  {
    ToldOne(After(h, a), b);
    assert ([a] + [b])[1..] == [b];
    hide After;
  }

  lemma ToldOne(h: History, step: Step)
    ensures Told(h, [step]) == After(h, step)
  {
    assert [step][1..] == [];
  }

  /** Over every run, as long as the handle is open: MANUAL is held iff it was locked by hand last, CLOSE iff
      the handle is closing, and CONNECTION, until then, iff it listens. */
  lemma LocksAsTold(s0: Sys, steps: seq<Step>)
    requires Init(s0) && IsRun(s0, steps) && Final(s0, steps).m.open
    ensures var s, h := Final(s0, steps), Told(Beginning(s0.inited), steps);
            && (Has(s.m.lock, LOCK_MANUAL) <==> h.manual)
            && (Has(s.m.lock, LOCK_CLOSE) <==> s.closing)
            && (!s.closing ==> (Has(s.m.lock, LOCK_CONNECTION) <==> s.listening))
  {
    RunTells(s0, steps);
  }
}

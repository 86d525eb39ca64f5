/** Exactly when a handle leaks a reference: starting overwrites a callback slot without releasing what it
    held, and nothing else ever loses a reference. */
module HandleLeaks {
  import opened HandleMemory
  import opened HandleSystem
  import opened HandleInvariant
  import opened HandleLives
  import opened HandleTheorems
  import opened HandleLocks

  /** A live reference made for this handle is where it belongs. */
  predicate InPlace(r: Ref, slot: Slot, self: Ref, cbs: Callbacks) {
    match slot
    case SelfSlot => r == self > 0
    case CallbackSlot(i) => i < 3 && r == cbs.Get(i) > 0
    case _ => true
  }

  /** Every live reference of the handle is in its place, where the handle can still release it. */
  ghost predicate NoLeak(m: Memory) {
    forall r :: r in m.reg ==> InPlace(r, m.reg[r], m.self, m.cbs)
  }

  /** The step starts something whose callback slot is taken. */
  predicate Overwrites(s: Sys, step: Step) {
    || ((step.TimerStart? || step.StartRead?) && s.m.cbs.start != NOREF)
    || (step.Listen? && s.m.cbs.connection != NOREF)
  }

  // ----- The C functions -----

  lemma UnrefLeak(m: Memory, r: Ref, slot: Slot)
    requires Owns(m.reg, r, slot) && !slot.OfHandle()
    ensures NoLeak(Unref(m, r)) <==> NoLeak(m)
  {
    var m' := Unref(m, r);
    if NoLeak(m') {
      forall x | x in m.reg
        ensures InPlace(x, m.reg[x], m.self, m.cbs)
      {
        assert x in m'.reg || x == r;
      }
    }
  }

  lemma MakeRefLeak(m: Memory, r: Ref, slot: Slot)
    requires FreshOrNone(m, r) && !slot.OfHandle()
    ensures var m' := if r > 0 then MakeRef(m, r, slot) else m; NoLeak(m') <==> NoLeak(m)
  {
    var m' := if r > 0 then MakeRef(m, r, slot) else m;
    if NoLeak(m') {
      forall x | x in m.reg
        ensures InPlace(x, m.reg[x], m.self, m.cbs)
      {
        assert x in m'.reg && m'.reg[x] == m.reg[x];
      }
    }
  }

  lemma LockedLeak(m: Memory, lock: bv8, counter: int, r: Ref)
    requires Sound(m) && Fresh(m, r)
    ensures NoLeak(Locked(m, lock, counter, r)) <==> NoLeak(m)
  {
    var m' := Locked(m, lock, counter, r);
    if NoLeak(m') {
      forall x | x in m.reg
        ensures InPlace(x, m.reg[x], m.self, m.cbs)
      {
        assert x in m'.reg && m'.reg[x] == m.reg[x] && InPlace(x, m'.reg[x], m'.self, m'.cbs);
      }
    }
  }

  lemma LockLeak(m: Memory, bit: bv8, r: Ref)
    requires Sound(m) && Fresh(m, r)
    ensures NoLeak(Lock(m, bit, r)) <==> NoLeak(m)
  {
    hide NoLeak, Locked, Sound, Has;
    LockedLeak(m, m.lock | bit, if Has(bit, LOCK_REQ) then m.counter + 1 else m.counter, r);
  }

  lemma RelockLeak(m: Memory, lock: bv8, counter: int)
    requires Sound(m.(fault := false))
    ensures NoLeak(Relock(m, lock, counter)) <==> NoLeak(m)
  {
    var m' := Relock(m, lock, counter);
    if NoLeak(m') {
      forall x | x in m.reg
        ensures InPlace(x, m.reg[x], m.self, m.cbs)
      {
        assert x == m.self > 0 || (x in m'.reg && InPlace(x, m'.reg[x], m'.self, m'.cbs));
        assert x == m.self > 0 ==> m.reg[x] == SelfSlot;
      }
    }
  }

  lemma UnlockLeak(m: Memory, bit: bv8)
    requires Sound(m)
    ensures NoLeak(Unlock(m, bit)) <==> NoLeak(m)
  {
    var m1 := Assert(m, UnlockAsserts(m, bit));
    assert m1.(fault := false) == m;
    hide UnlockAsserts, Sound, Relock, UnlockedMask, UnlockedCounter, InPlace;
    if m.self != NOREF {
      RelockLeak(m1, UnlockedMask(m, bit), UnlockedCounter(m, bit));
    }
  }

  /** The one function that can lose a reference, and exactly when. */
  lemma SetCallbackLeak(m: Memory, i: nat, r: Ref)
    requires Sound(m) && i < 3 && Fresh(m, r)
    ensures NoLeak(SetCallback(m, i, r)) <==> NoLeak(m) && m.cbs.Get(i) == NOREF
  {
    var m', old_ := SetCallback(m, i, r), m.cbs.Get(i);
    assert Owns(m.reg, old_, CallbackSlot(i)) && (old_ == NOREF || old_ > 0);
    if old_ != NOREF {
      assert old_ in m'.reg && m'.reg[old_] == CallbackSlot(i) && m'.cbs.Get(i) == r != old_;
      assert !InPlace(old_, m'.reg[old_], m'.self, m'.cbs);
    }
    if NoLeak(m') {
      forall x | x in m.reg
        ensures InPlace(x, m.reg[x], m.self, m.cbs)
      {
        assert x in m'.reg && m'.reg[x] == m.reg[x] && InPlace(x, m'.reg[x], m'.self, m'.cbs);
      }
    }
  }

  lemma UnsetCallbackLeak(m: Memory, i: nat)
    requires Sound(m) && i < 3
    ensures NoLeak(UnsetCallback(m, i)) <==> NoLeak(m)
  {
    var m', old_ := UnsetCallback(m, i), m.cbs.Get(i);
    assert Owns(m.reg, old_, CallbackSlot(i)) && (old_ == NOREF || old_ > 0);
    if NoLeak(m') {
      forall x | x in m.reg
        ensures InPlace(x, m.reg[x], m.self, m.cbs)
      {
        assert x == old_ > 0 || (x in m'.reg && InPlace(x, m'.reg[x], m'.self, m'.cbs));
      }
    }
  }

  lemma CleanupLeak(m: Memory)
    requires Sound(m) && m.open
    ensures NoLeak(Cleanup(m)) <==> NoLeak(m)
  {
    hide NoLeak, UnsetCallback;
    var m0 := UnsetCallback(m, 0);
    UnsetCallbackKeeps(m, 0);
    UnsetCallbackLeak(m, 0);
    var m1 := UnsetCallback(m0, 1);
    UnsetCallbackKeeps(m0, 1);
    UnsetCallbackLeak(m0, 1);
    var m2 := UnsetCallback(m1, 2);
    UnsetCallbackKeeps(m1, 2);
    UnsetCallbackLeak(m1, 2);
    CleanupIs(m);
    RelockLeak(m2, 0, m2.counter);
    SameForLeak(Relock(m2, 0, m2.counter), Cleanup(m));
  }

  /** Cleanup is three releases of callbacks, and an unlock of everything. */
  lemma CleanupIs(m: Memory)
    ensures var m2 := UnsetCallback(UnsetCallback(UnsetCallback(m, 0), 1), 2);
            Cleanup(m) == Relock(m2, 0, m2.counter).(open := false)
  {
    hide UnsetCallback;
    var m0 := UnsetCallback(m, 0);
    var m1 := UnsetCallback(m0, 1);
    UnsetWhenClosed(m, 0);
    UnsetWhenClosed(m0, 1);
    UnsetWhenClosed(m1, 2);
    RelockClosed(UnsetCallback(m1, 2));
  }

  lemma UnsetWhenClosed(m: Memory, i: nat)
    requires i < 3
    ensures UnsetCallback(m.(open := false), i) == UnsetCallback(m, i).(open := false)
  {
  }

  lemma RelockClosed(m: Memory)
    ensures Unref(m.(open := false), m.self).(self := NOREF, lock := 0) == Relock(m, 0, m.counter).(open := false)
  {
  }

  lemma SameForLeak(m: Memory, m': Memory)
    requires m'.reg == m.reg && m'.self == m.self && m'.cbs == m.cbs
    ensures NoLeak(m') <==> NoLeak(m)
  {
  }

  lemma HoldRefsLeak(m: Memory, id: nat, q: Request, self: Ref)
    requires FreshRequest(m, q, self)
    ensures NoLeak(HoldRefs(m, id, q)) <==> NoLeak(m)
  {
    hide NoLeak;
    var m1 := if q.cb > 0 then MakeRef(m, q.cb, RequestCb(id)) else m;
    var m2 := if q.arg > 0 then MakeRef(m1, q.arg, RequestArg(id)) else m1;
    MakeRefLeak(m, q.cb, RequestCb(id));
    MakeRefLeak(m1, q.arg, RequestArg(id));
    MakeRefLeak(m2, q.ctx, RequestCtx(id));
  }

  lemma DropRefsLeak(m: Memory, id: nat, q: Request)
    requires Sound(m) && OwnsRequest(m.reg, id, q)
    ensures NoLeak(DropRefs(m, q)) <==> NoLeak(m)
  {
    hide NoLeak, Unref, Sound;
    UnrefKeeps(m, q.cb, RequestCb(id));
    UnrefLeak(m, q.cb, RequestCb(id));
    var m1 := Unref(m, q.cb);
    UnrefKeeps(m1, q.arg, RequestArg(id));
    UnrefLeak(m1, q.arg, RequestArg(id));
    var m2 := Unref(m1, q.arg);
    UnrefLeak(m2, q.ctx, RequestCtx(id));
  }

  lemma RequestNewLeak(m: Memory, id: nat, q: Request, self: Ref)
    requires Sound(m) && FreshRequest(m, q, self)
    ensures NoLeak(RequestNew(m, id, q, self)) <==> NoLeak(m)
  {
    hide NoLeak, HoldRefs, Lock, Sound;
    HoldRefsKeeps(m, id, q, self);
    HoldRefsLeak(m, id, q, self);
    var m1 := HoldRefs(m, id, q);
    LockLeak(m1, LOCK_REQ, self);
    SameForLeak(Lock(m1, LOCK_REQ, self), RequestNew(m, id, q, self));
  }

  lemma RequestFreeLeak(m: Memory, id: nat, q: Request)
    requires Sound(m) && OwnsRequest(m.reg, id, q)
    ensures NoLeak(RequestFree(m, id, q)) <==> NoLeak(m)
  {
    hide NoLeak, DropRefs, Unlock, Sound, OwnsRequest;
    DropRefsKeeps(m, id, q);
    DropRefsLeak(m, id, q);
    UnlockLeak(DropRefs(m, q), LOCK_REQ);
    SameForLeak(Unlock(DropRefs(m, q), LOCK_REQ), RequestFree(m, id, q));
  }

  // ----- Steps -----

  lemma StartLeak(m: Memory, slot: nat, bit: bv8, ok: bool, cb: Ref, self: Ref)
    requires Sound(m) && m.open && slot < 3 && TwoFresh(m, cb, self)
    ensures NoLeak(Start(m, slot, bit, ok, cb, self)) <==> NoLeak(m) && m.cbs.Get(slot) == NOREF
  {
    SetCallbackKeeps(m, slot, cb);
    SetCallbackLeak(m, slot, cb);
    if ok {
      assert Fresh(SetCallback(m, slot, cb), self);
      hide NoLeak, Lock, SetCallback, Sound;
      LockLeak(SetCallback(m, slot, cb), bit, self);
    }
  }

  lemma ReadLeak(m: Memory, b: bool)
    requires Sound(m) && m.open
    ensures NoLeak(StoppedRead(m, b)) <==> NoLeak(m)
    ensures m.cbs.start != NOREF ==> (NoLeak(ReadDone(m, b)) <==> NoLeak(m))
  {
    hide NoLeak, Unlock, UnsetCallback, Sound, KeepsRequests;
    var read := if b then Unlock(UnsetCallback(m, READ_CB), LOCK_READ) else m;
    SameForLeak(read, NoteCall(read, READ_CB, m.cbs.start));
    UnlockKeeps(m, LOCK_READ);
    UnlockLeak(m, LOCK_READ);
    UnsetCallbackLeak(Unlock(m, LOCK_READ), READ_CB);
    UnsetCallbackKeeps(m, READ_CB);
    UnsetCallbackLeak(m, READ_CB);
    UnlockLeak(UnsetCallback(m, READ_CB), LOCK_READ);
  }

  lemma CloseLeak(s: Sys, cb: Ref, self: Ref)
    requires Inv(s) && Fresh(s.m, self) && (cb == NOREF || (Fresh(s.m, cb) && cb != self))
    ensures NoLeak(CloseMemory(s, cb, self)) <==> NoLeak(s.m)
  {
    if s.m.open && !s.closing {
      LockKeeps(s.m, LOCK_CLOSE, self);
      LockLeak(s.m, LOCK_CLOSE, self);
      if cb != NOREF {
        FreshAfterLock(s.m, LOCK_CLOSE, self, cb);
        hide NoLeak, Lock, SetCallback, Sound, KeepsRequests;
        SetCallbackLeak(Lock(s.m, LOCK_CLOSE, self), CLOSE_CB, cb);
      }
    }
  }

  lemma FreshAfterLock(m: Memory, bit: bv8, self: Ref, r: Ref)
    requires Fresh(m, r) && r != self
    ensures Fresh(Lock(m, bit, self), r)
  {
  }

  lemma SendLeak(s: Sys, step: Step)
    requires Inv(s) && Enabled(s, step) && step.Send? && step.id !in s.reqs
    ensures NoLeak(NextMemory(s, step)) <==> NoLeak(s.m)
  {
    var m1 := RequestNew(s.m, step.id, step.q, step.self);
    assert Sound(s.m);
    AcceptedMemory(s, step.id, step.q, step.self);
    RequestNewLeak(s.m, step.id, step.q, step.self);
    assert s.reqs[step.id := step.q][step.id] == step.q && OwnsRequest(m1.reg, step.id, step.q);
    hide NoLeak, RequestNew, RequestFree, Sound, OwnsRequest, RequestRefs, KeepsOthers;
    RequestFreeLeak(m1, step.id, step.q);
    SameForLeak(RequestFree(m1, step.id, step.q), Answered(m1, step.id, step.q, false));
  }

  lemma CompleteLeak(s: Sys, step: Step)
    requires Inv(s) && Enabled(s, step) && step.Complete?
    ensures NoLeak(NextMemory(s, step)) <==> NoLeak(s.m)
  {
    var id, q := step.id, s.reqs[step.id];
    hide Inv, NextMemory, NoLeak, RequestFree, Sound, OwnsRequest, OnlyRefs, RequestRefs;
    CompleteMemory(s, step);
    LiveRequest(s, id);
    RequestFreeLeak(s.m, id, q);
    SameForLeak(RequestFree(s.m, id, q), Completed(s.m, id, q));
  }

  lemma OthersLeak(m: Memory, reg: map<Ref, Slot>)
    requires SameButOthers(m.reg, reg)
    ensures NoLeak(m.(reg := reg)) <==> NoLeak(m)
  {
    var m' := m.(reg := reg);
    if NoLeak(m') {
      forall x | x in m.reg
        ensures InPlace(x, m.reg[x], m.self, m.cbs)
      {
        assert m.reg[x].OtherSlot? || (x in reg && reg[x] == m.reg[x]);
      }
    }
    if NoLeak(m) {
      forall x | x in reg
        ensures InPlace(x, reg[x], m.self, m.cbs)
      {
        assert reg[x].OtherSlot? || (x in m.reg && reg[x] == m.reg[x]);
      }
    }
  }

  lemma StartStepLeak(s: Sys, step: Step)
    requires Inv(s) && Enabled(s, step) && (step.TimerStart? || step.StartRead? || step.Listen?)
    ensures NoLeak(NextMemory(s, step)) <==> NoLeak(s.m) && !Overwrites(s, step)
  {
    StartLeak(s.m, SlotOf(step), BitOf(step), step.ok, step.cb, step.self);
    hide NoLeak, Start, Sound;
  }

  lemma UvStepLeak(s: Sys, step: Step)
    requires Inv(s) && Enabled(s, step) && IsUvStep(step) && !step.Complete?
    ensures NoLeak(NextMemory(s, step)) <==> NoLeak(s.m)
  {
    assert Sound(s.m) && s.m.open;
    hide NoLeak, ReadDone, TimerFired, Connected, Closed, Sound, RequestRefs;
    match step
    case TimerFire(repeats) => FireLeak(s, repeats);
    case ReadCallback(failed) => ReadLeak(s.m, failed);
    case ConnectionCallback => ConnectedLeak(s.m);
    case CloseCallback => ClosedLeak(s.m);
  }

  lemma ConnectedLeak(m: Memory)
    ensures NoLeak(Connected(m)) <==> NoLeak(m)
  {
    hide NoLeak;
    SameForLeak(m, Connected(m));
  }

  lemma QuietStepLeak(s: Sys, step: Step)
    requires Inv(s) && Enabled(s, step) && !step.Send? && !IsUvStep(step)
    requires !step.TimerStart? && !step.StartRead? && !step.Listen?
    ensures NoLeak(NextMemory(s, step)) <==> NoLeak(s.m)
  {
    assert Sound(s.m);
    hide NoLeak, Lock, Unlock, StoppedRead, Sound, RequestRefs, CloseMemory, DeferredRun;
    match step
    case TimerStop(_, self) => LockLeak(s.m, LOCK_START, self);
    case TimerAgain(_, _, self) => LockLeak(s.m, LOCK_START, self);
    case StopRead(ok) => ReadLeak(s.m, ok);
    case ManualLock(self) => LockLeak(s.m, LOCK_MANUAL, self);
    case ManualUnlock => UnlockLeak(s.m, LOCK_MANUAL);
    case Close(cb, self) => CloseLeak(s, cb, self);
    case Finalize(self) => CloseLeak(s, NOREF, self);
    case RunDeferred => DeferredLeak(s.m, s.deferred);
    case Others(reg) => OthersLeak(s.m, reg);
    case _ =>
  }

  lemma DeferredLeak(m: Memory, queue: seq<Deferred>)
    ensures NoLeak(DeferredRun(m, queue)) <==> NoLeak(m)
  {
    hide NoLeak;
    SameForLeak(m, DeferredRun(m, queue));
  }

  lemma ClosedLeak(m: Memory)
    requires Sound(m) && m.open
    ensures NoLeak(Closed(m)) <==> NoLeak(m)
  {
    hide NoLeak, Cleanup, Sound;
    CleanupLeak(m);
    SameForLeak(Cleanup(m), Closed(m));
  }

  lemma FireLeak(s: Sys, repeats: bool)
    requires Sound(s.m)
    ensures NoLeak(TimerFired(s.m, repeats)) <==> NoLeak(s.m)
  {
    hide NoLeak, Unlock, Sound;
    UnlockLeak(s.m, LOCK_START);
    var m1 := if repeats then s.m else Unlock(s.m, LOCK_START);
    SameForLeak(m1, TimerFired(s.m, repeats));
  }

  /** One step: a leak begins exactly with an overwrite, and never ends. */
  lemma StepLeak(s: Sys, step: Step)
    requires Inv(s) && Enabled(s, step) && (step.Send? ==> step.id !in s.reqs)
    ensures NoLeak(Next(s, step).m) <==> NoLeak(s.m) && !Overwrites(s, step)
  {
    assert Next(s, step).m == NextMemory(s, step);
    hide NoLeak, Inv, Enabled, Next, NextMemory;
    if step.Send? {
      SendLeak(s, step);
    } else if step.Complete? {
      CompleteLeak(s, step);
    } else if step.TimerStart? || step.StartRead? || step.Listen? {
      StartStepLeak(s, step);
    } else if IsUvStep(step) {
      UvStepLeak(s, step);
    } else {
      QuietStepLeak(s, step);
    }
  }

  // ----- Runs -----

  /** No start of the run finds its callback slot taken. */
  predicate NeverOverwrites(s: Sys, steps: seq<Step>)
    decreases |steps|
  {
    steps == [] || (!Overwrites(s, steps[0]) && NeverOverwrites(Next(s, steps[0]), steps[1..]))
  }

  lemma {:induction false} RunLeak(s: Sys, steps: seq<Step>)
    requires Inv(s) && Lives(s) && IsRun(s, steps)
    ensures NoLeak(Final(s, steps).m) <==> NoLeak(s.m) && NeverOverwrites(s, steps)
    decreases |steps|
  {
    if steps != [] {
      ReachableSend(s, steps[0]);
      StepHolds(s, steps[0]);
      LivesHold(s, steps[0]);
      StepLeak(s, steps[0]);
      RunLeak(Next(s, steps[0]), steps[1..]);
    }
  }

  // ----- The theorems -----

  /** Over every run: a reference of the handle is leaked exactly when something was started while its
      callback slot was taken. */
  lemma LeaksExactlyByOverwriting(s0: Sys, steps: seq<Step>)
    requires Init(s0) && IsRun(s0, steps)
    ensures NoLeak(Final(s0, steps).m) <==> NeverOverwrites(s0, steps)
  {
    InitHolds(s0);
    InitLives(s0);
    forall r | r in s0.m.reg
      ensures InPlace(r, s0.m.reg[r], s0.m.self, s0.m.cbs)
    {
      InitRegistry(s0, r);
    }
    RunLeak(s0, steps);
  }

  lemma InitRegistry(s: Sys, r: Ref)
    requires Init(s) && r in s.m.reg
    ensures s.m.reg[r] == OtherSlot
  {
    var reg: map<Ref, Slot> :|
      && (forall x :: x in reg ==> reg[x] == OtherSlot)
      && s.m == (if s.inited then Created(reg) else Cleanup(Created(reg)));
    assert r in reg;
  }

  /** Then a closed handle leaves nothing behind: what is still registered belongs to others, or to requests
      that an impolite libuv has not completed yet. */
  lemma ClosedLeavesNothing(s0: Sys, steps: seq<Step>, r: Ref)
    requires Init(s0) && IsRun(s0, steps) && NeverOverwrites(s0, steps)
    requires Final(s0, steps).closed && r in Final(s0, steps).m.reg
    ensures var s := Final(s0, steps);
            var slot := s.m.reg[r];
            || slot == OtherSlot
            || (!s.polite && (slot.RequestCb? || slot.RequestArg? || slot.RequestCtx?) && slot.id in s.reqs)
  {
    LeaksExactlyByOverwriting(s0, steps);
    InitHolds(s0);
    InitLives(s0);
    RunHolds(s0, steps);
    var s := Final(s0, steps);
    var slot := s.m.reg[r];
    assert InPlace(r, slot, s.m.self, s.m.cbs);
    if slot.RequestCb? || slot.RequestArg? || slot.RequestCtx? {
      assert slot.OfRequest(slot.id);
      assert !NoRefs(s.m.reg, slot.id);
    }
  }

  lemma SecondStart(s: Sys, step: Step, again: Step)
    requires IsFirstStart(step) && again == step.(cb := 3, self := 4)
    requires Callable(s) && !s.closing && s.kind == (if step.TimerStart? then Timer else Stream)
    requires s.m.cbs.Get(SlotOf(step)) == 1 && s.m.reg.Keys == {1, 2}
    ensures Enabled(s, again) && Overwrites(s, again)
  {
    assert 3 !in s.m.reg.Keys && 4 !in s.m.reg.Keys;
  }

  lemma NothingToLeak(kind: Kind, step: Step)
    ensures NoLeak(Beginning(kind).m) && !Overwrites(Beginning(kind), step)
  {
  }

  /** Every kind of start can leak: starting a second time does. */
  lemma LeakIsReachable(step: Step)
    requires IsFirstStart(step)
    ensures var once := Next(Beginning(if step.TimerStart? then Timer else Stream), step);
            var twice := Next(once, step.(cb := 3, self := 4));
            Reachable(twice) && NoLeak(once.m) && !NoLeak(twice.m)
  {
    var kind := if step.TimerStart? then Timer else Stream;
    var s0, again := Beginning(kind), step.(cb := 3, self := 4);
    var once := Next(s0, step);
    hide NoLeak, Next, Reachable, Enabled, Overwrites, Beginning, Inv, Init, Callable;
    FirstStart(step);
    FirstStartEnabled(s0, step);
    NothingToLeak(kind, step);
    SecondStart(once, step, again);
    InitIsReachable(s0);
    ReachableHolds(s0);
    StepLeak(s0, step);
    ReachableHolds(once);
    ReachableNext(once, again);
    StepLeak(once, again);
  }
}

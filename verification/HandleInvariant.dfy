/** The invariant of the handle system is kept by every step. */
module HandleInvariant {
  import opened HandleMemory
  import opened HandleSystem

  lemma StartKeeps(s: Sys, slot: nat, bit: bv8, ok: bool, cb: Ref, self: Ref)
    requires Inv(s) && s.m.open && slot < 3 && IsLock(bit) && bit != LOCK_REQ && bit != LOCK_CLOSE
    requires TwoFresh(s.m, cb, self)
    ensures var m' := Start(s.m, slot, bit, ok, cb, self);
            && Sound(m') && m'.open && KeepsRequests(s.m, m') && m'.counter == s.m.counter
            && m'.cbs == s.m.cbs.Set(slot, cb) && AgreeBut(m'.lock, s.m.lock, bit)
            && (Has(s.m.lock, bit) || ok ==> Has(m'.lock, bit))
  {
    SetCallbackKeeps(s.m, slot, cb);
    if ok {
      LockKeeps(SetCallback(s.m, slot, cb), bit, self);
    }
  }

  lemma TimerStartHolds(s: Sys, step: Step)
    requires Inv(s) && (step.TimerStart? || step.StartRead?) && Enabled(s, step)
    ensures Inv(Next(s, step)) && KeepsOthers(s.m, Next(s, step).m)
  {
    hide KeepsRequests, KeepsOthers, RequestRefs, Start;
    StartKeeps(s, START_CB, LOCK_START, step.ok, step.cb, step.self);
    RequestsStay(s, Next(s, step).m);
  }

  lemma ListenHolds(s: Sys, step: Step)
    requires Inv(s) && step.Listen? && Enabled(s, step)
    ensures Inv(Next(s, step)) && KeepsOthers(s.m, Next(s, step).m)
  {
    hide KeepsRequests, KeepsOthers, RequestRefs, Start;
    StartKeeps(s, CONNECTION_CB, LOCK_CONNECTION, step.ok, step.cb, step.self);
    RequestsStay(s, Next(s, step).m);
  }

  lemma TimerLockHolds(s: Sys, step: Step)
    requires Inv(s) && (step.TimerStop? || step.TimerAgain?) && Enabled(s, step)
    ensures Inv(Next(s, step)) && KeepsOthers(s.m, Next(s, step).m)
  {
    hide KeepsRequests, KeepsOthers, RequestRefs, Lock;
    LockKeeps(s.m, LOCK_START, step.self);
    RequestsStay(s, Next(s, step).m);
  }

  lemma TimerFireHolds(s: Sys, step: Step)
    requires Inv(s) && step.TimerFire? && Enabled(s, step)
    ensures Inv(Next(s, step)) && KeepsOthers(s.m, Next(s, step).m)
  {
    hide KeepsRequests, KeepsOthers, RequestRefs, Unlock;
    UnlockKeeps(s.m, LOCK_START);
    RequestsStay(s, Next(s, step).m);
  }

  lemma StopReadHolds(s: Sys, step: Step)
    requires Inv(s) && step.StopRead? && Enabled(s, step)
    ensures Inv(Next(s, step)) && KeepsOthers(s.m, Next(s, step).m)
  {
    hide KeepsRequests, KeepsOthers, RequestRefs, StoppedRead;
    StoppedReadKeeps(s.m, step.ok);
    RequestsStay(s, Next(s, step).m);
  }

  lemma ReadCallbackHolds(s: Sys, step: Step)
    requires Inv(s) && step.ReadCallback? && Enabled(s, step)
    ensures Inv(Next(s, step)) && KeepsOthers(s.m, Next(s, step).m)
  {
    hide KeepsRequests, KeepsOthers, RequestRefs, ReadDone;
    ReadDoneKeeps(s.m, step.failed);
    RequestsStay(s, Next(s, step).m);
  }

  lemma ConnectionHolds(s: Sys, step: Step)
    requires Inv(s) && step.ConnectionCallback? && Enabled(s, step)
    ensures Inv(Next(s, step)) && KeepsOthers(s.m, Next(s, step).m)
  {
    assert NextMemory(s, step) == NoteCall(s.m, CONNECTION_CB, s.m.cbs.connection);
  }

  // ----- Requests -----

  lemma OtherRefsStay(m: Memory, m': Memory, id: nat, other: nat, q: Request)
    requires KeepsBut(m, m', id) && other != id
    ensures OwnsRequest(m.reg, other, q) ==> OwnsRequest(m'.reg, other, q)
    ensures OnlyRefs(m.reg, other, q) ==> OnlyRefs(m'.reg, other, q)
    ensures NoRefs(m.reg, other) ==> NoRefs(m'.reg, other)
  {
  }

  lemma PutOrRemoved(reqs: map<nat, Request>, id: nat, q: Request)
    ensures reqs[id := q] - {id} == reqs - {id} == reqs - {id} - {id}
    ensures reqs[id := q][id] == q && id in reqs[id := q] && id !in reqs - {id}
  {
  }

  /** Whatever happened to request `id`, the other requests keep theirs. */
  lemma RefsAfter(reqs: map<nat, Request>, reqs': map<nat, Request>, id: nat, m: Memory, m': Memory)
    requires RequestRefs(m.reg, reqs) && KeepsBut(m, m', id)
    requires reqs' - {id} == reqs - {id}
    requires if id in reqs' then OwnsRequest(m'.reg, id, reqs'[id]) && OnlyRefs(m'.reg, id, reqs'[id])
             else NoRefs(m'.reg, id)
    ensures RequestRefs(m'.reg, reqs') && KeepsOthers(m, m')
  {
    forall other: nat
      ensures if other in reqs' then OwnsRequest(m'.reg, other, reqs'[other]) && OnlyRefs(m'.reg, other, reqs'[other])
              else NoRefs(m'.reg, other)
    {
      if other != id {
        assert other in reqs' <==> other in reqs' - {id};
        assert other in reqs <==> other in reqs - {id};
        assert other in reqs ==> reqs'[other] == (reqs' - {id})[other] && reqs[other] == (reqs - {id})[other];
        OtherRefsStay(m, m', id, other, if other in reqs then reqs[other] else Request(NOREF, NOREF, NOREF));
      }
    }
  }

  /** What a `Send` needs of the memory it leaves. */
  ghost predicate SendKeeps(s: Sys, step: Step, m: Memory)
    requires step.Send?
  {
    && Sound(m) && m.open && m.cbs == s.m.cbs && AgreeBut(m.lock, s.m.lock, LOCK_REQ)
    && m.counter == s.m.counter + (if step.ok then 1 else 0)
    && RequestRefs(m.reg, NextRequests(s, step))
    && KeepsOthers(s.m, m)
  }

  lemma AcceptedMemory(s: Sys, id: nat, q: Request, self: Ref)
    requires Inv(s) && s.m.open && id !in s.reqs && FreshRequest(s.m, q, self)
    ensures var m1 := RequestNew(s.m, id, q, self);
            && Sound(m1) && m1.open && m1.cbs == s.m.cbs && AgreeBut(m1.lock, s.m.lock, LOCK_REQ)
            && m1.counter == s.m.counter + 1 && m1.counter > 0
            && RequestRefs(m1.reg, s.reqs[id := q]) && KeepsOthers(s.m, m1)
  {
    var m1 := RequestNew(s.m, id, q, self);
    assert NoRefs(s.m.reg, id) && Sound(s.m) && s.m.counter == |s.reqs|;
    hide RequestNew, Sound, AgreeBut, KeepsBut, KeepsOthers, OwnsRequest, OnlyRefs, NoRefs, FreshRequest, Has;
    RequestNewKeeps(s.m, id, q, self);
    PutOrRemoved(s.reqs, id, q);
    RefsAfter(s.reqs, s.reqs[id := q], id, s.m, m1);
  }

  lemma RefusedMemory(reqs: map<nat, Request>, id: nat, q: Request, m: Memory, m1: Memory)
    requires Sound(m1) && m1.open && m1.counter > 0 && id !in reqs
    requires RequestRefs(m1.reg, reqs[id := q]) && KeepsOthers(m, m1) && AgreeBut(m1.lock, m.lock, LOCK_REQ)
    ensures var m2 := RequestFree(m1, id, q);
            && Sound(m2) && m2.open && m2.cbs == m1.cbs && m2.counter == m1.counter - 1
            && AgreeBut(m2.lock, m.lock, LOCK_REQ)
            && RequestRefs(m2.reg, reqs) && KeepsOthers(m, m2)
  {
    assert reqs[id := q][id] == q;
    assert OwnsRequest(m1.reg, id, q) && OnlyRefs(m1.reg, id, q);
    hide RequestFree, Sound, AgreeBut, KeepsBut, KeepsOthers, OwnsRequest, OnlyRefs, NoRefs;
    RequestFreeKeeps(m1, id, q);
    PutOrRemoved(reqs, id, q);
    RefsAfter(reqs[id := q], reqs, id, m1, RequestFree(m1, id, q));
    KeepsOthersTwice(m, m1, RequestFree(m1, id, q));
  }

  lemma KeepsOthersTwice(m: Memory, m1: Memory, m2: Memory)
    requires KeepsOthers(m, m1) && KeepsOthers(m1, m2)
    requires AgreeBut(m1.lock, m.lock, LOCK_REQ) && AgreeBut(m2.lock, m1.lock, LOCK_REQ)
    ensures KeepsOthers(m, m2) && AgreeBut(m2.lock, m.lock, LOCK_REQ)
  {
  }

  lemma AfterSend(s: Sys, step: Step, m: Memory)
    requires Inv(s) && step.Send? && s.m.open && step.id !in s.reqs && SendKeeps(s, step, m)
    ensures Inv(With(s, step, m))
  {
    if step.ok {
      assert |s.reqs[step.id := step.q]| == |s.reqs| + 1;
    }
  }

  /** Noting an event changes nothing else. */
  lemma NoteKeeps(s: Sys, step: Step, m: Memory, e: Event)
    requires step.Send? && SendKeeps(s, step, m)
    ensures SendKeeps(s, step, Note(m, e))
  {
  }

  lemma SendMemory(s: Sys, step: Step)
    requires Inv(s) && step.Send? && s.m.open && FreshRequest(s.m, step.q, step.self) && step.id !in s.reqs
    ensures SendKeeps(s, step, Answered(RequestNew(s.m, step.id, step.q, step.self), step.id, step.q, step.ok))
  {
    hide Inv, FreshRequest, RequestNew, RequestFree, Sound, AgreeBut, KeepsOthers, RequestRefs, Has;
    var m1 := RequestNew(s.m, step.id, step.q, step.self);
    AcceptedMemory(s, step.id, step.q, step.self);
    if !step.ok {
      RefusedMemory(s.reqs, step.id, step.q, s.m, m1);
      var m2 := RequestFree(m1, step.id, step.q);
      NoteKeeps(s, step, m2, if step.q.cb > 0 then Queued(step.id) else Refused(step.id));
    }
  }

  lemma SendHolds(s: Sys, step: Step)
    requires Inv(s) && step.Send? && Enabled(s, step) && step.id !in s.reqs
    ensures Inv(Next(s, step)) && KeepsOthers(s.m, Next(s, step).m)
  {
    var m := Answered(RequestNew(s.m, step.id, step.q, step.self), step.id, step.q, step.ok);
    assert NextMemory(s, step) == m;
    SendMemory(s, step);
    AfterSend(s, step, m);
    hide Inv, Enabled, FreshRequest, RequestNew, Answered, Sound, KeepsOthers, RequestRefs, With, NextMemory;
  }

  lemma AfterComplete(s: Sys, step: Step, m: Memory)
    requires Inv(s) && step.Complete? && step.id in s.reqs
    requires Sound(m) && m.open == s.m.open && m.cbs == s.m.cbs && AgreeBut(m.lock, s.m.lock, LOCK_REQ)
    requires m.counter == s.m.counter - if m.open then 1 else 0
    requires RequestRefs(m.reg, s.reqs - {step.id})
    ensures Inv(With(s, step, m))
  {
    hide RequestRefs, Sound, Has, NextDeferred;
    OneFewer(s.reqs, step.id);
  }

  lemma OneFewer(reqs: map<nat, Request>, id: nat)
    requires id in reqs
    ensures |reqs| == |reqs - {id}| + 1
  {
    assert reqs == (reqs - {id})[id := reqs[id]];
  }

  /** A completed request is freed; its call is only noted. */
  lemma CompletedKeeps(m: Memory, id: nat, q: Request)
    requires Sound(m) && OwnsRequest(m.reg, id, q) && OnlyRefs(m.reg, id, q) && (m.open ==> m.counter > 0)
    ensures var m' := Completed(m, id, q);
            && Sound(m') && m'.open == m.open && m'.cbs == m.cbs && KeepsBut(m, m', id)
            && AgreeBut(m'.lock, m.lock, LOCK_REQ)
            && m'.counter == m.counter - (if m.open then 1 else 0)
            && NoRefs(m'.reg, id)
  {
    RequestFreeKeeps(m, id, q);
    hide RequestFree;
  }

  lemma CompleteMemory(s: Sys, step: Step)
    requires step.Complete? && step.id in s.reqs
    ensures NextMemory(s, step) == Completed(s.m, step.id, s.reqs[step.id])
  {
    hide Completed;
  }

  lemma CompleteHolds(s: Sys, step: Step)
    requires Inv(s) && step.Complete? && Enabled(s, step)
    ensures Inv(Next(s, step)) && KeepsOthers(s.m, Next(s, step).m)
  {
    var id := step.id;
    var q := s.reqs[id];
    var m := Completed(s.m, id, q);
    CompleteMemory(s, step);
    LiveRequest(s, id);
    hide Inv, Sound, AgreeBut, KeepsBut, KeepsOthers, OwnsRequest, OnlyRefs, NoRefs, Completed, With, Has, NextMemory;
    CompletedKeeps(s.m, id, q);
    PutOrRemoved(s.reqs, id, q);
    RefsAfter(s.reqs, s.reqs - {id}, id, s.m, m);
    AfterComplete(s, step, m);
  }

  /** What the invariant says about one live request. */
  lemma LiveRequest(s: Sys, id: nat)
    requires Inv(s) && id in s.reqs
    ensures Sound(s.m) && RequestRefs(s.m.reg, s.reqs) && (s.m.open ==> s.m.counter > 0)
    ensures OwnsRequest(s.m.reg, id, s.reqs[id]) && OnlyRefs(s.m.reg, id, s.reqs[id])
  {
    hide Sound, OwnsRequest, OnlyRefs, NoRefs;
  }

  lemma ManualHolds(s: Sys, step: Step)
    requires Inv(s) && (step.ManualLock? || step.ManualUnlock?) && Enabled(s, step)
    ensures Inv(Next(s, step)) && KeepsOthers(s.m, Next(s, step).m)
  {
    hide KeepsRequests, KeepsOthers, RequestRefs, Lock, Unlock;
    if step.ManualLock? {
      LockKeeps(s.m, LOCK_MANUAL, step.self);
    } else {
      UnlockKeeps(s.m, LOCK_MANUAL);
    }
    RequestsStay(s, Next(s, step).m);
  }

  lemma CloseMemoryKeeps(s: Sys, cb: Ref, self: Ref)
    requires Inv(s) && Fresh(s.m, self) && (cb == NOREF || (Fresh(s.m, cb) && cb != self))
    ensures var m' := CloseMemory(s, cb, self);
            && Sound(m') && m'.open == s.m.open && KeepsRequests(s.m, m') && m'.counter == s.m.counter
            && AgreeBut(m'.lock, s.m.lock, LOCK_CLOSE)
            && (m'.open ==> Has(m'.lock, LOCK_CLOSE) && m'.cbs.start == s.m.cbs.start && m'.lock != 0)
            && (!s.m.open || s.closing ==> m' == s.m)
            && m'.cbs == (if s.m.open && !s.closing && cb != NOREF then s.m.cbs.Set(CLOSE_CB, cb) else s.m.cbs)
  {
    assert !Has(0, LOCK_CLOSE);
    if s.m.open && !s.closing {
      LockKeeps(s.m, LOCK_CLOSE, self);
      if cb != NOREF {
        SetCallbackKeeps(Lock(s.m, LOCK_CLOSE, self), CLOSE_CB, cb);
      }
    }
  }

  lemma AfterClose(s: Sys, step: Step, m: Memory)
    requires Inv(s) && (step.Close? || (step.Finalize? && !s.reachable && !s.freed))
    requires Sound(m) && m.open == s.m.open && KeepsRequests(s.m, m) && m.counter == s.m.counter
    requires AgreeBut(m.lock, s.m.lock, LOCK_CLOSE)
    requires m.open ==> Has(m.lock, LOCK_CLOSE) && m.cbs.start == s.m.cbs.start && m.lock != 0
    requires !s.m.open || s.closing ==> m == s.m
    ensures Inv(With(s, step, m))
  {
    RequestsStay(s, m);
  }

  lemma CloseMoves(s: Sys, step: Step, cb: Ref, self: Ref)
    requires Inv(s) && Fresh(s.m, self) && (cb == NOREF || (Fresh(s.m, cb) && cb != self))
    requires step.Close? || (step.Finalize? && !s.reachable && !s.freed)
    ensures Inv(With(s, step, CloseMemory(s, cb, self))) && KeepsOthers(s.m, CloseMemory(s, cb, self))
  {
    hide CloseMemory, Inv, Sound, AgreeBut, RequestRefs, With, Has, Fresh;
    CloseMemoryKeeps(s, cb, self);
    AfterClose(s, step, CloseMemory(s, cb, self));
  }

  lemma CloseHolds(s: Sys, step: Step)
    requires Inv(s) && step.Close? && Enabled(s, step)
    ensures Inv(Next(s, step)) && KeepsOthers(s.m, Next(s, step).m)
  {
    CloseMoves(s, step, step.cb, step.self);
  }

  lemma FinalizeHolds(s: Sys, step: Step)
    requires Inv(s) && step.Finalize? && Enabled(s, step)
    ensures Inv(Next(s, step)) && KeepsOthers(s.m, Next(s, step).m)
  {
    CloseMoves(s, step, NOREF, step.self);
  }

  lemma ClosedKeeps(m: Memory)
    requires Sound(m) && m.open
    ensures Sound(Closed(m)) && !Closed(m).open && KeepsRequests(m, Closed(m))
  {
    CleanupKeeps(m);
    hide Cleanup;
  }

  lemma AfterCleanup(s: Sys, step: Step, m: Memory)
    requires Inv(s) && step.CloseCallback? && Enabled(s, step)
    requires Sound(m) && !m.open && KeepsRequests(s.m, m)
    ensures Inv(With(s, step, m))
  {
    RequestsStay(s, m);
    assert !Has(0, LOCK_CLOSE);
  }

  lemma CloseCallbackHolds(s: Sys, step: Step)
    requires Inv(s) && step.CloseCallback? && Enabled(s, step)
    ensures Inv(Next(s, step)) && KeepsOthers(s.m, Next(s, step).m)
  {
    assert Sound(s.m) && s.m.open && RequestRefs(s.m.reg, s.reqs);
    hide Inv, Sound, Closed, KeepsRequests, KeepsOthers, RequestRefs, With, Enabled;
    ClosedKeeps(s.m);
    RequestsStay(s, Closed(s.m));
    AfterCleanup(s, step, Closed(s.m));
  }

  lemma CollectorHolds(s: Sys, step: Step)
    requires Inv(s) && (step.Release? || step.Acquire? || step.Collect?)
    requires Enabled(s, step)
    ensures Inv(Next(s, step)) && KeepsOthers(s.m, Next(s, step).m)
  {
    hide KeepsRequests, RequestRefs;
    assert !Has(0, LOCK_CLOSE);
  }

  lemma DeferredKeeps(m: Memory, queue: seq<Deferred>)
    requires Sound(m)
    ensures var m' := DeferredRun(m, queue);
            Sound(m') && m' == m.(trace := m'.trace, called := m'.called) && KeepsOthers(m, m')
  {
  }

  lemma DeferredHolds(s: Sys, step: Step)
    requires Inv(s) && step.RunDeferred? && Enabled(s, step)
    ensures Inv(Next(s, step)) && KeepsOthers(s.m, Next(s, step).m)
  {
    hide KeepsRequests, KeepsOthers, RequestRefs, DeferredRun, Sound, Has;
    DeferredKeeps(s.m, s.deferred);
  }

  /** Two registries agree on everything that is this handle's. */
  ghost predicate SameButOthers(reg: map<Ref, Slot>, reg': map<Ref, Slot>) {
    && (forall r :: r in reg && !reg[r].OtherSlot? ==> r in reg' && reg'[r] == reg[r])
    && (forall r :: r in reg' && !reg'[r].OtherSlot? ==> r in reg && reg[r] == reg'[r])
  }

  lemma SoundForOthers(m: Memory, reg: map<Ref, Slot>)
    requires Sound(m) && SameButOthers(m.reg, reg)
    ensures Sound(m.(reg := reg))
  {
  }

  lemma RefsForOthers(reg: map<Ref, Slot>, reg': map<Ref, Slot>, id: nat, q: Request)
    requires SameButOthers(reg, reg')
    ensures OwnsRequest(reg, id, q) ==> OwnsRequest(reg', id, q)
    ensures OnlyRefs(reg, id, q) ==> OnlyRefs(reg', id, q)
    ensures NoRefs(reg, id) ==> NoRefs(reg', id)
  {
  }

  lemma RequestRefsForOthers(reg: map<Ref, Slot>, reg': map<Ref, Slot>, reqs: map<nat, Request>)
    requires SameButOthers(reg, reg') && RequestRefs(reg, reqs)
    ensures RequestRefs(reg', reqs)
  {
    hide SameButOthers, OwnsRequest, OnlyRefs, NoRefs;
    forall id: nat
      ensures if id in reqs then OwnsRequest(reg', id, reqs[id]) && OnlyRefs(reg', id, reqs[id]) else NoRefs(reg', id)
    {
      RefsForOthers(reg, reg', id, if id in reqs then reqs[id] else Request(NOREF, NOREF, NOREF));
    }
  }

  lemma OthersHold(s: Sys, step: Step)
    requires Inv(s) && step.Others? && Enabled(s, step)
    ensures Inv(Next(s, step))
  {
    assert SameButOthers(s.m.reg, step.reg);
    hide SameButOthers, Sound, RequestRefs, Enabled, Has;
    SoundForOthers(s.m, step.reg);
    RequestRefsForOthers(s.m.reg, step.reg, s.reqs);
  }

  lemma StartOrStopHolds(s: Sys, step: Step)
    requires Inv(s) && Enabled(s, step)
    requires step.TimerStart? || step.StartRead? || step.Listen? || step.TimerStop? || step.TimerAgain? || step.StopRead?
    ensures Inv(Next(s, step)) && KeepsOthers(s.m, Next(s, step).m)
  {
    if step.TimerStart? || step.StartRead? {
      TimerStartHolds(s, step);
    } else if step.Listen? {
      ListenHolds(s, step);
    } else if step.StopRead? {
      StopReadHolds(s, step);
    } else {
      TimerLockHolds(s, step);
    }
  }

  lemma UvStepHolds(s: Sys, step: Step)
    requires Inv(s) && Enabled(s, step) && IsUvStep(step)
    ensures Inv(Next(s, step)) && KeepsOthers(s.m, Next(s, step).m)
  {
    if step.TimerFire? {
      TimerFireHolds(s, step);
    } else if step.ReadCallback? {
      ReadCallbackHolds(s, step);
    } else if step.ConnectionCallback? {
      ConnectionHolds(s, step);
    } else if step.Complete? {
      CompleteHolds(s, step);
    } else {
      CloseCallbackHolds(s, step);
    }
  }

  /** Every step keeps the invariant. A request identity that was never accepted is not in use. */
  lemma StepHolds(s: Sys, step: Step)
    requires Inv(s) && Enabled(s, step)
    requires step.Send? ==> step.id !in s.reqs
    ensures Inv(Next(s, step))
    ensures !step.Others? ==> KeepsOthers(s.m, Next(s, step).m)
  {
    if IsUvStep(step) {
      UvStepHolds(s, step);
    } else if step.Send? {
      SendHolds(s, step);
    } else if step.ManualLock? || step.ManualUnlock? {
      ManualHolds(s, step);
    } else if step.Close? {
      CloseHolds(s, step);
    } else if step.Finalize? {
      FinalizeHolds(s, step);
    } else if step.Others? {
      OthersHold(s, step);
    } else if step.RunDeferred? {
      DeferredHolds(s, step);
    } else if step.Release? || step.Acquire? || step.Collect? {
      CollectorHolds(s, step);
    } else {
      StartOrStopHolds(s, step);
    }
  }
}

/** What holds in every reachable state of the handle system. */
module HandleTheorems {
  import opened HandleMemory
  import opened HandleSystem
  import opened HandleInvariant
  import opened HandleLives

  lemma ReachableSend(s: Sys, step: Step)
    requires Lives(s) && Enabled(s, step)
    ensures step.Send? ==> step.id !in s.reqs
  {
    if step.Send? {
      assert LivesAt(s, step.id);
      LifeIsPhase(s.m.trace, step.id);
    }
  }

  lemma InitLives(s: Sys)
    requires Init(s)
    ensures Lives(s) && s.m.trace == []
  {
    var m := Created(s.m.reg);
    assert s.m.trace == [];
    forall id: nat
      ensures LivesAt(s, id)
    {
    }
  }

  lemma {:induction false} RunHolds(s: Sys, steps: seq<Step>)
    requires Inv(s) && Lives(s) && IsRun(s, steps)
    ensures Inv(Final(s, steps)) && Lives(Final(s, steps))
    decreases |steps|
  {
    if steps != [] {
      ReachableSend(s, steps[0]);
      StepHolds(s, steps[0]);
      LivesHold(s, steps[0]);
      RunHolds(Next(s, steps[0]), steps[1..]);
    }
  }

  lemma ReachableHolds(s: Sys)
    requires Reachable(s)
    ensures Inv(s) && Lives(s)
  {
    var s0: Sys, steps: seq<Step> :| Init(s0) && IsRun(s0, steps) && s == Final(s0, steps);
    InitHolds(s0);
    InitLives(s0);
    RunHolds(s0, steps);
  }

  // ----- The theorems -----

  /** The memory is given back only after libuv ran the close callback, or when libuv never took it;
      as long as libuv can still call back, it is there. */
  lemma FreedOnlyAfterClose(s: Sys)
    requires Reachable(s)
    ensures s.freed ==> s.closed || !s.inited
    ensures s.inited && !s.closed ==> !s.freed
  {
    ReachableHolds(s);
  }

  lemma CollectedOnlyAfterClose(s: Sys, step: Step)
    requires Reachable(s) && step.Collect? && Enabled(s, step)
    ensures s.closed || !s.inited
  {
    ReachableHolds(s);
    assert !Has(0, LOCK_CLOSE);
  }

  /** Whenever a polite libuv calls back through its pointer, the handle is there and still open. */
  lemma UvFindsTheHandle(s: Sys, step: Step)
    requires Reachable(s) && s.polite && IsUvStep(step) && Enabled(s, step)
    ensures !s.freed && s.m.open
  {
    ReachableHolds(s);
    if step.Complete? {
      assert s.reqs != map[];
    }
  }

  /** The finalizer of an open handle leaves it closing and pinned, so that it is not collected before
      the close callback; until that callback nothing but the callback itself clears CLOSE. */
  lemma FinalizerStartsClose(s: Sys, step: Step)
    requires Reachable(s) && Enabled(s, step)
    ensures step.Finalize? && s.m.open ==>
              var s' := Next(s, step);
              s'.closing && Has(s'.m.lock, LOCK_CLOSE) && Pinned(s') && !s'.freed
    ensures Has(s.m.lock, LOCK_CLOSE) && !step.CloseCallback? ==>
              Has(Next(s, step).m.lock, LOCK_CLOSE) && Pinned(Next(s, step))
  {
    ReachableHolds(s);
    ReachableSend(s, step);
    StepHolds(s, step);
    assert !Has(0, LOCK_CLOSE);
  }

  /** Locks and their bookkeeping; no C assertion ever fails and no dead reference is ever released. */
  lemma LocksAreSound(s: Sys)
    requires Reachable(s)
    ensures !s.m.fault
    ensures s.m.self > 0 && s.m.self in s.m.reg <==> s.m.lock != 0
    ensures s.m.lock != 0 ==> s.m.reg[s.m.self] == SelfSlot
    ensures s.m.open ==> (Has(s.m.lock, LOCK_REQ) <==> s.m.counter > 0) && s.m.counter == |s.reqs|
    ensures !s.m.open ==> s.m.lock == 0 && s.m.cbs == NO_CALLBACKS
  {
    ReachableHolds(s);
  }

  /** The references of others are never released by this handle. */
  lemma OthersKeepTheirReferences(s: Sys, step: Step, r: Ref)
    requires Reachable(s) && Enabled(s, step) && !step.Others?
    requires r in s.m.reg && s.m.reg[r] == OtherSlot
    ensures r in Next(s, step).m.reg && Next(s, step).m.reg[r] == OtherSlot
  {
    ReachableHolds(s);
    ReachableSend(s, step);
    StepHolds(s, step);
  }

  /** An active timer or a reading stream is locked, hence pinned, and has a callback to run. */
  lemma ActiveIsPinned(s: Sys)
    requires Reachable(s) && s.active
    ensures Has(s.m.lock, if s.kind.Timer? then LOCK_START else LOCK_READ)
    ensures s.m.open && Pinned(s) && !s.freed && s.m.cbs.start in s.m.reg
  {
    ReachableHolds(s);
    assert !Has(0, LOCK_START);
  }

  /** So is a listening stream, from the successful `listen` until it is closed. */
  lemma ListeningIsPinned(s: Sys)
    requires Reachable(s) && s.listening
    ensures Has(s.m.lock, LOCK_CONNECTION)
    ensures s.m.open && !s.closing && Pinned(s) && !s.freed && s.m.cbs.connection in s.m.reg
  {
    ReachableHolds(s);
    assert !Has(0, LOCK_CONNECTION);
  }

  // ----- Requests -----

  /** The references of requests that are registered are exactly those of the live requests. */
  lemma RequestReferences(s: Sys, id: nat)
    requires Reachable(s)
    ensures if id in s.reqs then OwnsRequest(s.m.reg, id, s.reqs[id]) && OnlyRefs(s.m.reg, id, s.reqs[id])
            else NoRefs(s.m.reg, id)
  {
    ReachableHolds(s);
  }

  /** Every life of a request that was made. It is freed once, and only after that called, at most once:
      when it completes, or later with its error from the defer queue. A request without a callback is never
      called. A callback is dropped only when the handle is closed, never under a polite libuv. */
  lemma RequestsEndOnce(s: Sys, id: nat)
    requires Reachable(s) && Life(s.m.trace, id) != []
    ensures var life, waiting := Life(s.m.trace, id), Waiting(s.deferred, id);
            if id in s.reqs then life == [Made(id, s.reqs[id].cb > 0)] && waiting == 0
            else
              || (life == [Made(id, true), Freed(id), Called(id)] && waiting == 0)
              || (life == [Made(id, true), Freed(id), Queued(id)] && waiting == 1)
              || (life == [Made(id, true), Freed(id), Queued(id), Called(id)] && waiting == 0)
              || (life == [Made(id, false), Freed(id)] && waiting == 0)
              || (life == [Made(id, false), Freed(id), Refused(id)] && waiting == 0)
              || (life == [Made(id, true), Freed(id)] && waiting == 0 && s.closed && !s.polite)
  {
    ReachableHolds(s);
    assert LivesAt(s, id);
    LifeIsPhase(s.m.trace, id);
  }

  /** What the trace calls freed is gone from memory: no reference of the request is left. */
  lemma FreedIsReleased(s: Sys, id: nat)
    requires Reachable(s) && Freed(id) in s.m.trace
    ensures id !in s.reqs && NoRefs(s.m.reg, id)
  {
    ReachableHolds(s);
    PartIsLife(s.m.trace, Freed(id));
    RequestsEndOnce(s, id);
  }

  lemma CalledAfterFreed(p: Phase, id: nat)
    requires !Advance(p, Called(id)).Impossible?
    ensures Freed(id) in LifeTo(p, id)
  {
  }

  /** Wherever a callback is called, its request has been freed before. */
  lemma FreedBeforeCalled(s: Sys, id: nat, i: nat)
    requires Reachable(s) && i < |s.m.trace| && s.m.trace[i] == Called(id)
    ensures exists j :: 0 <= j < i && s.m.trace[j] == Freed(id)
  {
    ReachableHolds(s);
    assert LivesAt(s, id);
    var trace := s.m.trace;
    PrefixIsPossible(trace, i + 1, id);
    assert trace[..i + 1][..i] == trace[..i];
    PrefixIsPossible(trace, i, id);
    LifeIsPhase(trace[..i], id);
    CalledAfterFreed(PhaseOf(trace[..i], id), id);
    LifeIsPart(trace[..i], id, Freed(id));
  }

  /** When a polite libuv has closed the handle, every request ever made has been freed and has met an end
      that is not a drop. */
  lemma PoliteCloseEndsAll(s: Sys, id: nat)
    requires Reachable(s) && s.polite && s.closed && Life(s.m.trace, id) != []
    ensures Freed(id) in s.m.trace && NoRefs(s.m.reg, id)
    ensures Made(id, true) in s.m.trace ==> Called(id) in s.m.trace || Waiting(s.deferred, id) == 1
  {
    ReachableHolds(s);
    RequestsEndOnce(s, id);
    var life := Life(s.m.trace, id);
    assert id !in s.reqs;
    assert life[1] == Freed(id);
    LifeIsPart(s.m.trace, id, Freed(id));
    if Made(id, true) in s.m.trace {
      PartIsLife(s.m.trace, Made(id, true));
      assert life[0] == Made(id, true);
      if Called(id) in life {
        LifeIsPart(s.m.trace, id, Called(id));
      }
    }
  }

  /** A callback of a request is called only when libuv completes a request or the loop runs a deferred
      call: in particular never inside the call that makes a request, refused or not. */
  lemma NoCallbackInsideSend(s: Sys, step: Step)
    requires Enabled(s, step) && !step.Complete? && !step.RunDeferred?
    ensures var before, after := s.m.trace, Next(s, step).m.trace;
            before <= after && forall i :: |before| <= i < |after| ==> !after[i].Called?
    ensures step.Send? ==> Made(step.id, step.q.cb > 0) in Next(s, step).m.trace
  {
    TraceWritten(s, step);
    var before, w := s.m.trace, Written(s, step);
    assert Next(s, step).m == NextMemory(s, step);
    assert forall e :: e in w ==> !e.Called?;
    assert step.Send? ==> w[0] == Made(step.id, step.q.cb > 0);
    hide Enabled, NextMemory, Next, Written;
    AddedOnly(before, w);
  }

  lemma AddedOnly(before: seq<Event>, w: seq<Event>)
    requires forall e :: e in w ==> !e.Called?
    ensures before <= before + w
    ensures forall i :: |before| <= i < |before + w| ==> !(before + w)[i].Called?
    ensures w != [] ==> w[0] in before + w
  {
    forall i | |before| <= i < |before + w|
      ensures !(before + w)[i].Called?
    {
      assert (before + w)[i] in w;
    }
  }

  // ----- Reaching states -----

  lemma {:induction false} RunAndStep(s: Sys, steps: seq<Step>, step: Step)
    requires IsRun(s, steps) && Enabled(Final(s, steps), step)
    ensures IsRun(s, steps + [step]) && Final(s, steps + [step]) == Next(Final(s, steps), step)
    decreases |steps|
  {
    if steps == [] {
      assert [step][1..] == [];
    } else {
      assert (steps + [step])[1..] == steps[1..] + [step];
      RunAndStep(Next(s, steps[0]), steps[1..], step);
    }
  }

  lemma ReachableNext(s: Sys, step: Step)
    requires Reachable(s) && Enabled(s, step)
    ensures Reachable(Next(s, step))
  {
    var s0: Sys, steps: seq<Step> :| Init(s0) && IsRun(s0, steps) && s == Final(s0, steps);
    RunAndStep(s0, steps, step);
  }

  lemma InitIsReachable(s: Sys)
    requires Init(s)
    ensures Reachable(s)
  {
    assert IsRun(s, []) && Final(s, []) == s;
  }
}

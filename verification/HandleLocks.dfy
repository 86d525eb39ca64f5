/** Exactly when a timer or a stream is locked by being started: over every run, not only "active implies
    locked". For streams the converse holds; for timers it fails after `stop`, which locks. */
module HandleLocks {
  import opened HandleMemory
  import opened HandleSystem
  import opened HandleInvariant
  import opened HandleLives
  import opened HandleTheorems

  /** A timer is stale after a successful `stop`, or an `again` that leaves it not running, until it is
      started, runs again or fires. */
  predicate StaleAfter(stale: bool, step: Step) {
    match step
    case TimerStart(ok, _, _) => stale && !ok
    case TimerStop(ok, _) => stale || ok
    case TimerAgain(ok, running, _) => if ok then !running else stale
    case TimerFire(_) => false
    case _ => stale
  }

  /** Whether a run leaves the timer stale; `stale` says how it begins. */
  predicate Stale(steps: seq<Step>, stale: bool)
    decreases |steps|
  {
    if steps == [] then stale else Stale(steps[1..], StaleAfter(stale, steps[0]))
  }

  /** What holds the lock, as long as the handle is neither closing nor closed. */
  predicate Exact(s: Sys, stale: bool) {
    s.m.open && !s.closing ==>
      (Has(s.m.lock, LOCK_START) <==> s.active || (s.kind.Timer? && stale))
  }

  predicate TouchesStart(step: Step) {
    || step.TimerStart? || step.TimerStop? || step.TimerAgain? || step.TimerFire?
    || step.StartRead? || step.StopRead? || step.ReadCallback?
  }

  /** Other steps leave the START lock and the activity alone, or begin to close the handle. */
  lemma OtherStepsKeepStart(s: Sys, step: Step)
    requires Inv(s) && Enabled(s, step) && !TouchesStart(step) && (step.Send? ==> step.id !in s.reqs)
    requires Next(s, step).m.open && !Next(s, step).closing
    ensures s.m.open && !s.closing && Next(s, step).active == s.active
    ensures Has(Next(s, step).m.lock, LOCK_START) <==> Has(s.m.lock, LOCK_START)
  {
    if step.Send? {
      SendKeepsStart(s, step);
    } else if step.Complete? {
      CompleteKeepsStart(s, step);
    } else {
      PlainStepKeepsStart(s, step);
    }
  }

  lemma SendKeepsStart(s: Sys, step: Step)
    requires Inv(s) && Enabled(s, step) && step.Send? && step.id !in s.reqs
    ensures Has(NextMemory(s, step).lock, LOCK_START) <==> Has(s.m.lock, LOCK_START)
  {
    AcceptedMemory(s, step.id, step.q, step.self);
    var m1 := RequestNew(s.m, step.id, step.q, step.self);
    if !step.ok {
      RefusedMemory(s.reqs, step.id, step.q, s.m, m1);
    }
    hide RequestNew, RequestFree, Inv, Sound, RequestRefs, KeepsOthers, Has;
  }

  lemma CompleteKeepsStart(s: Sys, step: Step)
    requires Inv(s) && Enabled(s, step) && step.Complete?
    ensures Has(NextMemory(s, step).lock, LOCK_START) <==> Has(s.m.lock, LOCK_START)
  {
    var id, q := step.id, s.reqs[step.id];
    hide Completed, NextMemory, Sound, OwnsRequest, OnlyRefs, NoRefs, KeepsBut, Has, Inv, RequestRefs;
    CompleteMemory(s, step);
    LiveRequest(s, id);
    CompletedKeeps(s.m, id, q);
  }

  lemma PlainStepKeepsStart(s: Sys, step: Step)
    requires Inv(s) && Enabled(s, step) && !TouchesStart(step) && !step.Send? && !step.Complete?
    requires Next(s, step).m.open && !Next(s, step).closing
    ensures s.m.open && !s.closing && Next(s, step).active == s.active
    ensures Has(Next(s, step).m.lock, LOCK_START) <==> Has(s.m.lock, LOCK_START)
  {
    hide Start, Lock, Unlock, Closing, Cleanup, Has, KeepsRequests, RequestRefs;
    if step.Listen? {
      StartKeeps(s, CONNECTION_CB, LOCK_CONNECTION, step.ok, step.cb, step.self);
    } else if step.ManualLock? {
      LockKeeps(s.m, LOCK_MANUAL, step.self);
    } else if step.ManualUnlock? {
      UnlockKeeps(s.m, LOCK_MANUAL);
    } else if step.CloseCallback? {
      CleanupKeeps(s.m);
    }
  }

  /** Steps of timers. */
  lemma TimerStepIsExact(s: Sys, step: Step, stale: bool)
    requires Inv(s) && Enabled(s, step) && Exact(s, stale)
    requires step.TimerStart? || step.TimerStop? || step.TimerAgain? || step.TimerFire?
    ensures Exact(Next(s, step), StaleAfter(stale, step))
  {
    hide Start, Lock, Unlock, Has, KeepsRequests, RequestRefs;
    if step.TimerStart? {
      StartKeeps(s, START_CB, LOCK_START, step.ok, step.cb, step.self);
      if !step.ok {
        FailedStart(s.m, START_CB, LOCK_START, step.cb, step.self);
      }
    } else if step.TimerFire? {
      UnlockKeeps(s.m, LOCK_START);
    } else {
      LockKeeps(s.m, LOCK_START, step.self);
    }
  }

  lemma FailedStart(m: Memory, slot: nat, bit: bv8, cb: Ref, self: Ref)
    requires slot < 3
    ensures Start(m, slot, bit, false, cb, self).lock == m.lock
  {
  }

  /** Steps of streams. */
  lemma ReadStepIsExact(s: Sys, step: Step, stale: bool)
    requires Inv(s) && Enabled(s, step) && Exact(s, stale)
    requires step.StartRead? || step.StopRead? || step.ReadCallback?
    ensures Exact(Next(s, step), StaleAfter(stale, step))
  {
    hide Start, StoppedRead, ReadDone, Has, KeepsRequests, RequestRefs;
    if step.StartRead? {
      StartKeeps(s, READ_CB, LOCK_READ, step.ok, step.cb, step.self);
      if !step.ok {
        FailedStart(s.m, READ_CB, LOCK_READ, step.cb, step.self);
      }
    } else if step.StopRead? {
      StoppedReadKeeps(s.m, step.ok);
    } else {
      ReadDoneKeeps(s.m, step.failed);
    }
  }

  lemma StepIsExact(s: Sys, step: Step, stale: bool)
    requires Inv(s) && Enabled(s, step) && (step.Send? ==> step.id !in s.reqs) && Exact(s, stale)
    ensures Exact(Next(s, step), StaleAfter(stale, step))
  {
    if step.StartRead? || step.StopRead? || step.ReadCallback? {
      ReadStepIsExact(s, step, stale);
    } else if TouchesStart(step) {
      TimerStepIsExact(s, step, stale);
    } else if Next(s, step).m.open && !Next(s, step).closing {
      hide Inv, Enabled, Next, Has;
      OtherStepsKeepStart(s, step);
      assert Next(s, step).kind == s.kind by {
        SameKind(s, step);
      }
    }
  }

  lemma SameKind(s: Sys, step: Step)
    ensures Next(s, step).kind == s.kind
  {
  }

  lemma {:induction false} RunIsExact(s: Sys, steps: seq<Step>, stale: bool)
    requires Inv(s) && Lives(s) && IsRun(s, steps) && Exact(s, stale)
    ensures Exact(Final(s, steps), Stale(steps, stale))
    decreases |steps|
  {
    if steps != [] {
      ReachableSend(s, steps[0]);
      StepHolds(s, steps[0]);
      LivesHold(s, steps[0]);
      StepIsExact(s, steps[0], stale);
      RunIsExact(Next(s, steps[0]), steps[1..], StaleAfter(stale, steps[0]));
    }
  }

  // ----- The theorems -----

  /** Over every run, as long as the handle is neither closing nor closed: a stream holds READ exactly while
      it reads; a timer holds START exactly while it is active or stale. */
  lemma LockedExactlyWhile(s0: Sys, steps: seq<Step>)
    requires Init(s0) && IsRun(s0, steps)
    requires Final(s0, steps).m.open && !Final(s0, steps).closing
    ensures var s := Final(s0, steps);
            && (s.kind.Stream? ==> (Has(s.m.lock, LOCK_READ) <==> s.active))
            && (s.kind.Timer? ==> (Has(s.m.lock, LOCK_START) <==> s.active || Stale(steps, false)))
  {
    InitHolds(s0);
    InitLives(s0);
    assert s0.m.open ==> s0.m.lock == 0;
    assert !Has(0, LOCK_START);
    RunIsExact(s0, steps, false);
  }

  /** Stopping a timer does not unlock it: `lluv_timer_stop` sets the lock it should clear. */
  lemma StoppedTimerStaysPinned(s: Sys, self: Ref)
    requires Reachable(s) && Enabled(s, TimerStop(true, self))
    ensures var s' := Next(s, TimerStop(true, self)); !s'.active && Has(s'.m.lock, LOCK_START) && Pinned(s')
  {
    ReachableHolds(s);
    LockKeeps(s.m, LOCK_START, self);
  }

  /** A handle that was just created. */
  function Beginning(kind: Kind): (s: Sys)
    ensures Init(s)
  {
    var m := Created(map[]);
    Sys(kind, true, m, map[], [], true, false, false, false, false, false, true, false, false)
  }

  lemma StartOnCreated(slot: nat, bit: bv8)
    requires slot < 3 && IsLock(bit)
    ensures var m := Start(Created(map[]), slot, bit, true, 1, 2);
            m.open && m.lock == bit && m.cbs == NO_CALLBACKS.Set(slot, 1) && m.reg.Keys == {1, 2}
  {
    var m := SetCallback(Created(map[]), slot, 1);
    assert m.reg == map[1 := CallbackSlot(slot)] && m.self == NOREF && m.lock | bit == bit;
    assert Start(Created(map[]), slot, bit, true, 1, 2) == Lock(m, bit, 2);
  }

  predicate IsFirstStart(step: Step) {
    step == TimerStart(true, 1, 2) || step == StartRead(true, 1, 2) || step == Listen(true, 1, 2)
  }

  /** The lock of a start. */
  function BitOf(step: Step): bv8 {
    if step.Listen? then LOCK_CONNECTION else LOCK_START
  }

  /** The handle after a first start. */
  lemma FirstStart(step: Step)
    requires IsFirstStart(step)
    ensures var s := Next(Beginning(if step.TimerStart? then Timer else Stream), step);
            && Reachable(s) && Callable(s) && !s.closing && s.reqs == map[] && s.active == !step.Listen?
            && s.kind == (if step.TimerStart? then Timer else Stream)
            && s.m.cbs == NO_CALLBACKS.Set(SlotOf(step), 1) && s.m.lock == BitOf(step)
            && s.m.reg.Keys == {1, 2}
  {
    var s0 := Beginning(if step.TimerStart? then Timer else Stream);
    hide Start, Init, Reachable, Enabled, NextMemory, IsLock;
    InitIsReachable(s0);
    FirstStartEnabled(s0, step);
    ReachableNext(s0, step);
  }

  lemma FirstStartEnabled(s: Sys, step: Step)
    requires IsFirstStart(step)
    requires s == Beginning(if step.TimerStart? then Timer else Stream)
    ensures Enabled(s, step)
    ensures var m := NextMemory(s, step);
            m.open && m.lock == BitOf(step) && m.cbs == NO_CALLBACKS.Set(SlotOf(step), 1) && m.reg.Keys == {1, 2}
  {
    StartOnCreated(SlotOf(step), BitOf(step));
    assert NextMemory(s, step) == Start(Created(map[]), SlotOf(step), BitOf(step), true, 1, 2);
    hide Start, NextMemory;
  }

  /** So a timer that does not run, and that nobody locked by hand, is pinned in some reachable state. */
  lemma StaleIsReachable()
    ensures exists s: Sys ::
              && Reachable(s) && s.kind.Timer? && !s.active && !s.closing
              && s.m.lock == LOCK_START && Pinned(s)
  {
    FirstStart(TimerStart(true, 1, 2));
    var s := Next(Beginning(Timer), TimerStart(true, 1, 2));
    var stop := TimerStop(true, 3);
    assert 3 !in s.m.reg.Keys;
    assert Enabled(s, stop);
    StoppedTimerStaysPinned(s, 3);
    assert Next(s, stop).m.lock == LOCK_START | LOCK_START == LOCK_START;
    assert Next(s, stop).kind.Timer? && !Next(s, stop).closing;
    hide Reachable, Enabled, Next, Pinned;
    ReachableNext(s, stop);
  }
}

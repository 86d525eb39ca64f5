/** The life of a request, as the trace of the C functions tells it: every step that writes to the trace
    moves a request along one of a few possible lives. */
module HandleLives {
  import opened HandleMemory
  import opened HandleSystem

  /** How far a request has come. */
  datatype Phase =
    | Unmade
    | Alive(cb: bool)
    | Over(cb: bool)
    | AwaitsReport
    | ErrorReturned
    | CalledBack
    | ReportedLater
    | Impossible

  function Advance(p: Phase, e: Event): Phase {
    match e
    case Made(_, cb) => if p.Unmade? then Alive(cb) else Impossible
    case Freed(_) => if p.Alive? then Over(p.cb) else Impossible
    case Queued(_) => if p == Over(true) then AwaitsReport else Impossible
    case Refused(_) => if p == Over(false) then ErrorReturned else Impossible
    case Called(_) =>
      if p == Over(true) then CalledBack else if p.AwaitsReport? then ReportedLater else Impossible
  }

  function PhaseOf(trace: seq<Event>, id: nat): Phase
    decreases |trace|
  {
    if trace == [] then Unmade
    else
      var p, e := PhaseOf(trace[..|trace| - 1], id), trace[|trace| - 1];
      if e.id == id then Advance(p, e) else p
  }

  /** The one life that leads to a phase. */
  function LifeTo(p: Phase, id: nat): seq<Event> {
    match p
    case Unmade => []
    case Alive(cb) => [Made(id, cb)]
    case Over(cb) => [Made(id, cb), Freed(id)]
    case AwaitsReport => [Made(id, true), Freed(id), Queued(id)]
    case ErrorReturned => [Made(id, false), Freed(id), Refused(id)]
    case CalledBack => [Made(id, true), Freed(id), Called(id)]
    case ReportedLater => [Made(id, true), Freed(id), Queued(id), Called(id)]
    case Impossible => []
  }

  lemma AdvanceLife(p: Phase, e: Event)
    requires !Advance(p, e).Impossible?
    ensures LifeTo(Advance(p, e), e.id) == LifeTo(p, e.id) + [e]
  {
  }

  lemma {:induction false} LifeIsPhase(trace: seq<Event>, id: nat)
    ensures !PhaseOf(trace, id).Impossible? ==> Life(trace, id) == LifeTo(PhaseOf(trace, id), id)
    ensures Life(trace, id) == [] ==> PhaseOf(trace, id) == Unmade
    decreases |trace|
  {
    if trace != [] {
      var n := |trace| - 1;
      LifeIsPhase(trace[..n], id);
      if trace[n].id == id && !PhaseOf(trace, id).Impossible? {
        AdvanceLife(PhaseOf(trace[..n], id), trace[n]);
      }
    }
  }

  lemma PhasePush(trace: seq<Event>, e: Event, id: nat)
    ensures PhaseOf(trace + [e], id) == if e.id == id then Advance(PhaseOf(trace, id), e) else PhaseOf(trace, id)
  {
    assert (trace + [e])[..|trace|] == trace;
  }

  /** Nothing possible follows something impossible. */
  lemma {:induction false} PrefixIsPossible(trace: seq<Event>, i: nat, id: nat)
    requires i <= |trace| && !PhaseOf(trace, id).Impossible?
    ensures !PhaseOf(trace[..i], id).Impossible?
    decreases |trace|
  {
    if i < |trace| {
      var n := |trace| - 1;
      PrefixIsPossible(trace[..n], i, id);
      assert trace[..n][..i] == trace[..i];
    } else {
      assert trace[..i] == trace;
    }
  }

  lemma {:induction false} LifeIsPart(trace: seq<Event>, id: nat, e: Event)
    requires e in Life(trace, id)
    ensures e in trace
    decreases |trace|
  {
    var n := |trace| - 1;
    if e in Life(trace[..n], id) {
      LifeIsPart(trace[..n], id, e);
    }
  }

  lemma {:induction false} PartIsLife(trace: seq<Event>, e: Event)
    requires e in trace
    ensures e in Life(trace, e.id)
    decreases |trace|
  {
    var n := |trace| - 1;
    if e != trace[n] {
      assert trace == trace[..n] + [trace[n]];
      PartIsLife(trace[..n], e);
    }
  }

  // ----- What each step writes -----

  function Written(s: Sys, step: Step): seq<Event> {
    match step
    case Send(ok, id, q, _) =>
      if ok then [Made(id, q.cb > 0)]
      else [Made(id, q.cb > 0), Freed(id), if q.cb > 0 then Queued(id) else Refused(id)]
    case Complete(id) =>
      if id !in s.reqs then []
      else if s.m.open && s.reqs[id].cb > 0 then [Freed(id), Called(id)]
      else [Freed(id)]
    case RunDeferred =>
      if s.deferred != [] && s.deferred[0].RequestFailed? then [Called(s.deferred[0].id)] else []
    case _ => []
  }

  lemma LockTrace(m: Memory, bit: bv8, r: Ref)
    ensures Lock(m, bit, r).trace == m.trace && Lock(m, bit, r).called == m.called
  {
  }

  lemma UnrefTrace(m: Memory, r: Ref)
    ensures Unref(m, r).trace == m.trace && Unref(m, r).called == m.called
  {
  }

  lemma UnlockTrace(m: Memory, bit: bv8)
    ensures Unlock(m, bit).trace == m.trace && Unlock(m, bit).called == m.called
  {
    hide Has, UnlockAsserts, UnlockedMask, UnlockedCounter, Unref;
    var m1 := Assert(m, UnlockAsserts(m, bit)).(lock := UnlockedMask(m, bit), counter := UnlockedCounter(m, bit));
    UnrefTrace(m1, m1.self);
  }

  lemma DropTrace(m: Memory, q: Request)
    ensures DropRefs(m, q).trace == m.trace && DropRefs(m, q).called == m.called
  {
    hide Unref;
    UnrefTrace(m, q.cb);
    UnrefTrace(Unref(m, q.cb), q.arg);
    UnrefTrace(Unref(Unref(m, q.cb), q.arg), q.ctx);
  }

  lemma HoldTrace(m: Memory, id: nat, q: Request)
    ensures HoldRefs(m, id, q).trace == m.trace && HoldRefs(m, id, q).called == m.called
  {
    var m1 := if q.cb > 0 then MakeRef(m, q.cb, RequestCb(id)) else m;
    assert m1.trace == m.trace && m1.called == m.called;
    var m2 := if q.arg > 0 then MakeRef(m1, q.arg, RequestArg(id)) else m1;
    assert m2.trace == m.trace && m2.called == m.called;
  }

  lemma NewTrace(m: Memory, id: nat, q: Request, self: Ref)
    ensures RequestNew(m, id, q, self).trace == m.trace + [Made(id, q.cb > 0)]
    ensures RequestNew(m, id, q, self).called == m.called
  {
    hide Lock, HoldRefs;
    HoldTrace(m, id, q);
    LockTrace(HoldRefs(m, id, q), LOCK_REQ, self);
  }

  lemma FreeTrace(m: Memory, id: nat, q: Request)
    ensures RequestFree(m, id, q).trace == m.trace + [Freed(id)] && RequestFree(m, id, q).called == m.called
  {
    hide Unlock, DropRefs;
    DropTrace(m, q);
    UnlockTrace(DropRefs(m, q), LOCK_REQ);
  }

  lemma SendTrace(s: Sys, step: Step)
    requires step.Send?
    ensures NextMemory(s, step).trace == s.m.trace + Written(s, step)
  {
    hide RequestNew, RequestFree;
    var m1 := RequestNew(s.m, step.id, step.q, step.self);
    NewTrace(s.m, step.id, step.q, step.self);
    FreeTrace(m1, step.id, step.q);
  }

  lemma CompleteTrace(s: Sys, step: Step)
    requires step.Complete?
    ensures NextMemory(s, step).trace == s.m.trace + Written(s, step)
  {
    hide RequestFree;
    if step.id in s.reqs {
      FreeTrace(s.m, step.id, s.reqs[step.id]);
    }
  }

  lemma StartTrace(m: Memory, slot: nat, bit: bv8, ok: bool, cb: Ref, self: Ref)
    requires slot < 3
    ensures Start(m, slot, bit, ok, cb, self).trace == m.trace && Start(m, slot, bit, ok, cb, self).called == m.called
  {
    hide Lock;
    LockTrace(SetCallback(m, slot, cb), bit, self);
  }

  lemma ReadTrace(m: Memory, ok: bool)
    ensures StoppedRead(m, ok).trace == m.trace && ReadDone(m, ok).trace == m.trace
    ensures StoppedRead(m, ok).called == m.called
    ensures ReadDone(m, ok).called == if m.open then m.called + [Call(READ_CB, m.cbs.start)] else m.called
  {
    hide Unlock;
    UnlockTrace(m, LOCK_READ);
    UnlockTrace(UnsetCallback(Assert(m, m.cbs.start != NOREF), READ_CB), LOCK_READ);
  }

  lemma CloseTrace(m: Memory, cb: Ref, self: Ref)
    ensures Closing(m, cb, self).trace == m.trace && Closed(m).trace == m.trace
    ensures Closing(m, cb, self).called == m.called
    ensures Closed(m).called
         == if m.open && m.cbs.close != NOREF then m.called + [Call(CLOSE_CB, m.cbs.close)] else m.called
  {
    hide Lock, Cleanup;
    LockTrace(m, LOCK_CLOSE, self);
    CleanupTrace(m);
  }

  lemma UnsetTrace(m: Memory, i: nat)
    requires i < 3
    ensures UnsetCallback(m, i).trace == m.trace && UnsetCallback(m, i).called == m.called
  {
  }

  lemma CleanupTrace(m: Memory)
    ensures Cleanup(m).trace == m.trace && Cleanup(m).called == m.called
  {
    hide UnsetCallback, Unref;
    var m0 := m.(open := false);
    UnsetTrace(m0, 0);
    var m1 := UnsetCallback(m0, 0);
    UnsetTrace(m1, 1);
    var m2 := UnsetCallback(m1, 1);
    UnsetTrace(m2, 2);
    var m3 := UnsetCallback(m2, 2);
    UnrefTrace(m3, m3.self);
  }

  /** What a step does to requests is what it writes, and only requests made, completed or reported
      write anything. */
  lemma TraceWritten(s: Sys, step: Step)
    ensures NextMemory(s, step).trace == s.m.trace + Written(s, step)
  {
    if step.Send? {
      SendTrace(s, step);
    } else if step.Complete? {
      CompleteTrace(s, step);
    } else if !step.RunDeferred? {
      QuietTrace(s, step);
    }
  }

  lemma QuietTrace(s: Sys, step: Step)
    requires !step.Send? && !step.Complete? && !step.RunDeferred?
    ensures NextMemory(s, step).trace == s.m.trace == s.m.trace + Written(s, step)
  {
    hide Start, Lock, Unlock, StoppedRead, ReadDone, Closing, Closed;
    match step
    case TimerStart(ok, cb, self) => StartTrace(s.m, START_CB, LOCK_START, ok, cb, self);
    case TimerStop(_, self) => LockTrace(s.m, LOCK_START, self);
    case TimerAgain(_, _, self) => LockTrace(s.m, LOCK_START, self);
    case TimerFire(_) => UnlockTrace(s.m, LOCK_START);
    case StartRead(ok, cb, self) => StartTrace(s.m, READ_CB, LOCK_READ, ok, cb, self);
    case StopRead(ok) => ReadTrace(s.m, ok);
    case ReadCallback(failed) => ReadTrace(s.m, failed);
    case Listen(ok, cb, self) => StartTrace(s.m, CONNECTION_CB, LOCK_CONNECTION, ok, cb, self);
    case ManualLock(self) => LockTrace(s.m, LOCK_MANUAL, self);
    case ManualUnlock => UnlockTrace(s.m, LOCK_MANUAL);
    case Close(cb, self) => CloseTrace(s.m, cb, self);
    case CloseCallback => CloseTrace(s.m, NOREF, NOREF);
    case Finalize(self) => CloseTrace(s.m, NOREF, self);
    case _ =>
  }

  // ----- The invariant of lives -----

  /** The deferred errors of request `id`. */
  function Waiting(queue: seq<Deferred>, id: nat): nat {
    if queue == [] then 0
    else (if queue[0] == RequestFailed(id) then 1 else 0) + Waiting(queue[1..], id)
  }

  lemma {:induction false} WaitingAppend(queue: seq<Deferred>, d: Deferred, id: nat)
    ensures Waiting(queue + [d], id) == Waiting(queue, id) + if d == RequestFailed(id) then 1 else 0
    decreases |queue|
  {
    if queue != [] {
      assert (queue + [d])[1..] == queue[1..] + [d];
      WaitingAppend(queue[1..], d, id);
    } else {
      assert [d][1..] == [];
    }
  }

  /** A request is alive exactly as long as it is a live `lluv_req_t`; a phase that awaits a report has it
      in the defer queue; only a closed handle drops a callback. */
  predicate Fits(p: Phase, live: bool, cb: bool, waiting: nat, mayDrop: bool) {
    && !p.Impossible?
    && (live <==> p.Alive?) && (live ==> p.cb == cb)
    && waiting == (if p.AwaitsReport? then 1 else 0)
    && (p == Over(true) ==> mayDrop)
  }

  predicate HasCallback(reqs: map<nat, Request>, id: nat) {
    id in reqs && reqs[id].cb > 0
  }

  ghost predicate LivesAt(s: Sys, id: nat) {
    Fits(PhaseOf(s.m.trace, id), id in s.reqs, HasCallback(s.reqs, id), Waiting(s.deferred, id), s.closed && !s.polite)
  }

  ghost predicate Lives(s: Sys) {
    forall id: nat :: LivesAt(s, id)
  }

  /** What lives need to know about an enabled step. */
  ghost predicate Telling(s: Sys, step: Step) {
    && (step.RunDeferred? ==> s.deferred != [])
    && (step.Send? ==> Life(s.m.trace, step.id) == [])
    && (step.Complete? ==> step.id in s.reqs && (!s.m.open ==> s.closed && !s.polite))
  }

  lemma EnabledIsTelling(s: Sys, step: Step)
    requires LifeInv(s) && Enabled(s, step)
    ensures Telling(s, step)
  {
  }

  /** The request that a step writes about, if it is `id`. */
  predicate Concerns(s: Sys, step: Step, id: nat) {
    || ((step.Send? || step.Complete?) && step.id == id)
    || (step.RunDeferred? && s.deferred != [] && s.deferred[0] == RequestFailed(id))
  }

  /** The lives after a step, in the parts of the next state they look at. */
  ghost predicate NextLivesAt(s: Sys, step: Step, id: nat) {
    var reqs := NextRequests(s, step);
    Fits(PhaseOf(s.m.trace + Written(s, step), id), id in reqs, HasCallback(reqs, id),
         Waiting(NextDeferred(s, step), id), s.closed && !s.polite)
  }

  lemma SendLives(s: Sys, step: Step)
    requires Telling(s, step) && step.Send? && LivesAt(s, step.id)
    ensures NextLivesAt(s, step, step.id)
  {
    var id, cb := step.id, step.q.cb > 0;
    var t1 := s.m.trace + [Made(id, cb)];
    LifeIsPhase(s.m.trace, id);
    PhasePush(s.m.trace, Made(id, cb), id);
    if !step.ok {
      var last := if cb then Queued(id) else Refused(id);
      PhasePush(t1, Freed(id), id);
      PhasePush(t1 + [Freed(id)], last, id);
      assert s.m.trace + Written(s, step) == t1 + [Freed(id)] + [last];
      WaitingAppend(s.deferred, RequestFailed(id), id);
    }
  }

  lemma CompleteLives(s: Sys, step: Step)
    requires Telling(s, step) && step.Complete? && LivesAt(s, step.id)
    ensures NextLivesAt(s, step, step.id)
  {
    var id := step.id;
    PhasePush(s.m.trace, Freed(id), id);
    if s.m.open && s.reqs[id].cb > 0 {
      PhasePush(s.m.trace + [Freed(id)], Called(id), id);
      assert s.m.trace + Written(s, step) == s.m.trace + [Freed(id)] + [Called(id)];
    }
  }

  lemma ReportLives(s: Sys, step: Step, id: nat)
    requires Telling(s, step) && step.RunDeferred? && s.deferred[0] == RequestFailed(id) && LivesAt(s, id)
    ensures NextLivesAt(s, step, id)
  {
    PhasePush(s.m.trace, Called(id), id);
  }

  /** A step leaves the lives of other requests alone. */
  lemma OtherLives(s: Sys, step: Step, id: nat)
    requires Telling(s, step) && !Concerns(s, step, id) && LivesAt(s, id)
    ensures NextLivesAt(s, step, id)
  {
    OtherPhase(s.m.trace, Written(s, step), id);
    if step.Send? {
      WaitingAppend(s.deferred, RequestFailed(step.id), id);
    } else if StartFails(step) {
      WaitingAppend(s.deferred, StartFailed(SlotOf(step), step.cb), id);
    }
    hide Fits, PhaseOf;
  }

  lemma {:induction false} OtherPhase(trace: seq<Event>, w: seq<Event>, id: nat)
    requires forall e :: e in w ==> e.id != id
    ensures PhaseOf(trace + w, id) == PhaseOf(trace, id)
    decreases |w|
  {
    if w == [] {
      assert trace + w == trace;
    } else {
      var n := |w| - 1;
      OtherPhase(trace, w[..n], id);
      PhasePush(trace + w[..n], w[n], id);
      assert trace + w == trace + w[..n] + [w[n]];
    }
  }

  lemma LivesStep(s: Sys, step: Step, id: nat)
    requires Telling(s, step) && LivesAt(s, id)
    ensures NextLivesAt(s, step, id)
  {
    if !Concerns(s, step, id) {
      OtherLives(s, step, id);
    } else if step.Send? {
      SendLives(s, step);
    } else if step.Complete? {
      CompleteLives(s, step);
    } else {
      ReportLives(s, step, id);
    }
  }

  lemma NextLivesIsLives(s: Sys, step: Step, m: Memory, id: nat)
    requires NextLivesAt(s, step, id) && m.trace == s.m.trace + Written(s, step)
    ensures LivesAt(With(s, step, m), id)
  {
    hide PhaseOf, Waiting, NextRequests, NextDeferred;
  }

  lemma LivesHold(s: Sys, step: Step)
    requires LifeInv(s) && Lives(s) && Enabled(s, step)
    ensures Lives(Next(s, step))
  {
    EnabledIsTelling(s, step);
    TraceWritten(s, step);
    forall id: nat
      ensures LivesAt(With(s, step, NextMemory(s, step)), id)
    {
      assert LivesAt(s, id);
      LivesStep(s, step, id);
      NextLivesIsLives(s, step, NextMemory(s, step), id);
    }
  }
}

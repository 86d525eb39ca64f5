/** The C objects behind the handle system: the registry, `lluv_handle_t` and `lluv_req_t`, with the
    functions of lluv_handle.c, lluv_timer.c, lluv_stream.c and lluv_req.c that change them. What libuv
    answers is a parameter: an error code below zero is a failure. */
module HandleObjects {
  import M = HandleMemory
  import opened HandleMemory

  /** The registry table with `luaL_ref` and `luaL_unref`. */
  class Registry {
    var refs: map<Ref, Slot>
    var next: Ref

    ghost predicate Valid()
      reads this
    {
      next > 0 && forall r :: r in refs ==> r < next
    }

    /** `luaL_ref`. Lua may reuse a released number; callers only learn that it is not in use. */
    method MakeRef(slot: Slot) returns (r: Ref)
      requires Valid()
      modifies this
      ensures Valid()
      ensures r > 0 && r !in old(refs) && refs == old(refs)[r := slot]
    {
      r := next;
      next := next + 1;
      refs := refs[r := slot];
    }

    /** `luaL_unref`. */
    method Unref(r: Ref)
      requires Valid() && (r < 0 || r in refs)
      modifies this
      ensures Valid()
      ensures refs == if r < 0 then old(refs) else old(refs) - {r}
    {
      if r >= 0 {
        refs := refs - {r};
      }
    }

    /** Some number that `luaL_ref` could return now. */
    ghost function Unused(): (r: Ref)
      reads this
      requires Valid()
      ensures r > 0 && r !in refs
    {
      next
    }
  }

  class Handle {
    const registry: Registry
    const callbacks: array<Ref>
    var self: Ref
    var lock: bv8
    var lockCounter: int
    var open: bool
    /** What was done to requests on this handle. */
    ghost var trace: seq<Event>
    /** Which callbacks of this handle were called. */
    ghost var called: seq<Call>

    ghost function View(): Memory
      reads this, registry, callbacks
      requires callbacks.Length == 3
    {
      var cbs := Callbacks(callbacks[0], callbacks[1], callbacks[2]);
      Memory(registry.refs, self, lock, lockCounter, open, cbs, trace, called, false)
    }

    ghost predicate Valid()
      reads this, registry, callbacks
    {
      callbacks.Length == 3 && registry.Valid() && Sound(View())
    }

    /** `lluv_handle_create`. */
    constructor (registry: Registry)
      requires registry.Valid()
      ensures Valid() && fresh(callbacks) && this.registry == registry
      ensures View() == Created(registry.refs)
    {
      this.registry := registry;
      callbacks := new Ref[3](_ => NOREF);
      self, lock, lockCounter, open, trace, called := NOREF, 0, 0, true, [], [];
      new;
      assert !Has(0, LOCK_REQ);
    }

    /** `lluv_handle_lock`. */
    method Lock(bit: bv8) returns (ghost r: Ref)
      requires Valid() && open && IsLock(bit)
      modifies this`self, this`lock, this`lockCounter, registry
      ensures Valid()
      ensures Fresh(old(View()), r) && View() == M.Lock(old(View()), bit, r)
    {
      ghost var m := View();
      r := registry.Unused();
      lock := lock | bit;
      if Has(bit, LOCK_REQ) {
        lockCounter := lockCounter + 1;
      }
      if self != NOREF {
        LockKeeps(m, bit, r);
        assert View() == M.Lock(m, bit, r);
        return;
      }
      self := registry.MakeRef(SelfSlot);
      r := self;
      LockKeeps(m, bit, r);
      assert View() == M.Lock(m, bit, r);
    }

    /** `lluv_handle_unlock`, with its assertions. */
    method Unlock(bit: bv8)
      requires Valid() && IsLock(bit) && (bit == LOCK_REQ ==> (open ==> lockCounter > 0))
      modifies this`self, this`lock, this`lockCounter, registry
      ensures Valid()
      ensures View() == M.Unlock(old(View()), bit)
    {
      hide KeepsRequests, AgreeBut, Sound, M.Unlock, UnlockedMask, UnlockedCounter;
      ghost var m := View();
      UnlockKeeps(m, bit);
      UnlockCases(m, bit);
      if self == NOREF {
        assert lock == 0;
        return;
      }
      assert lock != 0;
      if Has(bit, LOCK_REQ) {
        assert bit == LOCK_REQ;
        assert lockCounter > 0;
        lockCounter := lockCounter - 1;
        if lockCounter == 0 {
          lock := lock & !bit;
        }
      } else {
        lock := lock & !bit;
      }
      assert lock == UnlockedMask(m, bit) && lockCounter == UnlockedCounter(m, bit);
      if lock == 0 {
        registry.Unref(self);
        self := NOREF;
      }
    }

    /** Records what happens to a request. */
    ghost method Note(e: Event)
      requires Valid()
      modifies this`trace
      ensures Valid() && View() == M.Note(old(View()), e)
    {
      trace := trace + [e];
    }

    /** `LLUV_HANDLE_CALL_CB`: records which callback is called. */
    ghost method NoteCall(slot: nat, cb: Ref)
      requires Valid()
      modifies this`called
      ensures Valid() && View() == M.NoteCall(old(View()), slot, cb)
    {
      called := called + [Call(slot, cb)];
    }

    /** `CALLBACK(handle) = luaL_ref(...)`. */
    method SetCallback(i: nat) returns (ghost r: Ref)
      requires Valid() && open && i < 3
      modifies callbacks, registry
      ensures Valid()
      ensures Fresh(old(View()), r) && View() == M.SetCallback(old(View()), i, r)
    {
      var cb := registry.MakeRef(CallbackSlot(i));
      r := cb;
      SetCallbackKeeps(View().(reg := old(registry.refs)), i, cb);
      callbacks[i] := cb;
    }

    method UnsetCallback(i: nat)
      requires Valid() && open && i < 3
      modifies callbacks, registry
      ensures Valid()
      ensures View() == M.UnsetCallback(old(View()), i)
    {
      UnsetCallbackKeeps(View(), i);
      assert Owns(registry.refs, callbacks[i], CallbackSlot(i));
      registry.Unref(callbacks[i]);
      callbacks[i] := NOREF;
    }

    /** `lluv_handle_cleanup`. */
    method Cleanup()
      requires Valid() && open
      modifies this, callbacks, registry
      ensures Valid()
      ensures View() == M.Cleanup(old(View()))
    {
      CleanupKeeps(View());
      UnsetCallback(0);
      UnsetCallback(1);
      UnsetCallback(2);
      registry.Unref(self);
      self := NOREF;
      lock := 0;
      open := false;
    }

    /** `lluv_timer_start`, `lluv_stream_start_read` and `lluv_stream_listen`. */
    method Start(slot: nat, bit: bv8, err: int) returns (ghost cb: Ref, ghost r: Ref)
      requires Valid() && open && slot < 3 && IsLock(bit)
      modifies this`self, this`lock, this`lockCounter, callbacks, registry
      ensures Valid()
      ensures Fresh(old(View()), cb) && Fresh(old(View()), r) && cb != r
      ensures View() == M.Start(old(View()), slot, bit, err >= 0, cb, r)
    {
      cb := SetCallback(slot);
      r := registry.Unused();
      if err >= 0 {
        r := Lock(bit);
      }
    }

    method TimerStart(err: int) returns (ghost cb: Ref, ghost r: Ref)
      requires Valid() && open
      modifies this`self, this`lock, this`lockCounter, callbacks, registry
      ensures Valid()
      ensures Fresh(old(View()), cb) && Fresh(old(View()), r) && cb != r
      ensures View() == M.Start(old(View()), START_CB, LOCK_START, err >= 0, cb, r)
    {
      cb, r := Start(START_CB, LOCK_START, err);
    }

    /** `lluv_timer_stop` takes the lock, as `lluv_timer_again` does. */
    method TimerStop(err: int) returns (ghost r: Ref)
      requires Valid() && open
      modifies this`self, this`lock, this`lockCounter, registry
      ensures Valid()
      ensures Fresh(old(View()), r) && View() == LockIf(old(View()), err >= 0, r)
    {
      r := registry.Unused();
      if err < 0 {
        return;
      }
      r := Lock(LOCK_START);
    }

    method TimerAgain(err: int) returns (ghost r: Ref)
      requires Valid() && open
      modifies this`self, this`lock, this`lockCounter, registry
      ensures Valid()
      ensures Fresh(old(View()), r) && View() == LockIf(old(View()), err >= 0, r)
    {
      r := registry.Unused();
      if err < 0 {
        return;
      }
      r := Lock(LOCK_START);
    }

    /** `lluv_on_timer_start`: returns the reference of the Lua callback it calls. */
    method OnTimer(active: bool) returns (cb: Ref)
      requires Valid() && open && callbacks[START_CB] != NOREF
      modifies this`self, this`lock, this`lockCounter, this`called, registry
      ensures Valid()
      ensures View() == TimerFired(old(View()), active)
      ensures called == old(called) + [Call(START_CB, cb)]
      ensures cb == callbacks[START_CB] && cb in registry.refs && registry.refs[cb] == CallbackSlot(START_CB)
    {
      if !active {
        UnlockKeeps(View(), LOCK_START);
        Unlock(LOCK_START);
      }
      cb := callbacks[START_CB];
      assert cb != NOREF;
      NoteCall(START_CB, cb);
    }

    method StartRead(err: int) returns (ghost cb: Ref, ghost r: Ref)
      requires Valid() && open
      modifies this`self, this`lock, this`lockCounter, callbacks, registry
      ensures Valid()
      ensures Fresh(old(View()), cb) && Fresh(old(View()), r) && cb != r
      ensures View() == M.Start(old(View()), READ_CB, LOCK_READ, err >= 0, cb, r)
    {
      cb, r := Start(READ_CB, LOCK_READ, err);
    }

    /** `lluv_stream_stop_read`. */
    method StopRead(err: int)
      requires Valid() && open
      modifies this`self, this`lock, this`lockCounter, callbacks, registry
      ensures Valid()
      ensures View() == StoppedRead(old(View()), err >= 0)
    {
      if err < 0 {
        return;
      }
      if callbacks[READ_CB] != NOREF {
        Unlock(LOCK_READ);
        UnsetCallback(READ_CB);
      }
    }

    /** `lluv_on_stream_read_cb`: returns whether the Lua callback is called, and the reference it had; an
        error releases the reference before the call. */
    method OnRead(nread: int) returns (calls: bool, cb: Ref)
      requires Valid() && (open ==> callbacks[READ_CB] != NOREF)
      modifies this`self, this`lock, this`lockCounter, this`called, callbacks, registry
      ensures Valid()
      ensures View() == ReadDone(old(View()), nread < 0) && calls == open
      ensures calls ==> cb == old(callbacks[READ_CB]) && called == old(called) + [Call(READ_CB, cb)]
    {
      if !open {
        return false, NOREF;
      }
      cb := callbacks[READ_CB];
      assert cb != NOREF;
      if nread < 0 {
        UnsetCallback(READ_CB);
        Unlock(LOCK_READ);
      }
      NoteCall(READ_CB, cb);
      calls := true;
    }

    /** `lluv_stream_listen`. */
    method Listen(err: int) returns (ghost cb: Ref, ghost r: Ref)
      requires Valid() && open
      modifies this`self, this`lock, this`lockCounter, callbacks, registry
      ensures Valid()
      ensures Fresh(old(View()), cb) && Fresh(old(View()), r) && cb != r
      ensures View() == M.Start(old(View()), CONNECTION_CB, LOCK_CONNECTION, err >= 0, cb, r)
    {
      cb, r := Start(CONNECTION_CB, LOCK_CONNECTION, err);
    }

    /** `lluv_on_stream_connection_cb`: returns whether the Lua callback is called, and its reference. */
    method OnConnection() returns (calls: bool, cb: Ref)
      requires Valid() && (open ==> callbacks[CONNECTION_CB] != NOREF)
      modifies this`called
      ensures Valid()
      ensures View() == Connected(old(View())) && calls == open
      ensures calls ==>
                && cb == callbacks[CONNECTION_CB] && cb in registry.refs
                && registry.refs[cb] == CallbackSlot(CONNECTION_CB)
                && called == old(called) + [Call(CONNECTION_CB, cb)]
    {
      if !open {
        return false, NOREF;
      }
      cb := callbacks[CONNECTION_CB];
      assert cb != NOREF;
      NoteCall(CONNECTION_CB, cb);
      calls := true;
    }

    /** `lluv_handle_close` and `__gc`: returns whether `uv_close` was called. */
    method Close(isClosing: bool, hasCallback: bool) returns (closes: bool, ghost cb: Ref, ghost r: Ref)
      requires Valid()
      modifies this`self, this`lock, this`lockCounter, callbacks, registry
      ensures Valid()
      ensures closes <==> open && !isClosing
      ensures !closes ==> View() == old(View())
      ensures closes ==>
                && Fresh(old(View()), r) && (if hasCallback then Fresh(old(View()), cb) && cb != r else cb == NOREF)
                && View() == Closing(old(View()), cb, r)
      ensures closes && hasCallback ==>
                && callbacks[CLOSE_CB] == cb > 0 && cb in registry.refs && registry.refs[cb] == CallbackSlot(CLOSE_CB)
    {
      cb, r := NOREF, registry.Unused();
      if !open {
        return false, cb, r;
      }
      if isClosing {
        return false, cb, r;
      }
      r := Lock(LOCK_CLOSE);
      closes := true;
      if hasCallback {
        cb := SetCallback(CLOSE_CB);
        if old(self) != NOREF {
          r := registry.Unused();
        }
      }
    }

    /** `lluv_on_handle_close`: returns the reference of the Lua callback it calls, NOREF if none was given;
        the reference is released before the call. */
    method OnClose() returns (cb: Ref)
      requires Valid()
      modifies this, callbacks, registry
      ensures Valid()
      ensures View() == Closed(old(View()))
      ensures cb == if old(open) then old(callbacks[CLOSE_CB]) else NOREF
      ensures called == old(called) + if cb == NOREF then [] else [Call(CLOSE_CB, cb)]
    {
      if !open {
        return NOREF;
      }
      hide Sound, M.Cleanup;
      cb := callbacks[CLOSE_CB];
      Cleanup();
      if cb != NOREF {
        NoteCall(CLOSE_CB, cb);
      }
    }
  }

  /** What the assertions and branches of unlock look at. */
  lemma UnlockCases(m: Memory, bit: bv8)
    requires Sound(m) && IsLock(bit) && (bit == LOCK_REQ ==> (m.open ==> m.counter > 0))
    ensures m.self == NOREF ==> m.lock == 0 && M.Unlock(m, bit) == m
    ensures m.self != NOREF ==>
              && m.open && m.lock != 0 && m.self in m.reg && m.self > 0
              && M.Unlock(m, bit) == Relock(m, UnlockedMask(m, bit), UnlockedCounter(m, bit))
              && (Has(bit, LOCK_REQ) ==> bit == LOCK_REQ && m.counter > 0)
              && UnlockedMask(m, bit) == (if Has(bit, LOCK_REQ) && m.counter != 1 then m.lock else m.lock & !bit)
              && UnlockedCounter(m, bit) == (if Has(bit, LOCK_REQ) then m.counter - 1 else m.counter)
  {
    if m.self != NOREF {
      UnlockedMaskIs(m, bit);
    }
  }

  /** `lluv_req_t`; `id` only tells requests apart. */
  class Req {
    const handle: Handle
    const id: nat
    const cb: Ref
    var arg: Ref
    var ctx: Ref

    ghost function Refs(): Request
      reads this
    {
      Request(cb, arg, ctx)
    }

    /** The assignments of `lluv_req_new`. */
    constructor (handle: Handle, id: nat, cb: Ref)
      ensures this.handle == handle && this.id == id && this.cb == cb && arg == NOREF && ctx == NOREF
    {
      this.handle, this.id, this.cb, arg, ctx := handle, id, cb, NOREF, NOREF;
    }

    /** `lluv_req_free`. */
    method Free()
      requires handle.Valid() && OwnsRequest(handle.registry.refs, id, Refs())
      requires handle.open ==> handle.lockCounter > 0
      modifies handle`self, handle`lock, handle`lockCounter, handle`trace, handle.registry
      ensures handle.Valid() && handle.open == old(handle.open)
      ensures handle.View() == RequestFree(old(handle.View()), id, Refs())
      ensures handle.trace == old(handle.trace) + [Freed(id)]
    {
      Drop();
      handle.Unlock(LOCK_REQ);
      handle.Note(Freed(id));
    }

    /** The three `luaL_unref` of `lluv_req_free`. */
    method Drop()
      requires handle.Valid() && OwnsRequest(handle.registry.refs, id, Refs())
      modifies handle.registry
      ensures handle.Valid()
      ensures handle.View() == DropRefs(old(handle.View()), Refs())
    {
      UnrefOf(handle, cb, RequestCb(id));
      UnrefOf(handle, arg, RequestArg(id));
      UnrefOf(handle, ctx, RequestCtx(id));
    }
  }

  /** `luaL_unref` for a reference of a request. */
  method UnrefOf(handle: Handle, r: Ref, ghost slot: Slot)
    requires handle.Valid() && Owns(handle.registry.refs, r, slot) && !slot.OfHandle()
    modifies handle.registry
    ensures handle.Valid() && handle.View() == M.Unref(old(handle.View()), r)
    ensures forall x :: x in old(handle.registry.refs) && old(handle.registry.refs)[x] != slot ==>
                          x in handle.registry.refs && handle.registry.refs[x] == old(handle.registry.refs)[x]
  {
    UnrefKeeps(handle.View(), r, slot);
    handle.registry.Unref(r);
  }

  /** `luaL_ref` for a reference of a request, if one is wanted. */
  method RefIf(handle: Handle, wanted: bool, none: Ref, slot: Slot) returns (r: Ref)
    requires handle.Valid() && none < 0 && !slot.OfHandle()
    modifies handle.registry
    ensures handle.Valid()
    ensures if wanted then Fresh(old(handle.View()), r) else r == none
    ensures handle.View() == Referred(old(handle.View()), r, slot)
  {
    r := none;
    ghost var m := handle.View();
    if wanted {
      r := handle.registry.MakeRef(slot);
      MakeRefKeeps(m, r, slot);
    }
  }

  function Referred(m: Memory, r: Ref, slot: Slot): Memory {
    if r > 0 then M.MakeRef(m, r, slot) else m
  }

  /** `lluv_req_new`. */
  method ReqNew(handle: Handle, id: nat, cb: Ref) returns (req: Req, ghost r: Ref)
    requires handle.Valid() && handle.open
    modifies handle`self, handle`lock, handle`lockCounter, handle.registry
    ensures handle.Valid() && fresh(req) && req.handle == handle && req.id == id
    ensures req.Refs() == Request(cb, NOREF, NOREF)
    ensures Fresh(old(handle.View()), r) && handle.View() == M.Lock(old(handle.View()), LOCK_REQ, r)
  {
    req := new Req(handle, id, cb);
    r := handle.Lock(LOCK_REQ);
  }

  /** The part of `lluv_stream_write_` before it asks libuv: a reference for the context if there is one,
      `lluv_req_new` with the callback or nil, and a reference for the data. */
  method NewRequest(handle: Handle, id: nat, hasCallback: bool, hasContext: bool)
    returns (req: Req, ghost r: Ref)
    requires handle.Valid() && handle.open
    modifies handle`self, handle`lock, handle`lockCounter, handle`trace, handle.registry
    ensures handle.Valid() && fresh(req) && req.handle == handle && req.id == id
    ensures req.cb > 0 <==> hasCallback
    ensures req.ctx > 0 <==> hasContext
    ensures req.arg > 0
    ensures FreshRequest(old(handle.View()), req.Refs(), r)
    ensures handle.View() == RequestNew(old(handle.View()), id, req.Refs(), r)
    ensures OwnsRequest(handle.registry.refs, id, req.Refs())
  {
    hide M.Lock, RequestNew, Sound, FreshRequest, OwnsRequest;
    ghost var m := handle.View();
    ghost var locked;
    var ctx := RefIf(handle, hasContext, NOREF, RequestCtx(id));
    var cb := RefIf(handle, hasCallback, REFNIL, RequestCb(id));
    req, locked := ReqNew(handle, id, cb);
    var arg := RefIf(handle, true, NOREF, RequestArg(id));
    req.arg, req.ctx := arg, ctx;
    r := if m.self == NOREF then locked else handle.registry.Unused();
    assert MadeInOrder(m, id, req.Refs(), locked, r);
    Requested(m, id, req.Refs(), locked, r);
    handle.Note(Made(id, cb > 0));
  }

  /** `lluv_return_req`: a refused request is freed; its error goes to the defer queue if it has a
      callback, and to the caller if not. */
  method ReturnReq(req: Req, err: int) returns (deferred: bool, refused: bool)
    requires err < 0 ==> req.handle.Valid() && OwnsRequest(req.handle.registry.refs, req.id, req.Refs())
    requires err < 0 && req.handle.open ==> req.handle.lockCounter > 0
    modifies req.handle`self, req.handle`lock, req.handle`lockCounter, req.handle`trace, req.handle.registry
    ensures deferred <==> err < 0 && req.cb > 0
    ensures refused <==> err < 0 && req.cb <= 0
    ensures err < 0 ==>
              && old(req.handle.Valid()) && req.handle.Valid()
              && req.handle.View() == Answered(old(req.handle.View()), req.id, old(req.Refs()), false)
    ensures err >= 0 ==>
              unchanged(req.handle`self, req.handle`lock, req.handle`lockCounter, req.handle`trace, req.handle.registry)
  {
    if err >= 0 {
      return false, false;
    }
    req.Free();
    deferred, refused := req.cb > 0, req.cb <= 0;
    req.handle.Note(if deferred then Queued(req.id) else Refused(req.id));
  }

  /** `lluv_on_stream_req_cb` and `lluv_on_stream_write_cb`: returns whether the Lua callback is called,
      which is after the request has been freed. */
  method OnRequest(req: Req) returns (called: bool)
    requires req.handle.Valid() && OwnsRequest(req.handle.registry.refs, req.id, req.Refs())
    requires req.handle.open ==> req.handle.lockCounter > 0
    modifies req.handle`self, req.handle`lock, req.handle`lockCounter, req.handle`trace, req.handle.registry
    ensures req.handle.Valid() && req.handle.open == old(req.handle.open)
    ensures req.handle.View() == Completed(old(req.handle.View()), req.id, old(req.Refs()))
    ensures req.handle.trace == old(req.handle.trace) + (if called then [Freed(req.id), Called(req.id)] else [Freed(req.id)])
    ensures called <==> req.handle.open && req.cb > 0
  {
    hide RequestFree, Sound, OwnsRequest;
    if !req.handle.open {
      req.Free();
      return false;
    }
    req.Free();
    called := req.cb > 0;
    if called {
      req.handle.Note(Called(req.id));
    }
  }

  lemma Requested(m: Memory, id: nat, q: Request, locked: Ref, r: Ref)
    requires Sound(m) && m.open && MadeInOrder(m, id, q, locked, r)
    ensures var m3 := M.Lock(Referred(Referred(m, q.ctx, RequestCtx(id)), q.cb, RequestCb(id)), LOCK_REQ, locked);
            M.Note(Referred(m3, q.arg, RequestArg(id)), Made(id, q.cb > 0)) == RequestNew(m, id, q, r)
    ensures FreshRequest(m, q, r) && OwnsRequest(RequestNew(m, id, q, r).reg, id, q)
  {
    MadeInOrderIsFresh(m, id, q, locked, r);
    OrderOfRefs(m, id, q, locked, r);
    RequestNewKeeps(m, id, q, r);
  }

  lemma ReferredSwap(m: Memory, a: Ref, s: Slot, b: Ref, t: Slot)
    requires a > 0 && b > 0 ==> a != b
    ensures Referred(Referred(m, a, s), b, t) == Referred(Referred(m, b, t), a, s)
  {
    assert Referred(Referred(m, a, s), b, t).reg == Referred(Referred(m, b, t), a, s).reg;
  }

  lemma ReferredLocked(m: Memory, a: Ref, s: Slot, lock: bv8, counter: int, locked: Ref, r: Ref)
    requires m.self == NOREF ==> a != locked == r
    ensures Referred(Locked(m, lock, counter, locked), a, s) == Locked(Referred(m, a, s), lock, counter, r)
  {
    if a > 0 && m.self == NOREF {
      assert m.reg[r := SelfSlot][a := s] == m.reg[a := s][r := SelfSlot];
    }
  }

  lemma ReferredKeepsLock(m: Memory, a: Ref, s: Slot)
    ensures Referred(m, a, s).lock == m.lock && Referred(m, a, s).counter == m.counter
  {
  }

  lemma ReferredLock(m: Memory, a: Ref, s: Slot, bit: bv8, locked: Ref, r: Ref)
    requires m.self == NOREF ==> a != locked == r
    ensures Referred(M.Lock(m, bit, locked), a, s) == M.Lock(Referred(m, a, s), bit, r)
  {
    hide Locked, Referred, Has;
    ReferredKeepsLock(m, a, s);
    ReferredLocked(m, a, s, m.lock | bit, if Has(bit, LOCK_REQ) then m.counter + 1 else m.counter, locked, r);
  }

  /** Each reference is new when it is made. */
  ghost predicate MadeInOrder(m: Memory, id: nat, q: Request, locked: Ref, r: Ref) {
    var m1 := Referred(m, q.ctx, RequestCtx(id));
    var m2 := Referred(m1, q.cb, RequestCb(id));
    var m3 := M.Lock(m2, LOCK_REQ, locked);
    && FreshOrNone(m, q.ctx) && FreshOrNone(m1, q.cb) && Fresh(m2, locked) && Fresh(m3, q.arg)
    && if m.self == NOREF then r == locked else Fresh(Referred(m3, q.arg, RequestArg(id)), r)
  }

  lemma MadeInOrderIsFresh(m: Memory, id: nat, q: Request, locked: Ref, r: Ref)
    requires MadeInOrder(m, id, q, locked, r)
    ensures FreshRequest(m, q, r) && (m.self == NOREF ==> q.arg != locked == r)
  {
  }

  /** The references of a request may be made in any order; and any unused number could have been offered
      for `self` when `self` was there already. */
  lemma OrderOfRefs(m: Memory, id: nat, q: Request, locked: Ref, r: Ref)
    requires MadeInOrder(m, id, q, locked, r)
    ensures var m3 := M.Lock(Referred(Referred(m, q.ctx, RequestCtx(id)), q.cb, RequestCb(id)), LOCK_REQ, locked);
            M.Note(Referred(m3, q.arg, RequestArg(id)), Made(id, q.cb > 0)) == RequestNew(m, id, q, r)
  {
    MadeInOrderIsFresh(m, id, q, locked, r);
    var m2 := Referred(Referred(m, q.ctx, RequestCtx(id)), q.cb, RequestCb(id));
    assert m2.self == m.self;
    OrderOfLock(m, id, q, m2, locked, r);
  }

  lemma OrderOfLock(m: Memory, id: nat, q: Request, m2: Memory, locked: Ref, r: Ref)
    requires FreshRequest(m, q, r) && (m2.self == NOREF ==> q.arg != locked == r)
    requires m2 == Referred(Referred(m, q.ctx, RequestCtx(id)), q.cb, RequestCb(id))
    ensures var end := Referred(M.Lock(m2, LOCK_REQ, locked), q.arg, RequestArg(id));
            M.Note(end, Made(id, q.cb > 0)) == RequestNew(m, id, q, r)
  {
    hide Locked, Has, Referred, M.Lock;
    ReferredLock(m2, q.arg, RequestArg(id), LOCK_REQ, locked, r);
    ReferredSwap(m, q.ctx, RequestCtx(id), q.cb, RequestCb(id));
    ReferredSwap(Referred(m, q.cb, RequestCb(id)), q.ctx, RequestCtx(id), q.arg, RequestArg(id));
    HeldInTurn(m, id, q);
  }

  lemma HeldInTurn(m: Memory, id: nat, q: Request)
    ensures HoldRefs(m, id, q)
         == Referred(Referred(Referred(m, q.cb, RequestCb(id)), q.arg, RequestArg(id)), q.ctx, RequestCtx(id))
  {
  }
}

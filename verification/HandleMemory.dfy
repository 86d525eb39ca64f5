/** The lock mask, the request counter, the callback slots and the registry reference `self` of a handle
    (lluv_handle.c), as functions of the handle's memory and the registry of live references. */
module HandleMemory {

  /** A registry reference; `luaL_ref` makes positive ones. */
  type Ref = int

  const NOREF: Ref := -2
  const REFNIL: Ref := -1

  /** What a live reference was made for; OtherSlot stands for everything that is not this handle's. */
  datatype Slot =
    | SelfSlot
    | CallbackSlot(i: nat)
    | RequestCb(id: nat)
    | RequestArg(id: nat)
    | RequestCtx(id: nat)
    | OtherSlot
  {
    predicate OfHandle() { SelfSlot? || CallbackSlot? }

    predicate OfRequest(r: nat) { (RequestCb? || RequestArg? || RequestCtx?) && id == r }
  }

  // ----- The lock mask -----

  const LOCK_CLOSE: bv8 := 1
  const LOCK_START: bv8 := 2
  const LOCK_READ: bv8 := 2
  const LOCK_CONNECTION: bv8 := 4
  const LOCK_MANUAL: bv8 := 8
  const LOCK_REQ: bv8 := 128

  const CLOSE_CB: nat := 0
  const START_CB: nat := 1
  const READ_CB: nat := 1
  const CONNECTION_CB: nat := 2

  predicate Has(mask: bv8, bit: bv8) {
    mask & bit != 0
  }

  predicate IsLock(bit: bv8) {
    bit == LOCK_CLOSE || bit == LOCK_START || bit == LOCK_CONNECTION || bit == LOCK_MANUAL || bit == LOCK_REQ
  }

  /** The two masks agree on every lock but `bit`. */
  predicate AgreeBut(a: bv8, b: bv8, bit: bv8) {
    && (bit != LOCK_CLOSE ==> (Has(a, LOCK_CLOSE) <==> Has(b, LOCK_CLOSE)))
    && (bit != LOCK_START ==> (Has(a, LOCK_START) <==> Has(b, LOCK_START)))
    && (bit != LOCK_CONNECTION ==> (Has(a, LOCK_CONNECTION) <==> Has(b, LOCK_CONNECTION)))
    && (bit != LOCK_MANUAL ==> (Has(a, LOCK_MANUAL) <==> Has(b, LOCK_MANUAL)))
    && (bit != LOCK_REQ ==> (Has(a, LOCK_REQ) <==> Has(b, LOCK_REQ)))
  }

  lemma ClearBit(mask: bv8, bit: bv8)
    requires IsLock(bit)
    ensures !Has(mask & !bit, bit) && AgreeBut(mask & !bit, mask, bit)
  {
  }

  // ----- The memory of one handle -----

  /** The three callback slots, numbered as in the source. */
  datatype Callbacks = Callbacks(close: Ref, start: Ref, connection: Ref) {
    function Get(i: nat): Ref {
      if i == CLOSE_CB then close else if i == START_CB then start else connection
    }

    function Set(i: nat, r: Ref): Callbacks {
      if i == CLOSE_CB then this.(close := r) else if i == START_CB then this.(start := r) else this.(connection := r)
    }
  }

  const NO_CALLBACKS: Callbacks := Callbacks(NOREF, NOREF, NOREF)

  /** What the C functions do to requests, noted where they do it: `lluv_req_new` made a request, with a
      callback or without; `lluv_req_free` freed it; its error went to the defer queue; its error went to
      the caller; its Lua callback was called. */
  datatype Event =
    | Made(id: nat, withCallback: bool)
    | Freed(id: nat)
    | Queued(id: nat)
    | Refused(id: nat)
    | Called(id: nat)

  /** A Lua callback of the handle was called: the slot it was given for, and its reference. */
  datatype Call = Call(slot: nat, cb: Ref)

  /** `trace` records what was done to requests, `called` which callbacks of the handle were called, `fault`
      that a C assertion failed or that a dead reference was released. */
  datatype Memory = Memory(
    reg: map<Ref, Slot>,
    self: Ref,
    lock: bv8,
    counter: int,
    open: bool,
    cbs: Callbacks,
    trace: seq<Event>,
    called: seq<Call>,
    fault: bool)

  function Note(m: Memory, e: Event): Memory {
    m.(trace := m.trace + [e])
  }

  function NoteCall(m: Memory, slot: nat, cb: Ref): Memory {
    m.(called := m.called + [Call(slot, cb)])
  }

  function Assert(m: Memory, ok: bool): Memory {
    if ok then m else m.(fault := true)
  }

  predicate Fresh(m: Memory, r: Ref) {
    r > 0 && r !in m.reg
  }

  function MakeRef(m: Memory, r: Ref, slot: Slot): Memory {
    m.(reg := m.reg[r := slot])
  }

  /** `luaL_unref`: NOREF and REFNIL are ignored. */
  function Unref(m: Memory, r: Ref): Memory {
    if r < 0 then m
    else if r in m.reg then m.(reg := m.reg - {r})
    else m.(fault := true)
  }

  /** Storing a non-empty mask and a counter; `self` is made if there is none. */
  function Locked(m: Memory, lock: bv8, counter: int, r: Ref): Memory {
    var m1 := m.(lock := lock, counter := counter);
    if m1.self != NOREF then m1 else MakeRef(m1, r, SelfSlot).(self := r)
  }

  /** `lluv_handle_lock`; `r` is the reference `luaL_ref` returns if `self` is not set. */
  function Lock(m: Memory, bit: bv8, r: Ref): Memory {
    Locked(m, m.lock | bit, if Has(bit, LOCK_REQ) then m.counter + 1 else m.counter, r)
  }

  /** The assertions of `lluv_handle_unlock`. */
  predicate UnlockAsserts(m: Memory, bit: bv8) {
    if m.self == NOREF then m.lock == 0
    else m.lock != 0 && (Has(bit, LOCK_REQ) ==> bit == LOCK_REQ && m.counter > 0)
  }

  function UnlockedCounter(m: Memory, bit: bv8): int {
    if Has(bit, LOCK_REQ) then m.counter - 1 else m.counter
  }

  /** A request lock is cleared only with the last request. */
  function UnlockedMask(m: Memory, bit: bv8): bv8 {
    if Has(bit, LOCK_REQ) && m.counter != 1 then m.lock else m.lock & !bit
  }

  /** Storing a mask and a counter; `self` is given up when the mask is empty. */
  function Relock(m: Memory, lock: bv8, counter: int): Memory {
    var m1 := m.(lock := lock, counter := counter);
    if lock == 0 then Unref(m1, m1.self).(self := NOREF) else m1
  }

  /** `lluv_handle_unlock`. */
  function Unlock(m: Memory, bit: bv8): Memory {
    var m1 := Assert(m, UnlockAsserts(m, bit));
    if m.self == NOREF then m1 else Relock(m1, UnlockedMask(m, bit), UnlockedCounter(m, bit))
  }

  /** The slot is overwritten without releasing the reference it held. */
  function SetCallback(m: Memory, i: nat, r: Ref): Memory
    requires i < 3
  {
    MakeRef(m, r, CallbackSlot(i)).(cbs := m.cbs.Set(i, r))
  }

  function UnsetCallback(m: Memory, i: nat): Memory
    requires i < 3
  {
    Unref(m, m.cbs.Get(i)).(cbs := m.cbs.Set(i, NOREF))
  }

  /** `lluv_handle_create`. */
  function Created(reg: map<Ref, Slot>): Memory {
    Memory(reg, NOREF, 0, 0, true, NO_CALLBACKS, [], [], false)
  }

  /** `lluv_handle_cleanup`: the request counter is not reset. */
  function Cleanup(m: Memory): Memory
  {
    var m3 := UnsetCallback(UnsetCallback(UnsetCallback(m.(open := false), 0), 1), 2);
    Unref(m3, m3.self).(self := NOREF, lock := 0)
  }

  // ----- The operations of timers, streams and requests -----

  /** `lluv_timer_start`, `lluv_stream_start_read` and `lluv_stream_listen`: store the callback, ask
      libuv, and lock only if libuv agreed. */
  function Start(m: Memory, slot: nat, bit: bv8, ok: bool, cb: Ref, self: Ref): Memory
    requires slot < 3
  {
    var m1 := SetCallback(m, slot, cb);
    if ok then Lock(m1, bit, self) else m1
  }

  /** `lluv_timer_stop` and `lluv_timer_again`: both lock. */
  function LockIf(m: Memory, ok: bool, self: Ref): Memory {
    if ok then Lock(m, LOCK_START, self) else m
  }

  /** `lluv_on_timer_start`: `active` is what libuv says about the timer when it fires. */
  function TimerFired(m: Memory, active: bool): Memory
  {
    var m1 := if active then m else Unlock(m, LOCK_START);
    NoteCall(Assert(m1, m1.cbs.start != NOREF), START_CB, m1.cbs.start)
  }

  /** `lluv_stream_stop_read`. */
  function StoppedRead(m: Memory, ok: bool): Memory
  {
    if ok && m.cbs.start != NOREF then UnsetCallback(Unlock(m, LOCK_READ), READ_CB) else m
  }

  /** `lluv_on_stream_read_cb`. */
  function ReadDone(m: Memory, failed: bool): Memory
  {
    if !m.open then m
    else
      var m1 := Assert(m, m.cbs.start != NOREF);
      NoteCall(if failed then Unlock(UnsetCallback(m1, READ_CB), LOCK_READ) else m1, READ_CB, m.cbs.start)
  }

  /** `lluv_on_stream_connection_cb`. */
  function Connected(m: Memory): Memory {
    if m.open then NoteCall(Assert(m, m.cbs.connection != NOREF), CONNECTION_CB, m.cbs.connection) else m
  }

  /** `lluv_handle_close` on an open handle that is not closing; `cb` is NOREF without a callback. */
  function Closing(m: Memory, cb: Ref, self: Ref): Memory
  {
    var m1 := Lock(m, LOCK_CLOSE, self);
    if cb == NOREF then m1 else SetCallback(m1, CLOSE_CB, cb)
  }

  /** `lluv_on_handle_close`: the callback is called after the cleanup. */
  function Closed(m: Memory): Memory
  {
    if !m.open then m
    else if m.cbs.close == NOREF then Cleanup(m)
    else NoteCall(Cleanup(m), CLOSE_CB, m.cbs.close)
  }

  datatype Request = Request(cb: Ref, arg: Ref, ctx: Ref)

  /** The references `lluv_req_new`, `lluv_req_ref` and `lluv_req_ref_ctx` make for request `id`. */
  function HoldRefs(m: Memory, id: nat, q: Request): Memory {
    var m1 := if q.cb > 0 then MakeRef(m, q.cb, RequestCb(id)) else m;
    var m2 := if q.arg > 0 then MakeRef(m1, q.arg, RequestArg(id)) else m1;
    if q.ctx > 0 then MakeRef(m2, q.ctx, RequestCtx(id)) else m2
  }

  function RequestNew(m: Memory, id: nat, q: Request, self: Ref): Memory {
    Note(Lock(HoldRefs(m, id, q), LOCK_REQ, self), Made(id, q.cb > 0))
  }

  function DropRefs(m: Memory, q: Request): Memory {
    Unref(Unref(Unref(m, q.cb), q.arg), q.ctx)
  }

  /** `lluv_req_free`. */
  function RequestFree(m: Memory, id: nat, q: Request): Memory {
    Note(Unlock(DropRefs(m, q), LOCK_REQ), Freed(id))
  }

  /** `lluv_on_stream_req_cb` and `lluv_on_stream_write_cb`. */
  function Completed(m: Memory, id: nat, q: Request): Memory {
    var m1 := RequestFree(m, id, q);
    if m.open && q.cb > 0 then Note(m1, Called(id)) else m1
  }

  /** `lluv_return_req`. */
  function Answered(m: Memory, id: nat, q: Request, ok: bool): Memory {
    if ok then m
    else
      var m1 := RequestFree(m, id, q);
      Note(m1, if q.cb > 0 then Queued(id) else Refused(id))
  }

  // ----- What every operation keeps -----

  /** Slot `slot` holds NOREF or a live reference made for it. */
  predicate Owns(reg: map<Ref, Slot>, r: Ref, slot: Slot) {
    r < 0 || (r in reg && reg[r] == slot)
  }

  predicate OwnsRequest(reg: map<Ref, Slot>, id: nat, q: Request) {
    Owns(reg, q.cb, RequestCb(id)) && Owns(reg, q.arg, RequestArg(id)) && Owns(reg, q.ctx, RequestCtx(id))
  }

  /** `self` is a live reference exactly when the mask is not empty; the REQ bit says whether the counter
      is positive; every slot holds a live reference of its own or none; nothing has gone wrong. */
  predicate Sound(m: Memory) {
    && !m.fault
    && (m.self == NOREF <==> m.lock == 0)
    && (m.self != NOREF ==> m.self > 0)
    && Owns(m.reg, m.self, SelfSlot)
    && (m.cbs.close == NOREF || m.cbs.close > 0) && Owns(m.reg, m.cbs.close, CallbackSlot(CLOSE_CB))
    && (m.cbs.start == NOREF || m.cbs.start > 0) && Owns(m.reg, m.cbs.start, CallbackSlot(START_CB))
    && (m.cbs.connection == NOREF || m.cbs.connection > 0)
    && Owns(m.reg, m.cbs.connection, CallbackSlot(CONNECTION_CB))
    && (m.open ==> m.counter >= 0 && (Has(m.lock, LOCK_REQ) <==> m.counter > 0))
    && (!m.open ==> m.lock == 0 && m.cbs == NO_CALLBACKS)
  }

  /** References of requests and of others are neither released nor made. */
  ghost predicate KeepsRequests(m: Memory, m': Memory) {
    && (forall r :: r in m.reg && !m.reg[r].OfHandle() ==> r in m'.reg && m'.reg[r] == m.reg[r])
    && (forall r :: r in m'.reg && !m'.reg[r].OfHandle() ==> r in m.reg && m.reg[r] == m'.reg[r])
  }

  ghost predicate KeepsOthers(m: Memory, m': Memory) {
    forall r :: r in m.reg && m.reg[r].OtherSlot? ==> r in m'.reg && m'.reg[r] == m.reg[r]
  }

  /** Only references of the handle and of request `id` are released or made. */
  ghost predicate KeepsBut(m: Memory, m': Memory, id: nat) {
    && (forall r :: r in m.reg && !m.reg[r].OfHandle() && !m.reg[r].OfRequest(id) ==> r in m'.reg && m'.reg[r] == m.reg[r])
    && (forall r :: r in m'.reg && !m'.reg[r].OfHandle() && !m'.reg[r].OfRequest(id) ==> r in m.reg && m.reg[r] == m'.reg[r])
  }

  /** `r` is not a live reference. */
  predicate Dead(reg: map<Ref, Slot>, r: Ref) {
    r > 0 ==> r !in reg
  }

  /** The references made for request `id` are those of `q`. */
  ghost predicate OnlyRefs(reg: map<Ref, Slot>, id: nat, q: Request) {
    && (forall r :: r in reg && reg[r] == RequestCb(id) ==> r == q.cb > 0)
    && (forall r :: r in reg && reg[r] == RequestArg(id) ==> r == q.arg > 0)
    && (forall r :: r in reg && reg[r] == RequestCtx(id) ==> r == q.ctx > 0)
  }

  ghost predicate NoRefs(reg: map<Ref, Slot>, id: nat) {
    forall r :: r in reg ==> !reg[r].OfRequest(id)
  }

  lemma LockedMask(mask: bv8, counter: int, bit: bv8)
    requires IsLock(bit) && counter >= 0 && (Has(mask, LOCK_REQ) <==> counter > 0)
    ensures mask | bit != 0 && Has(mask | bit, bit) && AgreeBut(mask | bit, mask, bit)
    ensures Has(bit, LOCK_REQ) <==> bit == LOCK_REQ
    ensures Has(mask | bit, LOCK_REQ) <==> counter + (if bit == LOCK_REQ then 1 else 0) > 0
  {
  }

  lemma LockedKeeps(m: Memory, lock: bv8, counter: int, r: Ref)
    requires Sound(m) && m.open && Fresh(m, r) && lock != 0
    requires counter >= 0 && (Has(lock, LOCK_REQ) <==> counter > 0)
    ensures var m' := Locked(m, lock, counter, r);
            && Sound(m') && m'.open && m'.cbs == m.cbs && KeepsRequests(m, m') && m'.self in m'.reg
            && m'.lock == lock && m'.counter == counter
  {
  }

  lemma LockKeeps(m: Memory, bit: bv8, r: Ref)
    requires Sound(m) && m.open && IsLock(bit) && Fresh(m, r)
    ensures var m' := Lock(m, bit, r);
            && Sound(m') && m'.open && m'.cbs == m.cbs && KeepsRequests(m, m')
            && Has(m'.lock, bit) && AgreeBut(m'.lock, m.lock, bit) && m'.self in m'.reg
            && m'.counter == m.counter + (if bit == LOCK_REQ then 1 else 0)
  {
    LockedMask(m.lock, m.counter, bit);
    LockIsLocked(m, bit, r, m.lock | bit, if bit == LOCK_REQ then m.counter + 1 else m.counter);
  }

  lemma LockIsLocked(m: Memory, bit: bv8, r: Ref, lock: bv8, counter: int)
    requires Sound(m) && m.open && Fresh(m, r) && lock == m.lock | bit && lock != 0
    requires Has(bit, LOCK_REQ) <==> bit == LOCK_REQ
    requires counter == if bit == LOCK_REQ then m.counter + 1 else m.counter
    requires counter >= 0 && (Has(lock, LOCK_REQ) <==> counter > 0)
    ensures var m' := Lock(m, bit, r);
            && Sound(m') && m'.open && m'.cbs == m.cbs && KeepsRequests(m, m') && m'.self in m'.reg
            && m'.lock == lock && m'.counter == counter
  {
    hide Has, Sound, Locked, KeepsRequests;
    LockedKeeps(m, lock, counter, r);
  }

  lemma RelockKeeps(m: Memory, lock: bv8, counter: int)
    requires Sound(m) && m.self != NOREF
    requires m.open ==> counter >= 0 && (Has(lock, LOCK_REQ) <==> counter > 0)
    requires m.open || lock == 0
    ensures var m' := Relock(m, lock, counter); Sound(m') && m'.cbs == m.cbs && KeepsRequests(m, m')
  {
  }

  lemma UnlockedMaskIs(m: Memory, bit: bv8)
    requires Sound(m) && m.open && m.self != NOREF && IsLock(bit)
    requires bit == LOCK_REQ ==> m.counter > 0
    ensures UnlockAsserts(m, bit)
    ensures UnlockedCounter(m, bit) == m.counter - (if bit == LOCK_REQ then 1 else 0)
    ensures AgreeBut(UnlockedMask(m, bit), m.lock, bit)
    ensures Has(UnlockedMask(m, bit), LOCK_REQ) <==> UnlockedCounter(m, bit) > 0
    ensures bit != LOCK_REQ ==> !Has(UnlockedMask(m, bit), bit)
  {
    assert Has(bit, LOCK_REQ) <==> bit == LOCK_REQ;
    ClearBit(m.lock, bit);
  }

  /** No unlock fails an assertion, and none clears another lock: in particular not CLOSE. */
  lemma UnlockKeeps(m: Memory, bit: bv8)
    requires Sound(m) && IsLock(bit)
    requires bit == LOCK_REQ ==> (m.open ==> m.counter > 0)
    ensures var m' := Unlock(m, bit);
            && Sound(m') && m'.open == m.open && m'.cbs == m.cbs && KeepsRequests(m, m')
            && AgreeBut(m'.lock, m.lock, bit)
            && m'.counter == m.counter - (if bit == LOCK_REQ && m.open then 1 else 0)
            && (bit != LOCK_REQ ==> !Has(m'.lock, bit))
  {
    if m.self == NOREF {
      assert !Has(0, bit) && !Has(0, LOCK_REQ);
    } else {
      UnlockedMaskIs(m, bit);
      RelockKeeps(m, UnlockedMask(m, bit), UnlockedCounter(m, bit));
    }
  }

  lemma SetCallbackKeeps(m: Memory, i: nat, r: Ref)
    requires Sound(m) && m.open && i < 3 && Fresh(m, r)
    ensures var m' := SetCallback(m, i, r);
            Sound(m') && m' == m.(cbs := m.cbs.Set(i, r), reg := m'.reg) && KeepsRequests(m, m')
  {
  }

  lemma UnsetCallbackKeeps(m: Memory, i: nat)
    requires Sound(m) && m.open && i < 3
    ensures var m' := UnsetCallback(m, i);
            && Sound(m') && m' == m.(cbs := m.cbs.Set(i, NOREF), reg := m'.reg) && KeepsRequests(m, m')
            && Dead(m'.reg, m.cbs.Get(i))
            && (forall x :: x in m'.reg ==> x in m.reg && m.reg[x] == m'.reg[x])
  {
    var r := m.cbs.Get(i);
    assert Owns(m.reg, r, CallbackSlot(i));
    if r > 0 {
      assert r != m.self;
      assert i != CLOSE_CB ==> r != m.cbs.close;
      assert i != START_CB ==> r != m.cbs.start;
      assert i != CONNECTION_CB ==> r != m.cbs.connection;
    }
  }

  lemma CleanupKeeps(m: Memory)
    requires Sound(m) && m.open
    ensures var m' := Cleanup(m);
            && Sound(m') && !m'.open && m'.cbs == NO_CALLBACKS && m'.self == NOREF
            && KeepsRequests(m, m')
            && Dead(m'.reg, m.self) && forall i: nat :: i < 3 ==> Dead(m'.reg, m.cbs.Get(i))
  {
    var m0 := UnsetCallback(m, 0);
    UnsetCallbackKeeps(m, 0);
    var m1 := UnsetCallback(m0, 1);
    UnsetCallbackKeeps(m0, 1);
    var m2 := UnsetCallback(m1, 2);
    UnsetCallbackKeeps(m1, 2);
    assert Cleanup(m) == Unref(m2, m2.self).(open := false, self := NOREF, lock := 0);
    assert m2.cbs == NO_CALLBACKS;
  }

  predicate FreshOrNone(m: Memory, r: Ref) {
    r < 0 || Fresh(m, r)
  }

  /** New references are pairwise different. */
  predicate FreshRequest(m: Memory, q: Request, self: Ref) {
    && FreshOrNone(m, q.cb) && FreshOrNone(m, q.arg) && FreshOrNone(m, q.ctx) && Fresh(m, self)
    && self != q.cb && self != q.arg && self != q.ctx
    && (q.cb > 0 ==> q.cb != q.arg && q.cb != q.ctx)
    && (q.arg > 0 ==> q.arg != q.ctx)
  }

  lemma MakeRefKeeps(m: Memory, r: Ref, slot: Slot)
    requires Sound(m) && FreshOrNone(m, r) && !slot.OfHandle()
    ensures var m' := if r > 0 then MakeRef(m, r, slot) else m;
            && Sound(m') && m' == m.(reg := m'.reg)
            && (forall x :: x in m.reg ==> x in m'.reg && m'.reg[x] == m.reg[x])
            && (forall x :: x in m'.reg ==> x in m.reg || (x == r && m'.reg[x] == slot))
            && Owns(m'.reg, r, slot)
  {
  }

  lemma HoldRefsKeeps(m: Memory, id: nat, q: Request, self: Ref)
    requires Sound(m) && FreshRequest(m, q, self)
    ensures var m' := HoldRefs(m, id, q);
            && Sound(m') && m' == m.(reg := m'.reg)
            && (forall r :: r in m.reg ==> r in m'.reg && m'.reg[r] == m.reg[r])
            && OwnsRequest(m'.reg, id, q) && Fresh(m', self)
  {
    MakeRefKeeps(m, q.cb, RequestCb(id));
    var m1 := if q.cb > 0 then MakeRef(m, q.cb, RequestCb(id)) else m;
    MakeRefKeeps(m1, q.arg, RequestArg(id));
    var m2 := if q.arg > 0 then MakeRef(m1, q.arg, RequestArg(id)) else m1;
    MakeRefKeeps(m2, q.ctx, RequestCtx(id));
  }

  /** At most one reference was made, `r` for `slot`. */
  ghost predicate Added(reg: map<Ref, Slot>, reg': map<Ref, Slot>, r: Ref, slot: Slot) {
    && (forall x :: x in reg ==> x in reg' && reg'[x] == reg[x])
    && (forall x :: x in reg' ==> (x in reg && reg[x] == reg'[x]) || (x == r > 0 && reg'[x] == slot))
  }

  lemma ThreeAdded(m: Memory, m1: Memory, m2: Memory, m3: Memory, id: nat, q: Request)
    requires Added(m.reg, m1.reg, q.cb, RequestCb(id))
    requires Added(m1.reg, m2.reg, q.arg, RequestArg(id))
    requires Added(m2.reg, m3.reg, q.ctx, RequestCtx(id))
    ensures KeepsBut(m, m3, id)
    ensures NoRefs(m.reg, id) ==> OnlyRefs(m3.reg, id, q)
  {
  }

  /** The references made for a request are its own. */
  lemma HoldRefsAdds(m: Memory, id: nat, q: Request, self: Ref)
    requires FreshRequest(m, q, self)
    ensures KeepsBut(m, HoldRefs(m, id, q), id)
    ensures NoRefs(m.reg, id) ==> OnlyRefs(HoldRefs(m, id, q).reg, id, q)
  {
    hide Added, KeepsBut, NoRefs, OnlyRefs;
    var m1 := if q.cb > 0 then MakeRef(m, q.cb, RequestCb(id)) else m;
    var m2 := if q.arg > 0 then MakeRef(m1, q.arg, RequestArg(id)) else m1;
    MakeRefAdds(m, q.cb, RequestCb(id));
    MakeRefAdds(m1, q.arg, RequestArg(id));
    MakeRefAdds(m2, q.ctx, RequestCtx(id));
    ThreeAdded(m, m1, m2, HoldRefs(m, id, q), id, q);
  }

  lemma MakeRefAdds(m: Memory, r: Ref, slot: Slot)
    requires FreshOrNone(m, r)
    ensures Added(m.reg, (if r > 0 then MakeRef(m, r, slot) else m).reg, r, slot)
  {
  }

  /** Where only references of the handle change, those of a request stay what they are. */
  lemma RefsStay(m: Memory, m': Memory, id: nat, q: Request)
    requires KeepsRequests(m, m')
    ensures OwnsRequest(m.reg, id, q) ==> OwnsRequest(m'.reg, id, q)
    ensures OnlyRefs(m.reg, id, q) ==> OnlyRefs(m'.reg, id, q)
    ensures NoRefs(m.reg, id) ==> NoRefs(m'.reg, id)
    ensures KeepsBut(m, m', id)
  {
  }

  lemma KeepsTwice(m: Memory, m1: Memory, m2: Memory, id: nat)
    requires KeepsBut(m, m1, id) && KeepsBut(m1, m2, id)
    ensures KeepsBut(m, m2, id)
  {
  }

  lemma RequestNewKeeps(m: Memory, id: nat, q: Request, self: Ref)
    requires Sound(m) && m.open && FreshRequest(m, q, self)
    ensures var m' := RequestNew(m, id, q, self);
            && Sound(m') && m'.open && m'.cbs == m.cbs && KeepsBut(m, m', id) && OwnsRequest(m'.reg, id, q)
            && (NoRefs(m.reg, id) ==> OnlyRefs(m'.reg, id, q))
            && Has(m'.lock, LOCK_REQ) && AgreeBut(m'.lock, m.lock, LOCK_REQ) && m'.counter == m.counter + 1
  {
    var m1 := HoldRefs(m, id, q);
    HoldRefsKeeps(m, id, q, self);
    HoldRefsAdds(m, id, q, self);
    LockKeeps(m1, LOCK_REQ, self);
    RefsStay(m1, Lock(m1, LOCK_REQ, self), id, q);
    KeepsTwice(m, m1, Lock(m1, LOCK_REQ, self), id);
  }

  lemma UnrefKeeps(m: Memory, r: Ref, slot: Slot)
    requires Sound(m) && Owns(m.reg, r, slot) && !slot.OfHandle()
    ensures var m' := Unref(m, r);
            && Sound(m') && m' == m.(reg := m'.reg) && Dead(m'.reg, r)
            && (forall x :: x in m'.reg ==> x in m.reg && m.reg[x] == m'.reg[x])
            && forall x :: x in m.reg && m.reg[x] != slot ==> x in m'.reg && m'.reg[x] == m.reg[x]
  {
  }

  lemma DropRefsKeeps(m: Memory, id: nat, q: Request)
    requires Sound(m) && OwnsRequest(m.reg, id, q)
    ensures var m' := DropRefs(m, q);
            && Sound(m') && m' == m.(reg := m'.reg) && KeepsBut(m, m', id)
            && (forall r :: r in m.reg && m.reg[r].OfHandle() ==> r in m'.reg && m'.reg[r] == m.reg[r])
            && (forall r :: r in m'.reg ==> r in m.reg && m.reg[r] == m'.reg[r])
            && Dead(m'.reg, q.cb) && Dead(m'.reg, q.arg) && Dead(m'.reg, q.ctx)
            && (OnlyRefs(m.reg, id, q) ==> NoRefs(m'.reg, id))
  {
    UnrefKeeps(m, q.cb, RequestCb(id));
    var m1 := Unref(m, q.cb);
    UnrefKeeps(m1, q.arg, RequestArg(id));
    var m2 := Unref(m1, q.arg);
    UnrefKeeps(m2, q.ctx, RequestCtx(id));
  }

  lemma RequestFreeKeeps(m: Memory, id: nat, q: Request)
    requires Sound(m) && OwnsRequest(m.reg, id, q) && (m.open ==> m.counter > 0)
    ensures var m' := RequestFree(m, id, q);
            && Sound(m') && m'.open == m.open && m'.cbs == m.cbs && KeepsBut(m, m', id)
            && AgreeBut(m'.lock, m.lock, LOCK_REQ)
            && m'.counter == m.counter - (if m.open then 1 else 0)
            && Dead(m'.reg, q.cb) && Dead(m'.reg, q.arg) && Dead(m'.reg, q.ctx)
            && (OnlyRefs(m.reg, id, q) ==> NoRefs(m'.reg, id))
  {
    var m1 := DropRefs(m, q);
    DropRefsKeeps(m, id, q);
    UnlockKeeps(m1, LOCK_REQ);
    RefsStay(m1, Unlock(m1, LOCK_REQ), id, q);
    KeepsTwice(m, m1, Unlock(m1, LOCK_REQ), id);
  }

  lemma StoppedReadKeeps(m: Memory, ok: bool)
    requires Sound(m) && m.open
    ensures var m' := StoppedRead(m, ok);
            && Sound(m') && m'.open && KeepsRequests(m, m') && m'.counter == m.counter
            && AgreeBut(m'.lock, m.lock, LOCK_READ) && (!ok ==> m' == m)
            && (ok ==> m'.cbs == m.cbs.Set(READ_CB, NOREF) && Dead(m'.reg, m.cbs.start))
            && (ok && m.cbs.start != NOREF ==> !Has(m'.lock, LOCK_READ))
            && (ok && m.cbs.start == NOREF ==> m' == m)
  {
    if ok && m.cbs.start != NOREF {
      UnlockKeeps(m, LOCK_READ);
      UnsetCallbackKeeps(Unlock(m, LOCK_READ), READ_CB);
    }
  }

  lemma ReadDoneKeeps(m: Memory, failed: bool)
    requires Sound(m) && m.open && m.cbs.start != NOREF
    ensures var m' := ReadDone(m, failed);
            && Sound(m') && m'.open && KeepsRequests(m, m') && m'.counter == m.counter
            && AgreeBut(m'.lock, m.lock, LOCK_READ) && (!failed ==> m' == NoteCall(m, READ_CB, m.cbs.start))
            && (failed ==> m'.cbs == m.cbs.Set(READ_CB, NOREF) && Dead(m'.reg, m.cbs.start) && !Has(m'.lock, LOCK_READ))
  {
    if failed {
      UnsetCallbackKeeps(m, READ_CB);
      UnlockKeeps(UnsetCallback(m, READ_CB), LOCK_READ);
    }
  }
}

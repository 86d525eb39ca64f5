/** `TcpSock:receive` of luasocket.lua: a coroutine that waits for bytes, and the callbacks of libuv that
    wake it. The socket is connected and reading; `send`, `interrupt`, `settimeout` and `close` are the
    other things that happen to it. */
module TcpSystem {
  import opened Wrappers
  import opened LuaStrings
  import opened ChunkLists
  import opened LineLaws
  import opened BufferOps

  /** The wait flags in use. */
  datatype Flag = READ | WRITE

  /** The errors a waiting coroutine is resumed with. */
  datatype Reason = Closed | TimedOut | Other(text: string)

  /** Where the coroutine stands: in its own code, suspended in `receive`, suspended in `send`. */
  datatype Co = Running | Receiving(asked: ReadPattern, prefix: Option<Bytes>) | Sending

  /** What `receive` returns: a message; everything up to the end of the stream; nil, an error and what
      was buffered; nil and an error; the caller's own prefix. */
  datatype Answer =
    | Message(asked: ReadPattern, prefix: Option<Bytes>, msg: Bytes)
    | Everything(all: Bytes)
    | Partial(err: Reason, rest: Bytes)
    | Nothing(err: Reason)
    | PrefixOnly(n: nat, given: Bytes)

  /** An answer and the bytes that left the buffer for it. */
  datatype Entry = Entry(answer: Answer, taken: Bytes)

  /** `ticking`: the timer runs. `closing`: a close callback is still to come. `dropped`: `close` was
      called. `delivered`, `log` and `calls` record the run. `fault`: an assertion failed, a nil field was
      called, or a coroutine was resumed that is not suspended. */
  datatype State = State(
    sock: bool,
    timer: bool,
    ticking: bool,
    timeout: bool,
    wait: set<Flag>,
    co: Co,
    buf: seq<Bytes>,
    closing: bool,
    dropped: bool,
    delivered: Bytes,
    log: seq<Entry>,
    calls: nat,
    fault: bool)

  datatype Event =
    | SetTimeout(on: bool)
    | Receive(asked: ReadPattern, prefix: Option<Bytes>)
    | Send
    | Deliver(data: Bytes)
    | TimerFires
    | ReadFails
    | WriteDone(failed: bool)
    | CloseDone
    | Interrupt(reason: Reason)
    | Close

  /** The terminator of the socket's buffer. */
  const EOL: Eol := CrStarLf

  function Given(prefix: Option<Bytes>): Bytes {
    if prefix.Some? then prefix.value else []
  }

  /** The caller's prefix counts towards a number of bytes. */
  predicate AlreadyThere(asked: ReadPattern, prefix: Option<Bytes>) {
    asked.Count? && prefix.Some? && asked.n <= |prefix.value|
  }

  function Wanted(asked: ReadPattern, prefix: Option<Bytes>): ReadPattern
    requires !AlreadyThere(asked, prefix)
  {
    if asked.Count? && prefix.Some? then Count(asked.n - |prefix.value|) else asked
  }

  // ----- The methods, on values -----

  function Start(s: State, flag: Flag): State {
    var s1 := if s.timeout then s.(ticking := true, fault := s.fault || !s.timer) else s;
    s1.(wait := s1.wait + {flag}, fault := s1.fault || s1.wait != {})
  }

  function Stop(s: State): State {
    s.(ticking := s.ticking && !s.timer, wait := {})
  }

  function Answered(s: State, answer: Answer, taken: Bytes, rest: seq<Bytes>): State {
    s.(co := Running, buf := rest, log := s.log + [Entry(answer, taken)])
  }

  /** One turn of the loop of `receive`. */
  ghost function TryRead(s: State): State
    requires s.co.Receiving? && !AlreadyThere(s.co.asked, s.co.prefix) && NoEmptyChunk(s.buf)
  {
    var pat := Wanted(s.co.asked, s.co.prefix);
    var (r, rest) := ReadAs(pat, EOL, s.buf);
    if r.None? then s.(buf := rest)
    else
      Answered(Stop(s), Message(s.co.asked, s.co.prefix, Given(s.co.prefix) + r.value), Taken(pat, EOL, s.buf), rest)
  }

  /** `receive` resumed with an error. */
  function GiveUp(s: State, err: Reason): State
    requires s.co.Receiving?
  {
    var all := Flatten(s.buf);
    if !s.co.asked.All? || err.TimedOut? then Answered(Stop(s), Partial(err, all), all, [])
    else if err.Closed? then Answered(Stop(s), Everything(all), all, [])
    else Answered(Stop(s), Nothing(err), [], s.buf)
  }

  ghost predicate CanResume(s: State) {
    NoEmptyChunk(s.buf) && (s.co.Receiving? ==> !AlreadyThere(s.co.asked, s.co.prefix))
  }

  /** `_resume(true)` when `err` is None, otherwise `_resume(nil, err)`. */
  ghost function Resume(s: State, err: Option<Reason>): State
    requires CanResume(s)
  {
    match s.co
    case Running => s.(fault := true)
    case Sending => Stop(s).(co := Running)
    case Receiving(asked, _) =>
      if err.Some? then GiveUp(s, err.value) else if asked.All? then s else TryRead(s)
  }

  /** `_on_io_error`. */
  function IoError(s: State): State {
    if !s.sock then s
    else s.(sock := false, timer := false, ticking := false, closing := true, fault := s.fault || !s.timer)
  }

  /** `receive`, up to its first yield or its return. */
  ghost function Received(s: State, asked: ReadPattern, prefix: Option<Bytes>): State
    requires NoEmptyChunk(s.buf)
  {
    if !s.sock then Answered(s, Nothing(Closed), [], s.buf)
    else if AlreadyThere(asked, prefix) then Answered(s, PrefixOnly(asked.n, prefix.value), [], s.buf)
    else Waited(s, asked, prefix)
  }

  ghost function Waited(s: State, asked: ReadPattern, prefix: Option<Bytes>): State
    requires NoEmptyChunk(s.buf) && !AlreadyThere(asked, prefix)
  {
    var s1 := Start(s, READ).(co := Receiving(asked, prefix));
    if asked.All? then s1 else TryRead(s1)
  }

  function Sent(s: State): State {
    if !s.sock then s else Start(s, WRITE).(co := Sending)
  }

  function Stored(s: State, data: Bytes): State {
    s.(buf := Appended(s.buf, data), delivered := s.delivered + data)
  }

  function Dropped(s: State): State {
    s.(sock := false, timer := false, ticking := s.ticking && !s.timer, dropped := s.dropped || s.sock)
  }

  // ----- The transition system -----

  /** The coroutine calls `receive` and `send` itself; libuv reads until the socket is closed, fires a
      timer that runs, completes the write the coroutine waits for, and calls the close callback once. */
  predicate Enabled(s: State, event: Event) {
    match event
    case Receive(_, _) => s.co.Running?
    case Send => s.co.Running?
    case Deliver(_) => s.sock
    case TimerFires => s.ticking
    case ReadFails => s.sock
    case WriteDone(_) => s.co.Sending?
    case CloseDone => s.closing
    case _ => true
  }

  ghost function Next(s: State, event: Event): State
    requires CanResume(s)
  {
    match event
    case SetTimeout(on) => s.(timeout := on)
    case Receive(asked, prefix) => Received(s.(calls := s.calls + 1), asked, prefix)
    case Send => Sent(s)
    case Deliver(data) =>
      AppendedBytes(s.buf, data);
      if READ in s.wait then Resume(Stored(s, data), None) else Stored(s, data)
    case TimerFires => Resume(s.(ticking := false), Some(TimedOut))
    case ReadFails => IoError(s)
    case WriteDone(failed) => if failed then IoError(s) else Resume(s, None)
    case CloseDone =>
      var s1 := s.(closing := false);
      if s.wait != {} then Resume(s1, Some(Closed)) else s1
    case Interrupt(reason) => if s.wait != {} then Resume(s, Some(reason)) else s
    case Close => Dropped(s)
  }

  predicate Init(s: State) {
    s == State(true, true, false, s.timeout, {}, Running, [], false, false, [], [], 0, false)
  }

  // ----- The invariant -----

  /** The flag that belongs to where the coroutine stands. */
  function Flags(co: Co): set<Flag> {
    match co
    case Running => {}
    case Receiving(_, _) => {READ}
    case Sending => {WRITE}
  }

  /** Nothing that a suspended `receive` waits for is in the buffer. */
  ghost predicate Blocked(co: Co, buf: seq<Bytes>)
    requires NoEmptyChunk(buf)
  {
    co.Receiving? ==>
      && !AlreadyThere(co.asked, co.prefix)
      && (co.asked.All? || ReadAs(Wanted(co.asked, co.prefix), EOL, buf).0 == None)
  }

  /** What an answer has to do with the bytes taken for it. A line without its prefix is what comes before
      the first terminator, and that terminator ends what was taken; a number of bytes is met exactly,
      counting the prefix. */
  ghost predicate Accounted(entry: Entry) {
    match entry.answer
    case Message(asked, prefix, msg) =>
      && Given(prefix) <= msg
      && var body := msg[|Given(prefix)|..];
      && (asked.Line? ==> body <= entry.taken && Find(EOL, entry.taken) == Some(Match(|body|, |entry.taken|)))
      && (asked.LineEol? ==>
            body == entry.taken && Find(EOL, body).Some? && Find(EOL, body).value.stop == |body|)
      && (asked.Count? ==> body == entry.taken && |msg| == asked.n)
      && (asked.NextChunk? ==> body == entry.taken != [])
    case Everything(all) => entry.taken == all
    case Partial(_, rest) => entry.taken == rest
    case Nothing(_) => entry.taken == []
    case PrefixOnly(n, given) => n <= |given| && entry.taken == []
  }

  function TakenOf(log: seq<Entry>): Bytes
    decreases |log|
  {
    if log == [] then [] else TakenOf(log[..|log| - 1]) + log[|log| - 1].taken
  }

  /** The bytes and the answers. */
  ghost predicate BytesInv(s: State) {
    && NoEmptyChunk(s.buf)
    && s.delivered == TakenOf(s.log) + Flatten(s.buf)
    && (forall i :: 0 <= i < |s.log| ==> Accounted(s.log[i]))
    && |s.log| + (if s.co.Receiving? then 1 else 0) == s.calls
  }

  /** The coroutine and who will wake it. */
  predicate WaitInv(s: State) {
    && !s.fault
    && (s.sock <==> s.timer)
    && s.wait == Flags(s.co)
    && (s.ticking ==> s.timer && s.wait != {})
    && (s.closing ==> !s.sock)
    && (!s.sock && !s.co.Running? ==> s.closing || s.dropped)
  }

  ghost predicate Inv(s: State) {
    WaitInv(s) && BytesInv(s) && Blocked(s.co, s.buf)
  }
}

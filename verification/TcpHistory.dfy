/** `TcpSock:receive` read off the events alone: which call an answer belongs to, what it was asked for, why it
    gave up, and whether the timer runs. Nothing here mentions the methods of the socket. */
module TcpHistory {
  import opened Wrappers
  import opened Seqs
  import opened LuaStrings
  import opened ChunkLists
  import LineLaws
  import opened BufferOps
  import opened TcpSystem
  import opened TcpTheorems

  /** A call of `receive`: its arguments, whether the socket was open, and the first error that woke the
      coroutine since. */
  datatype Ask = Ask(asked: ReadPattern, prefix: Option<Bytes>, open: bool, woken: Option<Reason>)

  /** What the events tell: the socket is open, `settimeout` is on, it was on when the last call began, an
      error ended the socket and its close callback is still to come, `close` ended the socket, the coroutine
      waits in `send`, and the calls of `receive`. */
  datatype History = History(
    open: bool,
    timeout: bool,
    armed: bool,
    closing: bool,
    dropped: bool,
    sending: bool,
    asks: seq<Ask>)

  function Beginning(timeout: bool): History {
    History(true, timeout, false, false, false, false, [])
  }

  function Mark(ask: Ask, reason: Reason): Ask {
    if ask.woken.None? then ask.(woken := Some(reason)) else ask
  }

  function MarkLast(asks: seq<Ask>, reason: Reason): seq<Ask> {
    if asks == [] then [] else asks[..|asks| - 1] + [Mark(asks[|asks| - 1], reason)]
  }

  function Woken(h: History, reason: Reason): History {
    h.(sending := false, asks := MarkLast(h.asks, reason))
  }

  function Ended(h: History): History {
    if h.open then h.(open := false, closing := true) else h
  }

  function After(h: History, event: Event): History {
    match event
    case SetTimeout(on) => h.(timeout := on)
    case Receive(asked, prefix) =>
      h.(armed := h.timeout, sending := false, asks := h.asks + [Ask(asked, prefix, h.open, None)])
    case Send => h.(armed := h.timeout, sending := h.open)
    case Deliver(_) => h
    case TimerFires => Woken(h, TimedOut)
    case ReadFails => Ended(h)
    case WriteDone(failed) => if failed then Ended(h) else h.(sending := false)
    case CloseDone => Woken(h.(closing := false), Closed)
    case Interrupt(reason) => Woken(h, reason)
    case Close => if h.open then h.(open := false, dropped := true) else h
  }

  function Told(h: History, events: seq<Event>): History
    decreases |events|
  {
    if events == [] then h else Told(After(h, events[0]), events[1..])
  }

  // ----- What an answer must be -----

  /** A message is the caller's prefix and what was read after it: a line up to the first terminator of the
      bytes taken, with or without it; the number of bytes asked for, the prefix counted in; some bytes. */
  ghost predicate MessageFits(asked: ReadPattern, prefix: Bytes, msg: Bytes, taken: Bytes) {
    && prefix <= msg
    && var body := msg[|prefix|..];
    && msg == prefix + body
    && match asked
       case Line => body <= taken && Find(CrStarLf, taken) == Some(Match(|body|, |taken|))
       case LineEol => body == taken && Find(CrStarLf, body).Some? && Find(CrStarLf, body).value.stop == |body|
       case Count(n) => body == taken && |msg| == n
       case NextChunk => body == taken != []
       case All => false
  }

  /** Why a call that found no message gave up, and with what. */
  predicate GaveUpFits(asked: ReadPattern, reason: Reason, entry: Entry) {
    if !asked.All? || reason.TimedOut? then entry.answer == Partial(reason, entry.taken)
    else if reason.Closed? then entry.answer == Everything(entry.taken)
    else entry.answer == Nothing(reason) && entry.taken == []
  }

  /** On a closed socket nil and "closed"; a count that the prefix meets already is answered with the prefix;
      otherwise a message, or what is there when the coroutine is woken with an error. */
  ghost predicate Fits(ask: Ask, entry: Entry) {
    if !ask.open then entry == Entry(Nothing(Closed), [])
    else if ask.asked.Count? && ask.prefix.Some? && ask.asked.n <= |ask.prefix.value| then
      entry == Entry(PrefixOnly(ask.asked.n, ask.prefix.value), [])
    else if entry.answer.Message? then
      && entry.answer.asked == ask.asked && entry.answer.prefix == ask.prefix
      && MessageFits(ask.asked, if ask.prefix.Some? then ask.prefix.value else [], entry.answer.msg, entry.taken)
    else ask.woken.Some? && GaveUpFits(ask.asked, ask.woken.value, entry)
  }

  // ----- The state and its history -----

  predicate SameFields(s: State, h: History) {
    && s.sock == h.open && s.timeout == h.timeout && s.closing == h.closing && s.dropped == h.dropped
    && (s.co.Sending? <==> h.sending)
  }

  /** The timer runs exactly while the coroutine waits on an open socket and the timeout was on when it began
      to wait. */
  predicate Ticks(s: State, h: History) {
    s.ticking <==> h.open && !s.co.Running? && h.armed
  }

  ghost predicate AnswersFit(log: seq<Entry>, asks: seq<Ask>) {
    |log| <= |asks| && forall k :: 0 <= k < |log| ==> Fits(asks[k], log[k])
  }

  predicate LastAsk(co: Co, asks: seq<Ask>) {
    co.Receiving? ==> asks != [] && asks[|asks| - 1] == Ask(co.asked, co.prefix, true, None)
  }

  ghost predicate AsksAgree(s: State, h: History) {
    |h.asks| == s.calls && AnswersFit(s.log, h.asks) && LastAsk(s.co, h.asks)
  }

  ghost predicate Agree(s: State, h: History) {
    SameFields(s, h) && Ticks(s, h) && AsksAgree(s, h)
  }

  // ----- One answer -----

  lemma MessageIsFit(entry: Entry, ask: Ask)
    requires Accounted(entry) && entry.answer.Message? && !AlreadyThere(ask.asked, ask.prefix) && ask.open
    requires entry.answer.asked == ask.asked && entry.answer.prefix == ask.prefix && !ask.asked.All?
    ensures Fits(ask, entry)
  {
    var p := if ask.prefix.Some? then ask.prefix.value else [];
    assert entry.answer.msg == p + entry.answer.msg[|p|..];
  }

  lemma AnswersFitMore(log: seq<Entry>, asks: seq<Ask>, entry: Entry)
    requires AnswersFit(log, asks) && |log| + 1 == |asks| && Fits(asks[|log|], entry)
    ensures AnswersFit(log + [entry], asks)
  {
  }

  lemma AskMore(log: seq<Entry>, asks: seq<Ask>, ask: Ask)
    requires AnswersFit(log, asks)
    ensures AnswersFit(log, asks + [ask])
  {
  }

  lemma MarkKeepsFit(log: seq<Entry>, asks: seq<Ask>, reason: Reason)
    requires AnswersFit(log, asks)
    ensures AnswersFit(log, MarkLast(asks, reason)) && |MarkLast(asks, reason)| == |asks|
  {
    hide MessageFits, GaveUpFits;
  }

  /** What one turn of `receive` adds to the log. */
  ghost predicate MessageAdded(s: State, s': State)
    requires s.co.Receiving?
  {
    && Returned(s, s') && |s'.log| == |s.log| + 1 && s'.log == s.log + [s'.log[|s.log|]]
    && s'.log[|s.log|].answer.Message?
    && s'.log[|s.log|].answer.asked == s.co.asked && s'.log[|s.log|].answer.prefix == s.co.prefix
  }

  lemma MessageIsAdded(s: State, msg: Bytes, taken: Bytes, rest: seq<Bytes>)
    requires s.co.Receiving?
    ensures MessageAdded(s, Answered(Stop(s), Message(s.co.asked, s.co.prefix, msg), taken, rest))
  {
  }

  lemma TryReadAdds(s: State)
    requires s.co.Receiving? && !AlreadyThere(s.co.asked, s.co.prefix) && NoEmptyChunk(s.buf)
    ensures var s' := TryRead(s); s' == s.(buf := s'.buf) || MessageAdded(s, s')
  {
    hide ReadAs, Taken, Flatten, MessageAdded, Answered, Stop;
    var pat := Wanted(s.co.asked, s.co.prefix);
    var (r, rest) := ReadAs(pat, EOL, s.buf);
    if r.Some? {
      MessageIsAdded(s, Given(s.co.prefix) + r.value, Taken(pat, EOL, s.buf), rest);
    }
  }

  lemma TryReadAgrees(s: State, h: History)
    requires s.co.Receiving? && !AlreadyThere(s.co.asked, s.co.prefix) && !s.co.asked.All?
    requires BytesInv(s) && AsksAgree(s, h)
    ensures AsksAgree(TryRead(s), h)
  {
    var s' := TryRead(s);
    TryReadHolds(s);
    TryReadAdds(s);
    if s' != s.(buf := s'.buf) {
      var entry := s'.log[|s.log|];
      assert Accounted(entry);
      hide TryRead, Accounted, Fits;
      MessageIsFit(entry, h.asks[|s.log|]);
      AnswersFitMore(s.log, h.asks, entry);
    }
  }

  lemma GiveUpAdds(s: State, err: Reason)
    requires s.co.Receiving?
    ensures var s' := GiveUp(s, err);
            && Returned(s, s') && |s'.log| == |s.log| + 1 && s'.log == s.log + [s'.log[|s.log|]]
            && GaveUpFits(s.co.asked, err, s'.log[|s.log|]) && !s'.log[|s.log|].answer.Message?
  {
    hide Flatten;
  }

  lemma GaveUpIsFit(ask: Ask, reason: Reason, entry: Entry)
    requires ask.open && ask.woken.None? && !AlreadyThere(ask.asked, ask.prefix)
    requires GaveUpFits(ask.asked, reason, entry) && !entry.answer.Message?
    ensures Fits(Mark(ask, reason), entry)
  {
  }

  lemma GiveUpAgrees(s: State, h: History, err: Reason)
    requires s.co.Receiving? && !AlreadyThere(s.co.asked, s.co.prefix) && BytesInv(s) && AsksAgree(s, h)
    ensures AsksAgree(GiveUp(s, err), Woken(h, err))
  {
    var s' := GiveUp(s, err);
    GiveUpAdds(s, err);
    var entry := s'.log[|s.log|];
    hide GiveUp, GaveUpFits, Fits, Accounted;
    MarkKeepsFit(s.log, h.asks, err);
    GaveUpIsFit(h.asks[|s.log|], err, entry);
    AnswersFitMore(s.log, MarkLast(h.asks, err), entry);
  }

  /** Resuming the coroutine, with a result or with an error. */
  lemma ResumeAgrees(s: State, h: History, err: Option<Reason>)
    requires CanResume(s) && BytesInv(s) && AsksAgree(s, h) && !s.co.Running?
    ensures AsksAgree(Resume(s, err), if err.Some? then Woken(h, err.value) else h)
  {
    hide BytesInv, AnswersFit, NoEmptyChunk, TryRead, GiveUp;
    if s.co.Receiving? {
      if err.Some? {
        GiveUpAgrees(s, h, err.value);
      } else if !s.co.asked.All? {
        TryReadAgrees(s, h);
      }
    } else if err.Some? {
      MarkKeepsFit(s.log, h.asks, err.value);
    }
  }

  /** What resuming does to the other fields. */
  predicate OnlyWaits(s: State, s': State) {
    && s'.sock == s.sock && s'.timeout == s.timeout && s'.closing == s.closing && s'.dropped == s.dropped
    && s'.timer == s.timer
    && (|| (s'.co == s.co && s'.ticking == s.ticking)
        || (s'.co.Running? && !s'.ticking))
  }

  lemma ReturnedWaits(s: State, s': State)
    requires s.ticking ==> s.timer
    ensures Returned(s, s') ==> OnlyWaits(s, s')
    ensures s' == s.(buf := s'.buf) ==> OnlyWaits(s, s')
  {
  }

  lemma ResumeFields(s: State, err: Option<Reason>)
    requires CanResume(s) && BytesInv(s) && !s.co.Running? && (s.ticking ==> s.timer)
    ensures OnlyWaits(s, Resume(s, err)) && (err.Some? ==> Resume(s, err).co.Running?)
  {
    ResumeHolds(s, err);
    ReturnedWaits(s, Resume(s, err));
    hide BytesInv, NoEmptyChunk, Returned, OnlyWaits, Resume;
  }

  /** The coroutine is woken with an error. */
  lemma ErrorAgrees(s: State, h: History, err: Reason)
    requires CanResume(s) && BytesInv(s) && !s.co.Running? && (s.ticking ==> s.timer)
    requires SameFields(s, h) && AsksAgree(s, h)
    ensures Agree(Resume(s, Some(err)), Woken(h, err))
  {
    ResumeAgrees(s, h, Some(err));
    ResumeFields(s, Some(err));
    hide Resume, BytesInv, AsksAgree;
  }

  /** The coroutine is woken with a result. */
  lemma ResultAgrees(s: State, h: History)
    requires CanResume(s) && BytesInv(s) && !s.co.Running? && (s.ticking ==> s.timer)
    requires Agree(s, h)
    ensures Agree(Resume(s, None), if s.co.Sending? then h.(sending := false) else h)
  {
    ResumeAgrees(s, h, None);
    ResumeFields(s, None);
    SendingDone(s, h);
    hide Resume, BytesInv;
  }

  lemma SendingDone(s: State, h: History)
    requires CanResume(s)
    ensures s.co.Sending? ==> Resume(s, None).co.Running?
  {
    hide TryRead, NoEmptyChunk;
  }

  /** Nobody waits for the error. */
  lemma UnheardAgrees(s: State, h: History, err: Reason)
    requires s.co.Running? && Agree(s, h)
    ensures Agree(s, Woken(h, err))
  {
    MarkKeepsFit(s.log, h.asks, err);
    hide AnswersFit;
  }

  lemma TimerAgrees(s: State, h: History)
    requires Inv(s) && Agree(s, h) && s.ticking
    ensures Agree(Next(s, TimerFires), Woken(h, TimedOut))
  {
    var s1 := s.(ticking := false);
    assert CanResume(s1) && BytesInv(s1) && !s1.co.Running? && AsksAgree(s1, h);
    hide BytesInv, AsksAgree, Resume, NoEmptyChunk;
    ErrorAgrees(s1, h, TimedOut);
  }

  lemma CloseDoneAgrees(s: State, h: History)
    requires Inv(s) && Agree(s, h) && s.closing
    ensures Agree(Next(s, CloseDone), Woken(h.(closing := false), Closed))
  {
    var s1, h1 := s.(closing := false), h.(closing := false);
    assert CanResume(s1) && BytesInv(s1) && SameFields(s1, h1) && AsksAgree(s1, h1) && Ticks(s1, h1);
    assert s.wait != {} <==> !s.co.Running?;
    hide BytesInv, AsksAgree, Resume, NoEmptyChunk;
    if s.co.Running? {
      UnheardAgrees(s1, h1, Closed);
    } else {
      ErrorAgrees(s1, h1, Closed);
    }
  }

  lemma InterruptAgrees(s: State, h: History, reason: Reason)
    requires Inv(s) && Agree(s, h)
    ensures Agree(Next(s, Interrupt(reason)), Woken(h, reason))
  {
    assert s.wait != {} <==> !s.co.Running?;
    hide BytesInv, AsksAgree, Resume, NoEmptyChunk;
    if s.co.Running? {
      UnheardAgrees(s, h, reason);
    } else {
      ErrorAgrees(s, h, reason);
    }
  }

  lemma DeliverAgrees(s: State, h: History, data: Bytes)
    requires Inv(s) && Agree(s, h) && s.sock
    ensures Agree(Next(s, Deliver(data)), h)
  {
    StoredHolds(s, data);
    LineLaws.AppendedBytes(s.buf, data);
    var s1 := Stored(s, data);
    assert CanResume(s1) && Agree(s1, h);
    assert READ in s.wait <==> s.co.Receiving?;
    hide BytesInv, Agree, Resume, NoEmptyChunk, Stored;
    if s.co.Receiving? {
      ResultAgrees(s1, h);
    }
  }

  lemma WriteDoneAgrees(s: State, h: History, failed: bool)
    requires Inv(s) && Agree(s, h) && s.co.Sending?
    ensures Agree(Next(s, WriteDone(failed)), After(h, WriteDone(failed)))
  {
    if !failed {
      assert CanResume(s);
      hide BytesInv, Agree, Resume, NoEmptyChunk;
      ResultAgrees(s, h);
    }
  }

  /** The call is noted before it is answered or suspended. */
  lemma ReceiveAgrees(s: State, h: History, asked: ReadPattern, prefix: Option<Bytes>)
    requires Inv(s) && Agree(s, h) && s.co.Running?
    ensures Agree(Next(s, Receive(asked, prefix)), After(h, Receive(asked, prefix)))
  {
    var h1 := After(h, Receive(asked, prefix));
    var s1 := s.(calls := s.calls + 1);
    AskMore(s.log, h.asks, Ask(asked, prefix, h.open, None));
    NextReceive(s, asked, prefix);
    if !s.sock {
      AnswersFitMore(s.log, h1.asks, Entry(Nothing(Closed), []));
      hide AnswersFit, Accounted;
    } else if AlreadyThere(asked, prefix) {
      AnswersFitMore(s.log, h1.asks, Entry(PrefixOnly(asked.n, prefix.value), []));
      hide AnswersFit, Accounted;
    } else {
      WaitedAgrees(s1, h1, asked, prefix);
      hide Agree, Waited, Next;
    }
  }

  lemma WaitedAgrees(s: State, h: History, asked: ReadPattern, prefix: Option<Bytes>)
    requires s.sock && s.timer && !s.ticking && !AlreadyThere(asked, prefix)
    requires h.open && h.armed == s.timeout && !h.sending && h.asks != []
    requires s.timeout == h.timeout && s.closing == h.closing && s.dropped == h.dropped
    requires h.asks[|h.asks| - 1] == Ask(asked, prefix, true, None)
    requires BytesInv(s.(co := Receiving(asked, prefix))) && |h.asks| == s.calls && AnswersFit(s.log, h.asks)
    ensures Agree(Waited(s, asked, prefix), h)
  {
    var s1 := Start(s, READ).(co := Receiving(asked, prefix));
    assert BytesInv(s1) && AsksAgree(s1, h) && SameFields(s1, h) && Ticks(s1, h) && s1.timer;
    if !asked.All? {
      TryReadAgrees(s1, h);
      TryReadHolds(s1);
      hide BytesInv, AsksAgree, TryRead, Start;
    }
  }

  lemma StepAgrees(s: State, h: History, event: Event)
    requires Inv(s) && Agree(s, h) && Enabled(s, event)
    ensures Agree(Next(s, event), After(h, event))
  {
    match event
    case Receive(asked, prefix) => ReceiveAgrees(s, h, asked, prefix);
    case Deliver(data) => DeliverAgrees(s, h, data);
    case TimerFires => TimerAgrees(s, h);
    case WriteDone(failed) => WriteDoneAgrees(s, h, failed);
    case CloseDone => CloseDoneAgrees(s, h);
    case Interrupt(reason) => InterruptAgrees(s, h, reason);
    case _ => PlainAgrees(s, h, event);
  }

  lemma PlainAgrees(s: State, h: History, event: Event)
    requires Inv(s) && Agree(s, h) && Enabled(s, event)
    requires event.SetTimeout? || event.Send? || event.ReadFails? || event.Close?
    ensures Agree(Next(s, event), After(h, event))
  {
    hide BytesInv, AnswersFit, Resume, Received, NoEmptyChunk;
  }

  lemma {:induction false} RunAgrees(s: State, h: History, events: seq<Event>)
    requires Inv(s) && Agree(s, h) && IsRun(s, events)
    ensures Inv(Final(s, events)) && Agree(Final(s, events), Told(h, events))
    decreases |events|
  {
    if events != [] {
      StepAgrees(s, h, events[0]);
      StepHolds(s, events[0]);
      RunAgrees(Next(s, events[0]), After(h, events[0]), events[1..]);
    }
  }

  lemma InitAgrees(s: State)
    requires Init(s)
    ensures Inv(s) && Agree(s, Beginning(s.timeout))
  {
  }

  // ----- The theorems -----

  /** Over every run, from the events: the k-th answer answers the k-th call of `receive`, with that call's
      arguments and for the reason that woke it; one call at most is unanswered, the last one, and then the
      coroutine waits for exactly what it asked. */
  lemma AnswersFitTheirCalls(s0: State, events: seq<Event>)
    requires Init(s0) && IsRun(s0, events)
    ensures var s, asks := Final(s0, events), Told(Beginning(s0.timeout), events).asks;
            && |s.log| + (if s.co.Receiving? then 1 else 0) == |asks|
            && (forall k :: 0 <= k < |s.log| ==> Fits(asks[k], s.log[k]))
            && (s.co.Receiving? ==> asks[|asks| - 1] == Ask(s.co.asked, s.co.prefix, true, None))
  {
    InitAgrees(s0);
    RunAgrees(s0, Beginning(s0.timeout), events);
  }

  /** Over every run, from the events: whether the socket is open, who will wake the coroutine, whether it
      waits in `send`; and the timer runs exactly while the coroutine waits on an open socket, in a call that
      began with the timeout on. */
  lemma WaitsAsTold(s0: State, events: seq<Event>)
    requires Init(s0) && IsRun(s0, events)
    ensures var s, h := Final(s0, events), Told(Beginning(s0.timeout), events);
            && (s.sock <==> h.open) && (s.closing <==> h.closing) && (s.dropped <==> h.dropped)
            && (s.co.Sending? <==> h.sending)
            && (s.ticking <==> h.open && !s.co.Running? && h.armed)
            && (!s.co.Running? ==> h.open || h.closing || h.dropped)
  {
    InitAgrees(s0);
    RunAgrees(s0, Beginning(s0.timeout), events);
  }

  /** A `receive` that can time out: the timeout is set, and nothing is buffered. */
  lemma TimeoutIsReachable(s0: State, asked: ReadPattern)
    requires Init(s0)
    ensures var events := [SetTimeout(true)] + [Receive(asked, None)];
            && IsRun(s0, events)
            && Final(s0, events).ticking && Final(s0, events).co == Receiving(asked, None)
            && Enabled(Final(s0, events), TimerFires)
  {
    var s1 := Next(s0, SetTimeout(true));
    assert CanResume(s1) && s1.co.Running?;
    SuspendsEmpty(s1.(calls := 1), asked);
    NextReceive(s1, asked, None);
    hide Next, Received;
    OneEvent(s1, Receive(asked, None));
    FirstEvent(s0, SetTimeout(true), [Receive(asked, None)]);
  }

  lemma OneEvent(s: State, event: Event)
    requires CanResume(s) && Enabled(s, event)
    ensures IsRun(s, [event]) && Final(s, [event]) == Next(s, event)
  {
    assert [event][1..] == [];
  }

  lemma FirstEvent(s: State, event: Event, events: seq<Event>)
    requires CanResume(s) && Enabled(s, event) && IsRun(Next(s, event), events)
    ensures IsRun(s, [event] + events) && Final(s, [event] + events) == Final(Next(s, event), events)
  {
    assert ([event] + events)[1..] == events;
  }

  lemma SuspendsEmpty(s: State, asked: ReadPattern)
    requires s.sock && s.timeout && s.buf == [] && s.co.Running?
    ensures Received(s, asked, None).ticking && Received(s, asked, None).co == Receiving(asked, None)
  {
    NothingToRead(asked);
    hide ReadAs, Taken, Flatten;
  }

  lemma NothingToRead(asked: ReadPattern)
    ensures !asked.All? ==> ReadAs(asked, EOL, []).0 == None
  {
  }
}

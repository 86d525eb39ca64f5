/** What `TcpSock:receive` keeps over any run of calls, deliveries, timeouts, errors and closings. */
module TcpTheorems {
  import opened Wrappers
  import opened Seqs
  import opened LuaStrings
  import opened ChunkLists
  import opened LineLaws
  import opened BufferOps
  import opened TcpSystem

  // ----- One read -----

  /** A line read with terminator `\r*\n` is settled by the bytes taken for it. */
  lemma LineIsAccounted(pat: ReadPattern, cs: seq<Bytes>)
    requires NoEmptyChunk(cs) && (pat.Line? || pat.LineEol?) && ReadAs(pat, EOL, cs).0.Some?
    ensures var r, taken := ReadAs(pat, EOL, cs).0.value, Taken(pat, EOL, cs);
            && (pat.Line? ==> r <= taken && Find(EOL, taken) == Some(Match(|r|, |taken|)))
            && (pat.LineEol? ==> r == taken && Find(EOL, r).Some? && Find(EOL, r).value.stop == |r|)
  {
    var flat := Flatten(cs);
    ReadLineIsFlat(EOL, pat.LineEol?, cs);
    var m := Find(EOL, flat).value;
    TakeDrop(flat, m.stop);
    CutAccounts(EOL, flat, m);
    FoundInPrefix(EOL, flat[..m.stop], flat[m.stop..]);
    hide MatchAt, Find, FindFrom, Leftmost, NoMatch, LineSpec, Flatten;
  }

  lemma ReadIsAccounted(asked: ReadPattern, prefix: Option<Bytes>, cs: seq<Bytes>)
    requires NoEmptyChunk(cs) && !AlreadyThere(asked, prefix) && !asked.All?
    requires ReadAs(Wanted(asked, prefix), EOL, cs).0.Some?
    ensures var pat := Wanted(asked, prefix);
            var r := ReadAs(pat, EOL, cs).0.value;
            Accounted(Entry(Message(asked, prefix, Given(prefix) + r), Taken(pat, EOL, cs)))
  {
    var pat := Wanted(asked, prefix);
    var r := ReadAs(pat, EOL, cs).0.value;
    assert (Given(prefix) + r)[|Given(prefix)|..] == r;
    ReadTakesPrefix(pat, EOL, cs);
    if pat.Line? || pat.LineEol? {
      LineIsAccounted(pat, cs);
    }
  }

  /** A read that finds nothing leaves the bytes, and would find nothing again. */
  lemma NoReadNoChange(pat: ReadPattern, cs: seq<Bytes>)
    requires NoEmptyChunk(cs) && ReadAs(pat, EOL, cs).0 == None
    ensures var rest := ReadAs(pat, EOL, cs).1;
            NoEmptyChunk(rest) && Flatten(rest) == Flatten(cs) && ReadAs(pat, EOL, rest).0 == None
  {
    if pat.Line? || pat.LineEol? {
      ReadLineIsFlat(EOL, pat.LineEol?, cs);
      ReadLineIsFlat(EOL, pat.LineEol?, ReadAs(pat, EOL, cs).1);
    }
  }

  // ----- The log -----

  /** An answer moves its bytes from the buffer to the log. */
  lemma AnswerHolds(s: State, answer: Answer, taken: Bytes, rest: seq<Bytes>)
    requires s.co.Receiving? && BytesInv(s)
    requires NoEmptyChunk(rest) && taken + Flatten(rest) == Flatten(s.buf) && Accounted(Entry(answer, taken))
    ensures BytesInv(Answered(s, answer, taken, rest))
  {
  }

  /** The state after an answer. */
  predicate Returned(s: State, s': State) {
    s' == Stop(s).(co := Running, buf := s'.buf, log := s'.log)
  }

  lemma StopHolds(s: State)
    requires BytesInv(s)
    ensures BytesInv(Stop(s))
  {
  }

  lemma TryReadHolds(s: State)
    requires s.co.Receiving? && !AlreadyThere(s.co.asked, s.co.prefix) && !s.co.asked.All?
    requires BytesInv(s)
    ensures var s' := TryRead(s);
            BytesInv(s') && Blocked(s'.co, s'.buf) && (s' == s.(buf := s'.buf) || Returned(s, s'))
  {
    var pat := Wanted(s.co.asked, s.co.prefix);
    var (r, rest) := ReadAs(pat, EOL, s.buf);
    if r.None? {
      NoReadNoChange(pat, s.buf);
    } else {
      FoundHolds(s, pat, r.value, rest);
    }
  }

  lemma FoundHolds(s: State, pat: ReadPattern, r: Bytes, rest: seq<Bytes>)
    requires s.co.Receiving? && !AlreadyThere(s.co.asked, s.co.prefix) && !s.co.asked.All?
    requires BytesInv(s) && pat == Wanted(s.co.asked, s.co.prefix) && (Some(r), rest) == ReadAs(pat, EOL, s.buf)
    ensures var answer := Message(s.co.asked, s.co.prefix, Given(s.co.prefix) + r);
            BytesInv(Answered(Stop(s), answer, Taken(pat, EOL, s.buf), rest))
  {
    ReadIsAccounted(s.co.asked, s.co.prefix, s.buf);
    ReadTakesPrefix(pat, EOL, s.buf);
    StopHolds(s);
    hide Accounted, BytesInv, ReadAs, Taken;
    AnswerHolds(Stop(s), Message(s.co.asked, s.co.prefix, Given(s.co.prefix) + r), Taken(pat, EOL, s.buf), rest);
  }

  lemma AllHolds(s: State, answer: Answer)
    requires s.co.Receiving? && BytesInv(s) && Accounted(Entry(answer, Flatten(s.buf)))
    ensures BytesInv(Answered(Stop(s), answer, Flatten(s.buf), []))
  {
  }

  lemma NothingHolds(s: State, err: Reason)
    requires s.co.Receiving? && BytesInv(s)
    ensures BytesInv(Answered(Stop(s), Nothing(err), [], s.buf))
  {
  }

  lemma GiveUpHolds(s: State, err: Reason)
    requires s.co.Receiving? && BytesInv(s)
    ensures BytesInv(GiveUp(s, err)) && Returned(s, GiveUp(s, err))
  {
    hide BytesInv, Flatten;
    AllHolds(s, Partial(err, Flatten(s.buf)));
    AllHolds(s, Everything(Flatten(s.buf)));
    NothingHolds(s, err);
  }

  /** A resumed coroutine is suspended in the same call again, or has returned. */
  lemma ResumeHolds(s: State, err: Option<Reason>)
    requires CanResume(s) && BytesInv(s) && !s.co.Running?
    ensures var s' := Resume(s, err);
            && BytesInv(s') && Blocked(s'.co, s'.buf)
            && (s' == s.(buf := s'.buf) || Returned(s, s'))
            && (err.Some? ==> s'.co.Running?)
  {
    if s.co.Receiving? {
      if err.Some? {
        GiveUpHolds(s, err.value);
      } else if !s.co.asked.All? {
        TryReadHolds(s);
      }
    }
  }

  lemma StoredHolds(s: State, data: Bytes)
    requires BytesInv(s)
    ensures BytesInv(Stored(s, data))
  {
    AppendedBytes(s.buf, data);
    Assoc(TakenOf(s.log), Flatten(s.buf), data);
  }

  lemma ReceivedHolds(s: State, asked: ReadPattern, prefix: Option<Bytes>)
    requires Inv(s) && s.co.Running?
    ensures Inv(Received(s.(calls := s.calls + 1), asked, prefix))
  {
    var s1 := s.(calls := s.calls + 1, co := Receiving(asked, prefix));
    if !s.sock {
      AnswerHolds(s1, Nothing(Closed), [], s.buf);
    } else if AlreadyThere(asked, prefix) {
      AnswerHolds(s1, PrefixOnly(asked.n, prefix.value), [], s.buf);
    } else {
      WaitedHolds(s1.(co := s.co), asked, prefix);
    }
  }

  lemma WaitedHolds(s: State, asked: ReadPattern, prefix: Option<Bytes>)
    requires WaitInv(s) && s.sock && s.co.Running? && !AlreadyThere(asked, prefix)
    requires BytesInv(s.(co := Receiving(asked, prefix)))
    ensures Inv(Waited(s, asked, prefix))
  {
    var s1 := Start(s, READ).(co := Receiving(asked, prefix));
    assert BytesInv(s1);
    assert !s1.fault && s1.wait == {READ} && s1.sock && s1.timer;
    if !asked.All? {
      TryReadHolds(s1);
    }
    hide BytesInv, TryRead;
  }

  /** Waking the coroutine, or the socket that is about to be told. */
  lemma WakeHolds(s: State, err: Option<Reason>)
    requires BytesInv(s) && (s.co.Receiving? ==> !AlreadyThere(s.co.asked, s.co.prefix)) && !s.co.Running?
    requires !s.fault && (s.sock <==> s.timer) && s.wait == Flags(s.co) && (s.ticking ==> s.timer)
    requires (s.closing ==> !s.sock) && (s.sock || s.closing || s.dropped || err.Some?)
    ensures Inv(Resume(s, err))
  {
    ResumeHolds(s, err);
    hide BytesInv, Resume;
  }

  lemma DeliverHolds(s: State, data: Bytes)
    requires Inv(s) && s.sock
    ensures Inv(Next(s, Deliver(data)))
  {
    StoredHolds(s, data);
    if READ in s.wait {
      WakeHolds(Stored(s, data), None);
    } else {
      assert !s.co.Receiving?;
    }
  }

  lemma CloseDoneHolds(s: State)
    requires Inv(s) && s.closing
    ensures Inv(Next(s, CloseDone))
  {
    if s.wait != {} {
      WakeHolds(s.(closing := false), Some(Closed));
      hide Inv, Resume;
    }
  }

  lemma StepHolds(s: State, event: Event)
    requires Inv(s) && Enabled(s, event)
    ensures Inv(Next(s, event))
  {
    hide Resume, Received;
    match event
    case Receive(asked, prefix) => ReceivedHolds(s, asked, prefix);
    case Deliver(data) => DeliverHolds(s, data);
    case TimerFires => WakeHolds(s.(ticking := false), Some(TimedOut));
    case WriteDone(failed) =>
      if !failed {
        WakeHolds(s, None);
      }
    case CloseDone => CloseDoneHolds(s);
    case Interrupt(reason) =>
      if s.wait != {} {
        WakeHolds(s, Some(reason));
      }
    case _ =>
  }

  // ----- Runs -----

  ghost predicate IsRun(s: State, events: seq<Event>)
    decreases |events|
  {
    events == [] || (CanResume(s) && Enabled(s, events[0]) && IsRun(Next(s, events[0]), events[1..]))
  }

  ghost function Final(s: State, events: seq<Event>): State
    requires IsRun(s, events)
    decreases |events|
  {
    if events == [] then s else Final(Next(s, events[0]), events[1..])
  }

  /** Everything libuv delivers in a run, and how often `receive` is called. */
  function DeliveredBy(events: seq<Event>): Bytes {
    if events == [] then []
    else (if events[0].Deliver? then events[0].data else []) + DeliveredBy(events[1..])
  }

  function CallsIn(events: seq<Event>): nat {
    if events == [] then 0 else (if events[0].Receive? then 1 else 0) + CallsIn(events[1..])
  }

  predicate SameRecords(s: State, s': State) {
    s'.delivered == s.delivered && s'.calls == s.calls && (s'.sock ==> s.sock)
  }

  lemma TryReadRecords(s: State)
    requires s.co.Receiving? && !AlreadyThere(s.co.asked, s.co.prefix) && NoEmptyChunk(s.buf)
    ensures SameRecords(s, TryRead(s))
  {
    hide ReadAs, Taken;
  }

  lemma GiveUpRecords(s: State, err: Reason)
    requires s.co.Receiving?
    ensures SameRecords(s, GiveUp(s, err))
  {
    hide Flatten;
  }

  /** Resuming the coroutine adds neither deliveries nor calls, and reopens nothing. */
  lemma ResumeRecords(s: State, err: Option<Reason>)
    requires CanResume(s)
    ensures SameRecords(s, Resume(s, err))
  {
    hide TryRead, GiveUp, Flatten;
    if s.co.Receiving? {
      if err.Some? {
        GiveUpRecords(s, err.value);
      } else {
        TryReadRecords(s);
      }
    }
  }

  lemma ReceivedRecords(s: State, asked: ReadPattern, prefix: Option<Bytes>)
    requires NoEmptyChunk(s.buf)
    ensures SameRecords(s, Received(s, asked, prefix))
  {
    hide TryRead;
    if s.sock && !AlreadyThere(asked, prefix) && !asked.All? {
      TryReadRecords(Start(s, READ).(co := Receiving(asked, prefix)));
    }
  }

  lemma DeliverRecords(s: State, data: Bytes)
    requires CanResume(s)
    ensures SameRecords(s.(delivered := s.delivered + data), Next(s, Deliver(data)))
  {
    AppendedBytes(s.buf, data);
    ResumeRecords(Stored(s, data), None);
    hide Resume, Flatten, Appended;
  }

  predicate Wakes(event: Event) {
    event.TimerFires? || event.WriteDone? || event.CloseDone? || event.Interrupt?
  }

  lemma WakeRecords(s: State, event: Event)
    requires CanResume(s) && Wakes(event)
    ensures SameRecords(s, Next(s, event))
  {
    hide Resume, Flatten;
    match event
    case TimerFires => ResumeRecords(s.(ticking := false), Some(TimedOut));
    case WriteDone(_) => ResumeRecords(s, None);
    case CloseDone => ResumeRecords(s.(closing := false), Some(Closed));
    case Interrupt(reason) => ResumeRecords(s, Some(reason));
  }

  lemma OtherRecords(s: State, event: Event)
    requires CanResume(s) && !event.Receive? && !event.Deliver? && !Wakes(event)
    ensures SameRecords(s, Next(s, event))
  {
    hide Resume, Received, Flatten;
  }

  lemma StepRecords(s: State, event: Event)
    requires CanResume(s)
    ensures Next(s, event).delivered == s.delivered + (if event.Deliver? then event.data else [])
    ensures Next(s, event).calls == s.calls + (if event.Receive? then 1 else 0)
    ensures Next(s, event).sock ==> s.sock
  {
    hide Next;
    ConcatEmpty(s.delivered);
    if event.Receive? {
      ReceivedRecords(s.(calls := s.calls + 1), event.asked, event.prefix);
      NextReceive(s, event.asked, event.prefix);
    } else if event.Deliver? {
      DeliverRecords(s, event.data);
    } else if Wakes(event) {
      WakeRecords(s, event);
    } else {
      OtherRecords(s, event);
    }
  }

  lemma NextReceive(s: State, asked: ReadPattern, prefix: Option<Bytes>)
    requires CanResume(s)
    ensures Next(s, Receive(asked, prefix)) == Received(s.(calls := s.calls + 1), asked, prefix)
  {
    hide Received;
  }

  lemma {:induction false} RunHolds(s: State, events: seq<Event>)
    requires Inv(s) && IsRun(s, events)
    ensures Inv(Final(s, events))
    ensures Final(s, events).delivered == s.delivered + DeliveredBy(events)
    ensures Final(s, events).calls == s.calls + CallsIn(events)
    decreases |events|
  {
    if events == [] {
      ConcatEmpty(s.delivered);
    } else {
      StepHolds(s, events[0]);
      StepRecords(s, events[0]);
      RunHolds(Next(s, events[0]), events[1..]);
      Assoc(s.delivered, if events[0].Deliver? then events[0].data else [], DeliveredBy(events[1..]));
    }
  }

  // ----- The theorems -----

  /** Whatever happens to one socket, no byte is lost, doubled or moved: the bytes delivered are those taken
      for the answers, in order, and those still buffered, and each answer is accounted for by its bytes.
      Every call of `receive` returns once, unless it is still suspended. */
  lemma ReceiveConserves(s0: State, events: seq<Event>)
    requires Init(s0) && IsRun(s0, events)
    ensures var s := Final(s0, events);
            && DeliveredBy(events) == TakenOf(s.log) + Flatten(s.buf)
            && (forall i :: 0 <= i < |s.log| ==> Accounted(s.log[i]))
            && |s.log| + (if s.co.Receiving? then 1 else 0) == CallsIn(events)
  {
    RunHolds(s0, events);
    ConcatEmpty(DeliveredBy(events));
  }

  /** No assertion fails, no nil field is called and no running coroutine is resumed; at most one flag is
      set, only while the coroutine is suspended, and the timer runs only then. Any enabled event can happen
      next. */
  lemma WaitsAreSound(s0: State, events: seq<Event>)
    requires Init(s0) && IsRun(s0, events)
    ensures var s := Final(s0, events);
            && !s.fault && CanResume(s)
            && (s.wait == {} || s.wait == {READ} || s.wait == {WRITE})
            && (s.wait != {} <==> !s.co.Running?) && (READ in s.wait <==> s.co.Receiving?)
            && (s.ticking ==> s.wait != {} && s.timer)
  {
    RunHolds(s0, events);
  }

  /** A suspended `receive` misses nothing: what it waits for is not in the buffer. And it is not forgotten:
      the socket is still read, or a close callback will wake it, or somebody closed the socket by hand. */
  lemma SuspendedReceiveIsWaiting(s0: State, events: seq<Event>)
    requires Init(s0) && IsRun(s0, events) && Final(s0, events).co.Receiving?
    ensures var s := Final(s0, events);
            && (s.co.asked.Line? || s.co.asked.LineEol? ==> LF !in Flatten(s.buf))
            && (s.co.asked.Count? ==>
                  Flatten(s.buf) == [] || |Given(s.co.prefix)| + |Flatten(s.buf)| < s.co.asked.n)
            && (s.co.asked.NextChunk? ==> Flatten(s.buf) == [])
            && (s.sock || s.closing || s.dropped)
  {
    RunHolds(s0, events);
    BlockedBuffer(Final(s0, events));
  }

  lemma BlockedBuffer(s: State)
    requires NoEmptyChunk(s.buf) && Blocked(s.co, s.buf) && s.co.Receiving?
    ensures s.co.asked.Line? || s.co.asked.LineEol? ==> LF !in Flatten(s.buf)
    ensures s.co.asked.Count? ==> Flatten(s.buf) == [] || |Given(s.co.prefix)| + |Flatten(s.buf)| < s.co.asked.n
    ensures s.co.asked.NextChunk? ==> Flatten(s.buf) == []
  {
    if s.co.asked.Line? || s.co.asked.LineEol? {
      ReadLineIsFlat(EOL, s.co.asked.LineEol?, s.buf);
      CrStarLfStopsAtFirstLf(Flatten(s.buf));
    }
  }

  /** `receive("*a")` ends with the rest of the stream: when the close callback wakes it, it returns all
      bytes that were delivered and not yet taken. */
  lemma AllIsTheRestOfTheStream(s0: State, events: seq<Event>)
    requires Init(s0) && IsRun(s0, events)
    requires var s := Final(s0, events); s.closing && s.co.Receiving? && s.co.asked.All?
    ensures var s := Final(s0, events);
            && CanResume(s)
            && var s' := Next(s, CloseDone);
            && s'.co.Running? && s'.buf == [] && !s'.sock
            && exists all :: s'.log == s.log + [Entry(Everything(all), all)] && DeliveredBy(events) == TakenOf(s.log) + all
  {
    ReceiveConserves(s0, events);
    RunHolds(s0, events);
    var s := Final(s0, events);
    assert Next(s, CloseDone).log == s.log + [Entry(Everything(Flatten(s.buf)), Flatten(s.buf))];
  }

  /** A timeout hands over what has arrived, with the error, and leaves the socket open for the next call. */
  lemma TimeoutGivesWhatIsThere(s0: State, events: seq<Event>)
    requires Init(s0) && IsRun(s0, events)
    requires Final(s0, events).ticking && Final(s0, events).co.Receiving?
    ensures var s := Final(s0, events);
            && CanResume(s)
            && var s' := Next(s, TimerFires);
            && s'.co.Running? && s'.buf == [] && s'.sock && !s'.ticking
            && exists part ::
                 s'.log == s.log + [Entry(Partial(TimedOut, part), part)] && DeliveredBy(events) == TakenOf(s.log) + part
  {
    ReceiveConserves(s0, events);
    RunHolds(s0, events);
    var s := Final(s0, events);
    assert Next(s, TimerFires).log == s.log + [Entry(Partial(TimedOut, Flatten(s.buf)), Flatten(s.buf))];
  }

  /** A closed socket stays closed, and nothing is delivered any more. */
  lemma {:induction false} ClosedStaysClosed(s: State, events: seq<Event>)
    requires Inv(s) && IsRun(s, events) && !s.sock
    ensures !Final(s, events).sock && DeliveredBy(events) == []
    decreases |events|
  {
    if events != [] {
      StepHolds(s, events[0]);
      StepRecords(s, events[0]);
      ClosedStaysClosed(Next(s, events[0]), events[1..]);
    }
  }

  // ----- Lines over a socket -----

  /** Every answer so far was a line, asked for without a prefix. */
  ghost predicate OnlyLines(log: seq<Entry>) {
    forall i :: 0 <= i < |log| ==> log[i].answer.Message? && log[i].answer.asked.Line? && log[i].answer.prefix.None?
  }

  function LinesOf(log: seq<Entry>): seq<Bytes>
    requires OnlyLines(log)
    decreases |log|
  {
    if log == [] then [] else [log[0].answer.msg] + LinesOf(log[1..])
  }

  lemma {:induction false} TakenFront(log: seq<Entry>)
    requires log != []
    ensures TakenOf(log) == log[0].taken + TakenOf(log[1..])
    decreases |log|
  {
    var n := |log| - 1;
    if n == 0 {
      ConcatEmpty(log[0].taken);
      assert log[..0] == [] && log[1..] == [];
    } else {
      TakenFront(log[..n]);
      assert log[1..][..n - 1] == log[..n][1..];
      Assoc(log[0].taken, TakenOf(log[..n][1..]), log[n].taken);
    }
  }

  lemma LineIsPiece(line: Bytes, taken: Bytes, tail: Bytes)
    requires line <= taken && Find(EOL, taken) == Some(Match(|line|, |taken|))
    ensures Pieces(EOL, taken + tail) == [line] + Pieces(EOL, tail)
  {
    PiecesAfterMatch(EOL, taken, tail);
    assert taken[..|line|] == line && taken[|taken|..] + tail == tail;
  }

  lemma LineAccounted(entry: Entry)
    requires Accounted(entry) && entry.answer.Message? && entry.answer.asked.Line? && entry.answer.prefix.None?
    ensures var line := entry.answer.msg;
            line <= entry.taken && Find(EOL, entry.taken) == Some(Match(|line|, |entry.taken|))
  {
  }

  lemma {:induction false} LogIsPieces(log: seq<Entry>, rest: Bytes)
    requires OnlyLines(log) && forall i :: 0 <= i < |log| ==> Accounted(log[i])
    ensures LinesOf(log) + Pieces(EOL, rest) == Pieces(EOL, TakenOf(log) + rest)
    decreases |log|
  {
    if log == [] {
      ConcatEmpty(rest);
    } else {
      var taken, msg := log[0].taken, log[0].answer.msg;
      LineAccounted(log[0]);
      LogIsPieces(log[1..], rest);
      TakenFront(log);
      hide Accounted, Pieces, TakenOf;
      Assoc(taken, TakenOf(log[1..]), rest);
      LineIsPiece(msg, taken, TakenOf(log[1..]) + rest);
      Assoc([msg], LinesOf(log[1..]), Pieces(EOL, rest));
    }
  }

  /** A client that only asks for lines gets the lines of the stream: the answers, then what `split` makes
      of the bytes still buffered, are `split` of everything delivered, however the bytes came in. */
  lemma LinesOverSocket(s0: State, events: seq<Event>)
    requires Init(s0) && IsRun(s0, events) && OnlyLines(Final(s0, events).log)
    ensures var s := Final(s0, events);
            LinesOf(s.log) + Pieces(EOL, Flatten(s.buf)) == Pieces(EOL, DeliveredBy(events))
  {
    ReceiveConserves(s0, events);
    var s := Final(s0, events);
    LogIsPieces(s.log, Flatten(s.buf));
  }
}

/** What becomes of buffered bytes when a socket has ended, and what `receive("*a")` does with a prefix. */
module TcpEndings {
  import opened Wrappers
  import opened Seqs
  import opened LuaStrings
  import opened ChunkLists
  import LineLaws
  import opened BufferOps
  import opened TcpSystem
  import opened TcpTheorems

  // ----- After the end of the socket -----

  /** The error that first wakes a suspended coroutine when the socket has ended. */
  function FirstWake(events: seq<Event>): Option<Reason> {
    if events == [] then None
    else
      match events[0]
      case CloseDone => Some(Closed)
      case Interrupt(reason) => Some(reason)
      case _ => FirstWake(events[1..])
  }

  /** A coroutine suspended in `receive` hands the buffered bytes over when it is woken, except that
      `receive("*a")` keeps them when the error is neither "closed" nor "timeout". */
  predicate HandsOver(co: Co, events: seq<Event>) {
    && co.Receiving? && FirstWake(events).Some?
    && !(co.asked.All? && FirstWake(events).value.Other?)
  }

  function HandedOver(s: State, events: seq<Event>): Bytes {
    if HandsOver(s.co, events) then Flatten(s.buf) else []
  }

  const NOTHING: Entry := Entry(Nothing(Closed), [])

  /** Every answer from the `from`-th on is nil and "closed". */
  ghost predicate NothingFrom(log: seq<Entry>, from: nat) {
    forall i :: from <= i < |log| ==> log[i] == NOTHING
  }

  /** An ended socket whose coroutine does not wait in `receive`. */
  predicate Ended(s: State) {
    !s.sock && !s.co.Receiving?
  }

  lemma ResumedSend(s: State, err: Option<Reason>)
    requires CanResume(s) && s.co.Sending?
    ensures Resume(s, err) == Stop(s).(co := Running)
  {
  }

  lemma EndedStep(s: State, event: Event)
    requires Inv(s) && Enabled(s, event) && Ended(s)
    ensures var s' := Next(s, event);
            && Ended(s') && s'.buf == s.buf
            && s'.log == if event.Receive? then s.log + [NOTHING] else s.log
  {
    hide Resume, TryRead;
    match event
    case Receive(asked, prefix) => assert Received(s.(calls := s.calls + 1), asked, prefix).log == s.log + [NOTHING];
    case WriteDone(_) => ResumedSend(s, None);
    case CloseDone =>
      if s.wait != {} {
        ResumedSend(s.(closing := false), Some(Closed));
      }
    case Interrupt(reason) =>
      if s.wait != {} {
        ResumedSend(s, Some(reason));
      }
    case _ =>
  }

  lemma {:induction false} EndedRun(s: State, events: seq<Event>)
    requires Inv(s) && IsRun(s, events) && Ended(s)
    ensures var s' := Final(s, events);
            && Ended(s') && s'.buf == s.buf && s.log <= s'.log && NothingFrom(s'.log, |s.log|)
            && TakenOf(s'.log) == TakenOf(s.log)
    decreases |events|
  {
    if events != [] {
      var s1 := Next(s, events[0]);
      StepHolds(s, events[0]);
      EndedStep(s, events[0]);
      EndedRun(s1, events[1..]);
      TakenOfNothing(s.log);
    }
  }

  lemma TakenOfNothing(log: seq<Entry>)
    ensures TakenOf(log + [NOTHING]) == TakenOf(log)
  {
    assert (log + [NOTHING])[..|log|] == log;
    ConcatEmpty(TakenOf(log));
  }

  /** A step of an ended socket whose coroutine still waits in `receive`: it is not woken, or gives up. */
  lemma WaitingStep(s: State, event: Event)
    requires Inv(s) && Enabled(s, event) && !s.sock && s.co.Receiving?
    ensures FirstWake([event]).None? ==>
              var s' := Next(s, event);
              !s'.sock && s'.co == s.co && s'.buf == s.buf && s'.log == s.log
    ensures FirstWake([event]).Some? ==>
              Next(s, event) == GiveUp(if event.CloseDone? then s.(closing := false) else s, FirstWake([event]).value)
  {
    hide GiveUp, TryRead;
    assert [event][1..] == [];
  }

  /** Between `s` and `s'` the bytes `handed` were answered, by the first `answers` answers; any other answer
      is nil and "closed". */
  ghost predicate Answers(s: State, s': State, handed: Bytes, answers: nat) {
    && s.log <= s'.log && NothingFrom(s'.log, |s.log| + answers)
    && TakenOf(s'.log) == TakenOf(s.log) + handed
    && handed + Flatten(s'.buf) == Flatten(s.buf)
  }

  predicate Keeps(s: State, err: Reason) {
    s.co.Receiving? && s.co.asked.All? && err.Other?
  }

  lemma OneAnswer(s: State, s': State, entry: Entry)
    requires s'.log == s.log + [entry] && entry.taken + Flatten(s'.buf) == Flatten(s.buf)
    ensures Answers(s, s', entry.taken, 1)
  {
    assert s'.log[..|s.log|] == s.log;
  }

  /** The answer of a `receive` that gives up. */
  function LastAnswer(s: State, err: Reason): Answer
    requires s.co.Receiving?
  {
    if Keeps(s, err) then Nothing(err)
    else if s.co.asked.All? && err.Closed? then Everything(Flatten(s.buf))
    else Partial(err, Flatten(s.buf))
  }

  lemma GiveUpAnswers(s: State, err: Reason)
    requires s.co.Receiving?
    ensures Keeps(s, err) ==> GiveUp(s, err) == Answered(Stop(s), LastAnswer(s, err), [], s.buf)
    ensures !Keeps(s, err) ==> GiveUp(s, err) == Answered(Stop(s), LastAnswer(s, err), Flatten(s.buf), [])
  {
    hide Answered, Stop, Flatten;
  }

  lemma GivenUp(s: State, err: Reason)
    requires s.co.Receiving?
    ensures var s' := GiveUp(s, err);
            && s'.co.Running? && s'.sock == s.sock
            && s'.log == s.log + [Entry(LastAnswer(s, err), if Keeps(s, err) then [] else Flatten(s.buf))]
            && s'.buf == (if Keeps(s, err) then s.buf else [])
  {
    hide Flatten, GiveUp, LastAnswer, Keeps;
    GiveUpAnswers(s, err);
  }

  lemma GaveUp(s: State, err: Reason)
    requires s.co.Receiving? && !s.sock
    ensures var s' := GiveUp(s, err);
            && Ended(s') && |s'.log| == |s.log| + 1
            && Answers(s, s', if Keeps(s, err) then [] else Flatten(s.buf), 1)
  {
    hide Answers, Flatten, GiveUp, Keeps, LastAnswer;
    var s' := GiveUp(s, err);
    GivenUp(s, err);
    ConcatEmpty(Flatten(s.buf));
    if !Keeps(s, err) {
      AllTaken(s, s');
    }
    OneAnswer(s, s', Entry(LastAnswer(s, err), if Keeps(s, err) then [] else Flatten(s.buf)));
  }

  lemma AllTaken(s: State, s': State)
    requires s'.buf == []
    ensures Flatten(s.buf) + Flatten(s'.buf) == Flatten(s.buf)
  {
  }

  lemma AnswersThenNothing(s: State, s1: State, s2: State, handed: Bytes)
    requires Answers(s, s1, handed, 1) && |s1.log| == |s.log| + 1
    requires s2.buf == s1.buf && s1.log <= s2.log && NothingFrom(s2.log, |s1.log|) && TakenOf(s2.log) == TakenOf(s1.log)
    ensures Answers(s, s2, handed, 1)
  {
  }

  lemma NoAnswer(s: State)
    ensures Answers(s, s, [], 1)
  {
    ConcatEmpty(TakenOf(s.log));
    ConcatEmpty(Flatten(s.buf));
  }

  lemma FirstWakeIs(events: seq<Event>)
    requires events != []
    ensures FirstWake(events) == if FirstWake([events[0]]).Some? then FirstWake([events[0]]) else FirstWake(events[1..])
  {
    assert [events[0]][0] == events[0] && [events[0]][1..] == [];
  }

  lemma {:induction false} WaitingRun(s: State, events: seq<Event>)
    requires Inv(s) && IsRun(s, events) && !s.sock && s.co.Receiving?
    ensures Answers(s, Final(s, events), HandedOver(s, events), 1)
    decreases |events|
  {
    if events == [] {
      NoAnswer(s);
    } else {
      FirstWakeIs(events);
      StepHolds(s, events[0]);
      WaitingStep(s, events[0]);
      if FirstWake([events[0]]).Some? {
        WokenRun(s, events);
      } else {
        WaitingRun(Next(s, events[0]), events[1..]);
        hide Inv, Next, Flatten, TakenOf, Enabled, NothingFrom, FirstWake;
      }
    }
  }

  lemma WokenRun(s: State, events: seq<Event>)
    requires Inv(s) && IsRun(s, events) && events != [] && !s.sock && s.co.Receiving?
    requires FirstWake([events[0]]).Some? && FirstWake(events) == FirstWake([events[0]])
    ensures Answers(s, Final(s, events), HandedOver(s, events), 1)
  {
    var s0 := if events[0].CloseDone? then s.(closing := false) else s;
    var err := FirstWake(events).value;
    var s1 := Next(s, events[0]);
    StepHolds(s, events[0]);
    WaitingStep(s, events[0]);
    assert Final(s, events) == Final(s1, events[1..]);
    hide Inv, Next, GiveUp, Flatten, TakenOf, Enabled, NothingFrom, FirstWake, Answers;
    GaveUp(s0, err);
    EndedRun(s1, events[1..]);
    AnswersThenNothing(s0, s1, Final(s1, events[1..]), HandedOver(s, events));
    SameStart(s0, s, Final(s1, events[1..]), HandedOver(s, events));
  }

  lemma SameStart(s: State, t: State, s': State, handed: Bytes)
    requires Answers(s, s', handed, 1) && t.log == s.log && t.buf == s.buf
    ensures Answers(t, s', handed, 1)
  {
  }

  /** From the end of a socket on, whatever happens: nothing more is delivered, the bytes buffered at that
      moment are answered exactly if the coroutine was suspended in `receive` and is woken, and otherwise no
      call ever returns them; every answer but the one of that suspended call is nil and "closed". */
  lemma BytesAtTheEnd(s0: State, before: seq<Event>, after: seq<Event>)
    requires Init(s0) && IsRun(s0, before)
    requires IsRun(Final(s0, before), after) && !Final(s0, before).sock
    ensures var s := Final(s0, before);
            var s' := Final(s, after);
            && DeliveredBy(after) == [] && !s'.sock
            && TakenOf(s'.log) == TakenOf(s.log) + HandedOver(s, after)
            && HandedOver(s, after) + Flatten(s'.buf) == Flatten(s.buf)
            && s.log <= s'.log && NothingFrom(s'.log, |s.log| + if s.co.Receiving? then 1 else 0)
  {
    RunHolds(s0, before);
    var s := Final(s0, before);
    ClosedStaysClosed(s, after);
    if s.co.Receiving? {
      WaitingRun(s, after);
    } else {
      EndedRun(s, after);
      ConcatEmpty(TakenOf(s.log));
      ConcatEmpty(Flatten(s.buf));
    }
  }

  // ----- The prefix of receive("*a") -----

  function WithoutPrefix(event: Event): Event {
    if event.Receive? && event.asked.All? then Event.Receive(All, None) else event
  }

  function AllWithoutPrefix(events: seq<Event>): seq<Event> {
    if events == [] then [] else [WithoutPrefix(events[0])] + AllWithoutPrefix(events[1..])
  }

  function Forgotten(s: State): State {
    if WaitsForAll(s.co) then s.(co := Receiving(All, None)) else s
  }

  predicate WaitsForAll(co: Co) {
    co.Receiving? && co.asked.All?
  }

  lemma TriedCo(s: State)
    requires s.co.Receiving? && !AlreadyThere(s.co.asked, s.co.prefix) && NoEmptyChunk(s.buf)
    ensures TryRead(s).co == s.co || TryRead(s).co.Running?
  {
    hide ReadAs, Taken, NoEmptyChunk;
  }

  /** A resumed coroutine is where it was, or in its own code. */
  lemma ResumedCo(s: State, err: Option<Reason>)
    requires CanResume(s)
    ensures Resume(s, err).co == s.co || Resume(s, err).co.Running?
  {
    hide TryRead, Flatten, NoEmptyChunk;
    if s.co.Receiving? {
      TriedCo(s);
    }
  }

  lemma ForgottenGiveUp(s: State, err: Reason)
    requires WaitsForAll(s.co)
    ensures GiveUp(Forgotten(s), err) == GiveUp(s, err) && GiveUp(s, err).co.Running?
  {
    hide Flatten;
  }

  lemma ForgottenResume(s: State, err: Option<Reason>)
    requires CanResume(s)
    ensures CanResume(Forgotten(s)) && Resume(Forgotten(s), err) == Forgotten(Resume(s, err))
  {
    hide GiveUp, TryRead, NoEmptyChunk;
    ResumedCo(s, err);
    if WaitsForAll(s.co) {
      if err.Some? {
        ForgottenGiveUp(s, err.value);
        assert Resume(s, err) == GiveUp(s, err.value);
      }
    } else {
      hide Resume;
    }
  }

  lemma ForgottenReceive(s: State, asked: ReadPattern, prefix: Option<Bytes>)
    requires NoEmptyChunk(s.buf) && s.co.Running?
    ensures Received(s, asked, if asked.All? then None else prefix) == Forgotten(Received(s, asked, prefix))
  {
    hide Flatten, ReadAs, Taken;
  }

  /** Events that resume the coroutine. */
  lemma ForgottenWake(s: State, event: Event)
    requires CanResume(s) && Enabled(s, event) && (event.TimerFires? || event.WriteDone?)
    ensures Next(Forgotten(s), event) == Forgotten(Next(s, event))
  {
    hide Resume, NoEmptyChunk;
    if event.TimerFires? {
      ForgottenResume(s.(ticking := false), Some(TimedOut));
    } else {
      ForgottenResume(s, None);
    }
  }

  lemma ForgottenError(s: State, event: Event)
    requires CanResume(s) && Enabled(s, event) && (event.CloseDone? || event.Interrupt?)
    ensures Next(Forgotten(s), event) == Forgotten(Next(s, event))
  {
    hide Resume, NoEmptyChunk;
    if event.CloseDone? {
      ForgottenResume(s.(closing := false), Some(Closed));
    } else {
      ForgottenResume(s, Some(event.reason));
    }
  }

  lemma ForgottenOther(s: State, event: Event)
    requires CanResume(s) && Enabled(s, event) && !Wakes(event) && !event.Receive? && !event.Deliver?
    ensures Next(Forgotten(s), event) == Forgotten(Next(s, event))
  {
    hide Resume, Received, NoEmptyChunk;
  }

  lemma ForgottenStored(s: State, data: Bytes)
    ensures Stored(Forgotten(s), data) == Forgotten(Stored(s, data))
  {
    hide LineLaws.Appended;
  }

  lemma ForgottenDeliver(s: State, data: Bytes)
    requires CanResume(s)
    ensures Next(Forgotten(s), Deliver(data)) == Forgotten(Next(s, Deliver(data)))
  {
    LineLaws.AppendedBytes(s.buf, data);
    ForgottenStored(s, data);
    assert CanResume(Stored(s, data));
    hide Resume, Stored;
    ForgottenResume(Stored(s, data), None);
  }

  lemma ForgottenEnabled(s: State, event: Event)
    requires CanResume(s) && Enabled(s, event)
    ensures CanResume(Forgotten(s)) && Enabled(Forgotten(s), WithoutPrefix(event))
    ensures event.Receive? ==> Forgotten(s) == s
  {
    hide NoEmptyChunk;
  }

  lemma ForgottenStep(s: State, event: Event)
    requires CanResume(s) && Enabled(s, event)
    ensures CanResume(Forgotten(s)) && Enabled(Forgotten(s), WithoutPrefix(event))
    ensures Next(Forgotten(s), WithoutPrefix(event)) == Forgotten(Next(s, event))
  {
    ForgottenEnabled(s, event);
    hide Next, Resume, NoEmptyChunk, Enabled, CanResume, Forgotten;
    if event.Receive? {
      ForgottenReceive(s.(calls := s.calls + 1), event.asked, event.prefix);
      NextReceive(s, event.asked, event.prefix);
      NextReceive(s, event.asked, if event.asked.All? then None else event.prefix);
    } else if event.Deliver? {
      ForgottenDeliver(s, event.data);
    } else if event.TimerFires? || event.WriteDone? {
      ForgottenWake(s, event);
    } else if event.CloseDone? || event.Interrupt? {
      ForgottenError(s, event);
    } else {
      ForgottenOther(s, event);
    }
  }

  /** `receive("*a")` never looks at its prefix: any run, and the same run with those prefixes left out, give
      the same answers and leave the same bytes. */
  lemma {:induction false} AllIgnoresPrefix(s: State, events: seq<Event>)
    requires IsRun(s, events)
    ensures IsRun(Forgotten(s), AllWithoutPrefix(events))
    ensures var s', s'' := Final(s, events), Final(Forgotten(s), AllWithoutPrefix(events));
            s'' == Forgotten(s') && s''.log == s'.log && s''.buf == s'.buf
    decreases |events|
  {
    if events != [] {
      ForgottenStep(s, events[0]);
      AllIgnoresPrefix(Next(s, events[0]), events[1..]);
      assert AllWithoutPrefix(events)[1..] == AllWithoutPrefix(events[1..]);
    }
  }
}

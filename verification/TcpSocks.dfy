/** The class `TcpSock` of luasocket.lua, as far as `receive` needs it. A call that suspends the coroutine
    is cut at its yields: `co` says where it stands, `Resume` runs it to its next yield or to its return,
    and a method gives back the answer of `receive` if one was reached. */
module TcpSocks {
  import opened Wrappers
  import opened LuaStrings
  import opened ChunkLists
  import opened BufferOps
  import LineLaws
  import opened TcpSystem
  import TcpTheorems
  import Buffers

  class TcpSock {
    const buf: Buffers.Buffer
    var sock: bool
    var timer: bool
    var ticking: bool
    var timeout: bool
    var wait: set<Flag>
    var co: Co
    var closing: bool
    ghost var dropped: bool
    ghost var delivered: Bytes
    ghost var log: seq<Entry>
    ghost var calls: nat

    ghost predicate Usable()
      reads this, buf, buf.lst
    {
      buf.Valid() && buf.Terminator() == EOL
    }

    ghost function View(): (s: State)
      reads this, buf, buf.lst
      requires Usable()
      ensures NoEmptyChunk(s.buf)
    {
      State(sock, timer, ticking, timeout, wait, co, buf.Chunks(), closing, dropped, delivered, log, calls, false)
    }

    ghost predicate Valid()
      reads this, buf, buf.lst
    {
      Usable() && Inv(View())
    }

    /** A connected socket that is being read. */
    constructor ()
      ensures Valid() && Init(View()) && fresh(buf) && fresh(buf.lst)
    {
      buf := new Buffers.Buffer(CR_STAR_LF, true);
      sock, timer, ticking, timeout, wait, co := true, true, false, false, {}, Running;
      closing, dropped, delivered, log, calls := false, false, [], [], 0;
    }

    /** `_waiting`. */
    method Waiting(flag: Option<Flag>) returns (b: bool)
      ensures b <==> if flag.Some? then flag.value in wait else wait != {}
    {
      b := if flag.Some? then flag.value in wait else wait != {};
    }

    /** `_start`, with its assertions. */
    method Start(flag: Flag)
      requires Usable() && wait == {} && (timeout ==> timer)
      modifies this`ticking, this`wait
      ensures Usable() && View() == TcpSystem.Start(old(View()), flag)
    {
      if timeout {
        assert timer;
        ticking := true;
      }
      assert wait == {};
      wait := wait + {flag};
    }

    /** `_stop`. */
    method Stop()
      requires Usable()
      modifies this`ticking, this`wait
      ensures Usable() && View() == TcpSystem.Stop(old(View()))
    {
      if timer {
        ticking := false;
      }
      wait := {};
    }

    /** `receive` returns. */
    method Return(answer: Answer, ghost taken: Bytes, ghost s: State)
      requires Usable() && View() == s.(buf := buf.Chunks())
      modifies this`co, this`log
      ensures Usable() && View() == Answered(s, answer, taken, buf.Chunks())
    {
      co := Running;
      log := log + [Entry(answer, taken)];
    }

    /** One turn of the loop of `receive`: read what is wanted, return it or yield. */
    method TryRead() returns (answer: Option<Answer>)
      requires Usable() && co.Receiving? && !AlreadyThere(co.asked, co.prefix)
      modifies this`ticking, this`wait, this`co, this`log, buf`size, buf.lst
      ensures Usable() && View() == TcpSystem.TryRead(old(View()))
      ensures Told(answer, old(log), log)
    {
      ghost var s := View();
      var asked, prefix := co.asked, co.prefix;
      var pat := Wanted(asked, prefix);
      var msg := buf.Read(pat);
      if msg.None? {
        return None;
      }
      Stop();
      answer := Some(Message(asked, prefix, Given(prefix) + msg.value));
      Return(answer.value, Taken(pat, EOL, s.buf), TcpSystem.Stop(s));
    }

    method TakeAll() returns (all: Bytes)
      requires Usable()
      modifies this`ticking, this`wait, buf`size, buf.lst
      ensures Usable() && buf.Chunks() == [] && all == Flatten(old(buf.Chunks()))
      ensures View() == TcpSystem.Stop(old(View())).(buf := [])
    {
      Stop();
      all := buf.ReadAll();
    }

    /** `_stop`, then return what is buffered: as everything there is, or as a part with an error. */
    method ReturnAll(err: Option<Reason>) returns (answer: Answer)
      requires Usable()
      modifies this`ticking, this`wait, this`co, this`log, buf`size, buf.lst
      ensures Usable()
      ensures var all := Flatten(old(buf.Chunks()));
              && answer == (if err.Some? then Partial(err.value, all) else Everything(all))
              && View() == Answered(TcpSystem.Stop(old(View())), answer, all, [])
      ensures Told(Some(answer), old(log), log)
    {
      ghost var s := View();
      var all := TakeAll();
      answer := if err.Some? then Partial(err.value, all) else Everything(all);
      Return(answer, all, TcpSystem.Stop(s));
    }

    /** `receive` is resumed with an error. */
    method GiveUp(err: Reason) returns (answer: Answer)
      requires Usable() && co.Receiving?
      modifies this`ticking, this`wait, this`co, this`log, buf`size, buf.lst
      ensures Usable() && View() == TcpSystem.GiveUp(old(View()), err)
      ensures Told(Some(answer), old(log), log)
    {
      ghost var s := View();
      if !co.asked.All? || err.TimedOut? {
        answer := ReturnAll(Some(err));
      } else if err.Closed? {
        answer := ReturnAll(None);
      } else {
        Stop();
        answer := Nothing(err);
        Return(answer, [], TcpSystem.Stop(s));
      }
    }

    /** `_resume`: None stands for `true`. */
    method Resume(err: Option<Reason>) returns (answer: Option<Answer>)
      requires Usable() && !co.Running? && CanResume(View())
      modifies this`ticking, this`wait, this`co, this`log, buf`size, buf.lst
      ensures Usable() && View() == TcpSystem.Resume(old(View()), err)
      ensures Told(answer, old(log), log)
    {
      answer := None;
      if co.Sending? {
        Stop();
        co := Running;
      } else if err.Some? {
        var a := GiveUp(err.value);
        answer := Some(a);
      } else if !co.asked.All? {
        answer := TryRead();
      }
    }

    // ----- The events -----

    method SetTimeout(on: bool)
      requires Valid()
      modifies this`timeout
      ensures Valid() && View() == Next(old(View()), Event.SetTimeout(on))
    {
      TcpTheorems.StepHolds(View(), Event.SetTimeout(on));
      timeout := on;
    }

    /** `receive`, up to its first yield or its return. */
    method Receive(asked: ReadPattern, prefix: Option<Bytes>) returns (answer: Option<Answer>)
      requires Valid() && co.Running?
      modifies this`ticking, this`wait, this`co, this`log, this`calls, buf`size, buf.lst
      ensures Valid() && View() == Next(old(View()), Event.Receive(asked, prefix))
      ensures Told(answer, old(log), log)
    {
      TcpTheorems.StepHolds(View(), Event.Receive(asked, prefix));
      calls := calls + 1;
      answer := Enter(asked, prefix);
    }

    method Enter(asked: ReadPattern, prefix: Option<Bytes>) returns (answer: Option<Answer>)
      requires Usable() && wait == {} && (sock ==> timer)
      modifies this`ticking, this`wait, this`co, this`log, buf`size, buf.lst
      ensures Usable() && View() == Received(old(View()), asked, prefix)
      ensures Told(answer, old(log), log)
    {
      if !sock {
        answer := Some(Nothing(Closed));
        Return(answer.value, [], View());
        return;
      }
      if AlreadyThere(asked, prefix) {
        answer := Some(PrefixOnly(asked.n, prefix.value));
        Return(answer.value, [], View());
        return;
      }
      answer := Await(asked, prefix);
    }

    method Await(asked: ReadPattern, prefix: Option<Bytes>) returns (answer: Option<Answer>)
      requires Usable() && wait == {} && (timeout ==> timer) && !AlreadyThere(asked, prefix)
      modifies this`ticking, this`wait, this`co, this`log, buf`size, buf.lst
      ensures Usable()
      ensures View() == Waited(old(View()), asked, prefix)
      ensures Told(answer, old(log), log)
    {
      Start(READ);
      co := Receiving(asked, prefix);
      answer := None;
      if !asked.All? {
        answer := TryRead();
      }
    }

    /** `send`, up to its yield; returns whether it got that far. */
    method Send() returns (sending: bool)
      requires Valid() && co.Running?
      modifies this`ticking, this`wait, this`co
      ensures Valid() && View() == Next(old(View()), Event.Send) && sending == sock
    {
      TcpTheorems.StepHolds(View(), Event.Send);
      if !sock {
        return false;
      }
      Start(WRITE);
      co := Sending;
      return true;
    }

    /** `_on_io_error` with an error. */
    method OnIoError()
      requires Usable() && (sock ==> timer)
      modifies this`sock, this`timer, this`ticking, this`closing
      ensures Usable() && View() == IoError(old(View()))
    {
      if !sock {
        return;
      }
      closing := true;
      assert timer;
      ticking := false;
      sock, timer := false, false;
    }

    /** The callback given to `start_read`, with data. */
    method OnRead(data: Bytes) returns (answer: Option<Answer>)
      requires Valid() && sock
      modifies this`ticking, this`wait, this`co, this`log, this`delivered, buf`size, buf.lst
      ensures Valid() && View() == Next(old(View()), Deliver(data))
      ensures Told(answer, old(log), log)
    {
      ghost var s := View();
      TcpTheorems.StepHolds(s, Deliver(data));
      LineLaws.AppendedBytes(s.buf, data);
      buf.Append(data);
      delivered := delivered + data;
      assert View() == Stored(s, data);
      answer := None;
      var reading := Waiting(Some(READ));
      if reading {
        answer := Resume(None);
      }
    }

    /** The callback given to `start_read`, with an error. */
    method OnReadError()
      requires Valid() && sock
      modifies this`sock, this`timer, this`ticking, this`closing
      ensures Valid() && View() == Next(old(View()), ReadFails)
    {
      TcpTheorems.StepHolds(View(), ReadFails);
      OnIoError();
    }

    /** The callback of the timer. */
    method OnTimer() returns (answer: Option<Answer>)
      requires Valid() && ticking
      modifies this`ticking, this`wait, this`co, this`log, buf`size, buf.lst
      ensures Valid() && View() == Next(old(View()), TimerFires)
      ensures Told(answer, old(log), log)
    {
      TcpTheorems.StepHolds(View(), TimerFires);
      ticking := false;
      answer := Resume(Some(TimedOut));
    }

    /** The callback of the write that `send` waits for. */
    method OnWrite(failed: bool)
      requires Valid() && co.Sending?
      modifies this`sock, this`timer, this`ticking, this`closing, this`wait, this`co, this`log, buf`size, buf.lst
      ensures Valid() && View() == Next(old(View()), WriteDone(failed))
    {
      TcpTheorems.StepHolds(View(), WriteDone(failed));
      if failed {
        OnIoError();
      } else {
        var _ := Resume(None);
      }
    }

    /** The callback given to `close` by `_on_io_error`. */
    method OnClosed() returns (answer: Option<Answer>)
      requires Valid() && closing
      modifies this`closing, this`ticking, this`wait, this`co, this`log, buf`size, buf.lst
      ensures Valid() && View() == Next(old(View()), CloseDone)
      ensures Told(answer, old(log), log)
    {
      TcpTheorems.StepHolds(View(), CloseDone);
      closing := false;
      answer := None;
      var waiting := Waiting(None);
      if waiting {
        answer := Resume(Some(Closed));
      }
    }

    /** `interrupt`, called by another coroutine. */
    method Interrupt(reason: Reason) returns (answer: Option<Answer>)
      requires Valid()
      modifies this`ticking, this`wait, this`co, this`log, buf`size, buf.lst
      ensures Valid() && View() == Next(old(View()), Event.Interrupt(reason))
      ensures Told(answer, old(log), log)
    {
      TcpTheorems.StepHolds(View(), Event.Interrupt(reason));
      answer := None;
      var waiting := Waiting(None);
      if waiting {
        answer := Resume(Some(reason));
      }
    }

    method Close()
      requires Valid()
      modifies this`sock, this`timer, this`ticking, this`dropped
      ensures Valid() && View() == Next(old(View()), Event.Close)
    {
      TcpTheorems.StepHolds(View(), Event.Close);
      dropped := dropped || sock;
      if timer {
        ticking := false;
      }
      sock, timer := false, false;
    }
  }

  /** The answer given back is the one that was logged. */
  ghost predicate Told(answer: Option<Answer>, log: seq<Entry>, log': seq<Entry>) {
    match answer
    case None => log' == log
    case Some(a) => |log'| == |log| + 1 && log'[|log|].answer == a
  }
}

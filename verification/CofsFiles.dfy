/** The positioned file reader of cofs.lua. Every read of the operating system may be short or fail, as
    a schedule decides; the coroutine yields are the reads themselves. */
module CofsFiles {
  import opened Wrappers
  import opened Seqs
  import opened LuaStrings

  const BUFFER_SIZE: nat := 4096

  /** How the i-th read of the operating system turns out: at most `n` bytes more than one, or an error. */
  datatype Outcome = Short(n: nat) | Fail(err: int)

  /** A chunk, nil at the end of the file, or nil and an error. */
  datatype ReadResult = Chunk(data: Bytes) | Eof | Error(err: int)

  /** `read_n` and `read_all`: bytes, nil, or nil with an error and the bytes read before it. */
  datatype CountResult = Got(data: Bytes) | NoData | Failed(err: int, partial: Bytes)

  /** The argument of `read_n`; `read_all` asks for math.huge bytes. */
  datatype Amount = Finite(n: nat) | Huge {
    predicate Positive() { Huge? || n > 0 }

    predicate Fits(size: nat) { Finite? && n <= size }

    function Least(size: nat): nat { if Huge? || size <= n then size else n }

    function Minus(size: nat): Amount
      requires Huge? || size <= n
    {
      if Huge? then Huge else Finite(n - size)
    }
  }

  // ----- What the readers mean: functions of the contents and the position only -----

  /** The part of the file from `pos` on; nothing when the position is past the end. */
  function From(file: Bytes, pos: nat): Bytes {
    if pos <= |file| then file[pos..] else []
  }

  /** The line at `pos` and the position after its terminator. */
  function LineAt(file: Bytes, pos: nat, eol: Bytes, keep: bool): (Option<Bytes>, nat) {
    var rest := From(file, pos);
    match Find(Plain(eol), rest)
    case Some(m) => (Some(rest[..if keep then m.stop else m.start]), pos + m.stop)
    case None => if rest == [] then (None, pos) else (Some(rest), |file|)
  }

  /** The first `n` bytes at `pos`, or as many as there are. */
  function BytesAt(file: Bytes, pos: nat, n: Amount): Bytes {
    var rest := From(file, pos);
    rest[..n.Least(|rest|)]
  }

  /** Reading lines one after the other reads the pieces of the rest of the file. */
  lemma LineAtIsFirstPiece(file: Bytes, pos: nat, eol: Bytes)
    requires eol != []
    ensures var (line, next) := LineAt(file, pos, eol, false);
            && (line.None? <==> pos >= |file|)
            && (line.None? ==> next == pos && Pieces(Plain(eol), From(file, pos)) == [])
            && (line.Some? ==> pos < next <= |file|)
            && (line.Some? ==>
                  Pieces(Plain(eol), From(file, pos)) == [line.value] + Pieces(Plain(eol), From(file, next)))
  {
    if From(file, pos) == [] {
      NothingInNothing(eol);
    } else if Find(Plain(eol), From(file, pos)).Some? {
      LineInside(file, pos, eol);
    } else {
      assert From(file, |file|) == [];
      NothingLeft(Plain(eol), From(file, pos));
    }
  }

  lemma LineInside(file: Bytes, pos: nat, eol: Bytes)
    requires eol != [] && From(file, pos) != [] && Find(Plain(eol), From(file, pos)).Some?
    ensures var (line, next) := LineAt(file, pos, eol, false);
            && line.Some? && pos < next <= |file|
            && Pieces(Plain(eol), From(file, pos)) == [line.value] + Pieces(Plain(eol), From(file, next))
  {
  }

  lemma NothingLeft(e: Eol, rest: Bytes)
    requires e.Proper() && rest != [] && Find(e, rest).None?
    ensures Pieces(e, rest) == [rest] + Pieces(e, [])
  {
  }

  /** A line read with its terminator is the line read without it, and the terminator if there is one; both
      leave the position at the same place. */
  lemma KeptLineIsLine(file: Bytes, pos: nat, eol: Bytes)
    requires eol != []
    ensures var (kept, next), (line, next') := LineAt(file, pos, eol, true), LineAt(file, pos, eol, false);
            && next == next' && (kept.None? <==> line.None?)
            && (line.Some? ==>
                  kept.value == line.value + if Find(Plain(eol), From(file, pos)).Some? then eol else [])
  {
    var rest := From(file, pos);
    var found := Find(Plain(eol), rest);
    if found.Some? {
      PlainMatchIsSep(eol, rest, found.value);
      CutInFirst(rest[..found.value.start] + eol, rest[found.value.stop..], found.value.stop);
      Assoc(rest[..found.value.start], eol, rest[found.value.stop..]);
    }
  }

  /** The bytes from `pos` to the lesser of `pos` + n and the end of the file. */
  lemma BytesAtIs(file: Bytes, pos: nat, amount: Amount)
    ensures amount.Huge? ==> BytesAt(file, pos, amount) == if pos <= |file| then file[pos..] else []
    ensures amount.Finite? && pos <= |file| ==>
              BytesAt(file, pos, amount) == file[pos..if pos + amount.n <= |file| then pos + amount.n else |file|]
    ensures pos > |file| ==> BytesAt(file, pos, amount) == []
  {
  }

  /** Lines read with their terminators tile the file: nothing is skipped or read twice. */
  lemma KeptLinesTile(file: Bytes, pos: nat, eol: Bytes)
    requires eol != []
    ensures var (line, next) := LineAt(file, pos, eol, true);
            line.Some? ==> pos < next <= |file| && line.value == file[pos..next]
  {
  }

  /** The reads from the `from`-th on, up to the `to`-th: none failed, or only the last one, with this error. */
  ghost predicate Went(schedule: nat -> Outcome, from: nat, to: nat, err: Option<int>) {
    && from <= to
    && (err.Some? ==> from < to && schedule(to - 1) == Fail(err.value))
    && forall i :: from <= i < (if err.Some? then to - 1 else to) ==> schedule(i).Short?
  }

  lemma NoReadYet(schedule: nat -> Outcome, from: nat)
    ensures Went(schedule, from, from, None)
  {
  }

  lemma OneReadMore(schedule: nat -> Outcome, from: nat, to: nat)
    requires Went(schedule, from, to, None)
    ensures schedule(to).Short? ==> Went(schedule, from, to + 1, None)
    ensures schedule(to).Fail? ==> Went(schedule, from, to + 1, Some(schedule(to).err))
  {
  }

  class File {
    const file: Bytes
    const eol: Bytes
    const schedule: nat -> Outcome
    var pos: nat
    var calls: nat

    constructor (file: Bytes, eol: Bytes, schedule: nat -> Outcome)
      ensures this.file == file && this.eol == eol && this.schedule == schedule && pos == 0
    {
      this.file, this.eol, this.schedule := file, eol, schedule;
      pos, calls := 0, 0;
    }

    /** No read of this file ever fails. */
    ghost predicate Clean() {
      forall i: nat :: schedule(i).Short?
    }

    /** `_read_some`: one read at the current position, which moves by what arrived. */
    method ReadSome(n: nat := BUFFER_SIZE) returns (r: ReadResult)
      requires n <= BUFFER_SIZE
      modifies this
      ensures r.Chunk? ==> && 1 <= |r.data| <= n && pos == old(pos) + |r.data| <= |file|
                           && r.data == file[old(pos)..pos]
      ensures !r.Chunk? ==> pos == old(pos)
      ensures r.Eof? ==> n == 0 || pos >= |file|
      ensures calls == old(calls) + 1
      ensures r.Error? <==> schedule(old(calls)).Fail?
      ensures r.Error? ==> schedule(old(calls)) == Fail(r.err)
    {
      var outcome := schedule(calls);
      calls := calls + 1;
      if outcome.Fail? {
        return Error(outcome.err);
      }
      var room := if pos < |file| then |file| - pos else 0;
      var most := if n < room then n else room;
      var size := if most <= outcome.n + 1 then most else outcome.n + 1;
      if size == 0 {
        return Eof;
      }
      r := Chunk(file[pos..pos + size]);
      pos := pos + size;
    }

    /** Up to one buffer, `read_n` is a single read and may come back short. Above it, and for
        `read_all`, it loops until it has everything. */
    method ReadN(amount: Amount) returns (r: CountResult)
      modifies this
      ensures amount.Fits(BUFFER_SIZE) && r.Got? ==>
                1 <= |r.data| && r.data <= BytesAt(file, old(pos), amount) && pos == old(pos) + |r.data|
      ensures amount.Fits(BUFFER_SIZE) && r.NoData? ==> BytesAt(file, old(pos), amount) == [] && pos == old(pos)
      ensures amount.Fits(BUFFER_SIZE) && r.Failed? ==> r.partial == [] && pos == old(pos)
      ensures !amount.Fits(BUFFER_SIZE) ==>
                match r
                case Got(data) => data != [] && data == BytesAt(file, old(pos), amount) && pos == old(pos) + |data|
                case NoData => BytesAt(file, old(pos), amount) == [] && pos == old(pos)
                case Failed(_, partial) => partial <= BytesAt(file, old(pos), amount) && pos == old(pos) + |partial|
      ensures Went(schedule, old(calls), calls, if r.Failed? then Some(r.err) else None)
      ensures Clean() ==> !r.Failed?
    {
      if amount.Fits(BUFFER_SIZE) {
        var one := ReadSome(amount.n);
        match one {
          case Chunk(data) => return Got(data);
          case Eof => return NoData;
          case Error(err) => return Failed(err, []);
        }
      }
      r := Gather(amount);
    }

    /** The loop of `read_n`. */
    method Gather(amount: Amount) returns (r: CountResult)
      requires amount.Positive()
      modifies this
      ensures match r
              case Got(data) => data != [] && data == BytesAt(file, old(pos), amount) && pos == old(pos) + |data|
              case NoData => BytesAt(file, old(pos), amount) == [] && pos == old(pos)
              case Failed(_, partial) => partial <= BytesAt(file, old(pos), amount) && pos == old(pos) + |partial|
      ensures Went(schedule, old(calls), calls, if r.Failed? then Some(r.err) else None)
      ensures Clean() ==> !r.Failed?
    {
      hide From, BytesAt, Went;
      NoReadYet(schedule, calls);
      var left := amount;
      var res: Bytes := [];
      SoFarStart(file, pos);
      while left.Positive()
        invariant left.Huge? == amount.Huge?
        invariant amount.Finite? ==> |res| <= amount.n && left.n == amount.n - |res|
        invariant SoFar(file, old(pos), pos, res) && Went(schedule, old(calls), calls, None)
        decreases |file| - pos
      {
        OneReadMore(schedule, old(calls), calls);
        var chunk := ReadSome(left.Least(BUFFER_SIZE));
        match chunk {
          case Error(err) =>
            PartOfBytesAt(file, old(pos), amount, res);
            return Failed(err, res);
          case Eof => break;
          case Chunk(data) =>
            SoFarMore(file, old(pos), res, data);
            left := left.Minus(|data|);
            res := res + data;
        }
      }
      AllOfBytesAt(file, old(pos), amount, res);
      if res == [] {
        return NoData;
      }
      return Got(res);
    }

    method ReadAll() returns (r: CountResult)
      modifies this
      ensures match r
              case Got(data) => data != [] && data == From(file, old(pos)) && pos == |file|
              case NoData => From(file, old(pos)) == [] && pos == old(pos)
              case Failed(_, partial) => partial <= From(file, old(pos)) && pos == old(pos) + |partial|
      ensures Went(schedule, old(calls), calls, if r.Failed? then Some(r.err) else None)
      ensures Clean() ==> !r.Failed?
    {
      r := ReadN(Huge);
    }

    /** The line ends inside `res`; the position goes back over the bytes after it. */
    method Rewind(ghost start: nat, res: Bytes, i: Match, keep: bool) returns (r: ReadResult)
      requires SoFar(file, start, pos, res) && Find(Plain(eol), res) == Some(i)
      modifies this`pos
      ensures r.Chunk? && (Some(r.data), pos) == LineAt(file, start, eol, keep)
    {
      LineInPrefix(file, start, eol, keep, res);
      var rest := |res| - (i.start + |eol|);
      pos := pos - rest;
      r := Chunk(res[..if keep then i.start + |eol| else i.start]);
    }

    /** `read_line`: reads chunk after chunk until the terminator shows up, then moves the position back
        to just after it. After an error the bytes read so far are gone, but they held no terminator. */
    method ReadLine(keep: bool := false) returns (r: ReadResult)
      requires eol != []
      modifies this
      ensures r.Chunk? ==> (Some(r.data), pos) == LineAt(file, old(pos), eol, keep)
      ensures r.Eof? ==> (None, pos) == LineAt(file, old(pos), eol, keep)
      ensures r.Error? ==> old(pos) <= pos && (old(pos) < pos ==> pos <= |file|)
                           && (pos <= |file| ==> Find(Plain(eol), file[old(pos)..pos]).None?)
      ensures Went(schedule, old(calls), calls, if r.Error? then Some(r.err) else None)
      ensures Clean() ==> !r.Error?
    {
      var res: Bytes := [];
      NothingInNothing(eol);
      hide LineAt, MatchAt, Leftmost, NoMatch, Find, From, Went;
      NoReadYet(schedule, calls);
      SoFarStart(file, pos);
      while true
        invariant SoFar(file, old(pos), pos, res) && Went(schedule, old(calls), calls, None)
        invariant Find(Plain(eol), res).None?
        decreases |file| - pos
      {
        OneReadMore(schedule, old(calls), calls);
        var chunk := ReadSome();
        if chunk.Error? {
          SoFarIs(file, old(pos), pos, res);
          return chunk;
        }
        if chunk.Eof? {
          SoFarIs(file, old(pos), pos, res);
          LineAtEnd(file, old(pos), eol, keep);
          return if |res| > 0 then Chunk(res) else Eof;
        }
        SoFarMore(file, old(pos), res, chunk.data);
        res := res + chunk.data;
        var i := Find(Plain(eol), res);
        if i.Some? {
          r := Rewind(old(pos), res, i.value, keep);
          return;
        }
      }
    }

    /** The generic `for line in file:lines()` loop. */
    method Lines() returns (lines: seq<Bytes>)
      requires eol != []
      modifies this
      ensures lines <= Pieces(Plain(eol), From(file, old(pos)))
      ensures Clean() ==> lines == Pieces(Plain(eol), From(file, old(pos)))
      ensures Clean() ==> pos == if old(pos) <= |file| then |file| else old(pos)
    {
      lines := [];
      ConcatEmpty(Pieces(Plain(eol), From(file, pos)));
      hide From, Pieces, LineAt, Find;
      while true
        invariant old(pos) <= pos && (pos <= |file| || pos == old(pos))
        invariant lines + Pieces(Plain(eol), From(file, pos)) == Pieces(Plain(eol), From(file, old(pos)))
        decreases |file| - pos
      {
        LineAtIsFirstPiece(file, pos, eol);
        var line := ReadLine();
        if !line.Chunk? {
          return;
        }
        Assoc(lines, [line.data], Pieces(Plain(eol), From(file, pos)));
        lines := lines + [line.data];
      }
    }
  }

  /** `res` holds what was read from `start` up to `pos`. */
  predicate SoFar(file: Bytes, start: nat, pos: nat, res: Bytes) {
    pos == start + |res| && res <= From(file, start)
  }

  lemma SoFarStart(file: Bytes, pos: nat)
    ensures SoFar(file, pos, pos, [])
  {
  }

  lemma SoFarMore(file: Bytes, start: nat, res: Bytes, data: Bytes)
    requires SoFar(file, start, start + |res|, res) && start + |res| + |data| <= |file|
    requires data == file[start + |res|..start + |res| + |data|]
    ensures SoFar(file, start, start + |res| + |data|, res + data)
  {
  }

  lemma SoFarIs(file: Bytes, start: nat, pos: nat, res: Bytes)
    requires SoFar(file, start, pos, res)
    ensures pos <= |file| ==> file[start..pos] == res
    ensures start < pos ==> pos <= |file|
    ensures pos >= |file| ==> res == From(file, start)
  {
  }

  lemma PartOfBytesAt(file: Bytes, start: nat, amount: Amount, res: Bytes)
    requires SoFar(file, start, start + |res|, res) && (amount.Finite? ==> |res| <= amount.n)
    ensures res <= BytesAt(file, start, amount)
  {
  }

  lemma AllOfBytesAt(file: Bytes, start: nat, amount: Amount, res: Bytes)
    requires SoFar(file, start, start + |res|, res) && (amount.Finite? ==> |res| <= amount.n)
    requires start + |res| >= |file| || amount == Finite(|res|)
    ensures res == BytesAt(file, start, amount)
  {
  }

  lemma NothingInNothing(eol: Bytes)
    requires eol != []
    ensures Find(Plain(eol), []) == None
  {
  }

  /** Without a terminator the line is the rest of the file. */
  lemma LineAtEnd(file: Bytes, pos: nat, eol: Bytes, keep: bool)
    requires Find(Plain(eol), From(file, pos)).None?
    ensures var rest := From(file, pos);
            LineAt(file, pos, eol, keep) == if rest == [] then (None, pos) else (Some(rest), pos + |rest|)
  {
  }

  /** A terminator among the bytes read so far settles the line. */
  lemma LineInPrefix(file: Bytes, pos: nat, eol: Bytes, keep: bool, res: Bytes)
    requires SoFar(file, pos, pos + |res|, res) && Find(Plain(eol), res).Some?
    ensures var m := Find(Plain(eol), res).value;
            && m.stop == m.start + |eol| <= |res|
            && LineAt(file, pos, eol, keep) == (Some(res[..if keep then m.stop else m.start]), pos + m.stop)
  {
    var rest := From(file, pos);
    var m := Find(Plain(eol), res).value;
    TakeDrop(rest, |res|);
    assert res == rest[..|res|];
    FoundStaysFound(Plain(eol), res, rest[|res|..]);
    CutInFirst(res, rest[|res|..], m.start);
    CutInFirst(res, rest[|res|..], m.stop);
  }
}

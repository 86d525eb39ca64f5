/** The remaining operations of `Buffer` on a chunk list, and what is conserved over any run of them. */
module BufferOps {
  import opened Wrappers
  import opened Seqs
  import opened LuaStrings
  import opened ChunkLists
  import opened LineLaws

  function Prepended(cs: seq<Bytes>, data: Bytes): seq<Bytes> {
    if data == [] then cs else [data] + cs
  }

  /** `read_n`: n bytes when that many are held; zero bytes only from a non-empty buffer. */
  function ReadN(n: nat, cs: seq<Bytes>): (Option<Bytes>, seq<Bytes>) {
    if n == 0 then (if cs == [] then None else Some([]), cs)
    else if |Flatten(cs)| < n then (None, cs)
    else (Some(Flatten(cs)[..n]), DropBytes(cs, n))
  }

  /** `read_some`: the front chunk, whatever its length. */
  function ReadSome(cs: seq<Bytes>): (Option<Bytes>, seq<Bytes>) {
    if cs == [] then (None, []) else (Some(cs[0]), cs[1..])
  }

  lemma PrependedBytes(cs: seq<Bytes>, data: Bytes)
    ensures Flatten(Prepended(cs, data)) == data + Flatten(cs)
    ensures NoEmptyChunk(cs) ==> NoEmptyChunk(Prepended(cs, data))
  {
  }

  /** Exactly the first n bytes when they are there, otherwise nothing happens. */
  lemma ReadNTakesExactly(n: nat, cs: seq<Bytes>)
    requires NoEmptyChunk(cs) && n >= 1
    ensures var (r, rest) := ReadN(n, cs);
            && NoEmptyChunk(rest)
            && (r.Some? <==> n <= |Flatten(cs)|)
            && (r.Some? ==> |r.value| == n && r.value + Flatten(rest) == Flatten(cs))
            && (r.None? ==> rest == cs)
  {
    if n <= |Flatten(cs)| {
      assert Flatten(cs)[..n] + Flatten(cs)[n..] == Flatten(cs);
    }
  }

  /** Putting back what `read_n` or `read_line_eol` returned restores the bytes. */
  lemma PrependUndoesReadN(n: nat, cs: seq<Bytes>)
    requires NoEmptyChunk(cs) && ReadN(n, cs).0.Some?
    ensures Flatten(Prepended(ReadN(n, cs).1, ReadN(n, cs).0.value)) == Flatten(cs)
  {
  }

  lemma PrependUndoesReadLineEol(e: Eol, cs: seq<Bytes>)
    requires NoEmptyChunk(cs) && LineSpec(e, true, cs).0.Some?
    ensures Flatten(Prepended(LineSpec(e, true, cs).1, LineSpec(e, true, cs).0.value)) == Flatten(cs)
  {
    var (r, rest) := LineSpec(e, true, cs);
    LineCutInRange(e, cs);
    var stop := LineCut(e, cs).value.stop;
    PrependedBytes(rest, r.value);
    assert Flatten(cs)[..stop] + Flatten(cs)[stop..] == Flatten(cs);
  }

  /** Hence, for one-byte terminators and `\r*\n`, a line put back with its terminator is read again. */
  lemma PutBackLineIsReadAgain(e: Eol, cs: seq<Bytes>)
    requires NoEmptyChunk(cs) && e.OneEndByte() && LineSpec(e, true, cs).0.Some?
    ensures var (r, rest) := LineSpec(e, true, cs);
            var again := Prepended(rest, r.value);
            && NoEmptyChunk(again)
            && LineSpec(e, true, again).0 == r
            && Flatten(LineSpec(e, true, again).1) == Flatten(rest)
  {
    var (r, rest) := LineSpec(e, true, cs);
    ReadLineIsFlat(e, true, cs);
    PrependUndoesReadLineEol(e, cs);
    PrependedBytes(rest, r.value);
    ChunkingDoesNotMatter(e, true, Prepended(rest, r.value), cs);
  }

  // ----- Conservation over runs -----

  /** The arguments of `buffer:read`. */
  datatype ReadPattern = NextChunk | Line | LineEol | All | Count(n: nat)

  /** What `buffer:read` does when the buffer's terminator is `e`. */
  function ReadAs(pat: ReadPattern, e: Eol, cs: seq<Bytes>): (Option<Bytes>, seq<Bytes>)
    requires NoEmptyChunk(cs)
  {
    match pat
    case NextChunk => ReadSome(cs)
    case Line => LineSpec(e, false, cs)
    case LineEol => LineSpec(e, true, cs)
    case All => (Some(Flatten(cs)), [])
    case Count(n) => ReadN(n, cs)
  }

  /** What each pattern returns, and what it leaves: everything, also of an empty buffer; the front chunk;
      n bytes; a line, cut at the first terminator of all bytes where that terminator is one byte or `\r*\n`,
      and for longer ones where `LineLaws.PlainReadLine` says. */
  ghost predicate ReadGives(pat: ReadPattern, e: Eol, cs: seq<Bytes>, r: Option<Bytes>, rest: seq<Bytes>) {
    var all := Flatten(cs);
    match pat
    case All => r == Some(all) && rest == []
    case NextChunk => if cs == [] then r == None && rest == [] else r == Some(cs[0]) && rest == cs[1..]
    case Count(n) =>
      if n == 0 then r == (if cs == [] then None else Some([])) && rest == cs
      else if n <= |all| then r == Some(all[..n]) && Flatten(rest) == all[n..]
      else r == None && rest == cs
    case Line => LineGives(e, false, cs, r, rest)
    case LineEol => LineGives(e, true, cs, r, rest)
  }

  ghost predicate LineGives(e: Eol, keep: bool, cs: seq<Bytes>, r: Option<Bytes>, rest: seq<Bytes>) {
    var all, found := Flatten(cs), Find(e, Flatten(cs));
    if !e.OneEndByte() then NoEmptyChunk(cs) ==> (r, rest) == LineSpec(e, keep, cs)
    else if found.None? then r == None && Flatten(rest) == all
    else
      var m := found.value;
      r == Some(all[..if keep then m.stop else m.start]) && Flatten(rest) == all[m.stop..]
  }

  lemma ReadMeans(pat: ReadPattern, e: Eol, cs: seq<Bytes>)
    requires NoEmptyChunk(cs)
    ensures ReadGives(pat, e, cs, ReadAs(pat, e, cs).0, ReadAs(pat, e, cs).1)
    ensures NoEmptyChunk(ReadAs(pat, e, cs).1)
  {
    ReadTakesPrefix(pat, e, cs);
    match pat
    case Line => LineMeans(e, false, cs);
    case LineEol => LineMeans(e, true, cs);
    case Count(n) =>
      if n > 0 {
        ReadNTakesExactly(n, cs);
      }
    case _ =>
  }

  lemma LineMeans(e: Eol, keep: bool, cs: seq<Bytes>)
    requires NoEmptyChunk(cs)
    ensures LineGives(e, keep, cs, LineSpec(e, keep, cs).0, LineSpec(e, keep, cs).1)
  {
    if e.OneEndByte() {
      ReadLineIsFlat(e, keep, cs);
    }
  }

  datatype BufferOp = Append(data: Bytes) | Prepend(data: Bytes) | Read(pat: ReadPattern, e: Eol)

  /** One operation: the value returned and the chunks left. */
  function Apply(op: BufferOp, cs: seq<Bytes>): (Option<Bytes>, seq<Bytes>)
    requires NoEmptyChunk(cs)
  {
    match op
    case Append(data) => (None, Appended(cs, data))
    case Prepend(data) => (None, Prepended(cs, data))
    case Read(pat, e) => ReadAs(pat, e, cs)
  }

  /** Whether `taken` is what a read that returned `r` may remove: the value itself, followed, for a
      line without its terminator, by one match of that terminator. */
  ghost predicate Accounts(pat: ReadPattern, e: Eol, r: Option<Bytes>, taken: Bytes) {
    if r.None? then taken == []
    else if pat.Line? then r.value <= taken && MatchAt(e, taken, |r.value|) == Some(|taken|)
    else taken == r.value
  }

  /** The bytes a read removed from the front. */
  ghost function Taken(pat: ReadPattern, e: Eol, cs: seq<Bytes>): Bytes
    requires NoEmptyChunk(cs)
  {
    var before, after := Flatten(cs), Flatten(ReadAs(pat, e, cs).1);
    if |after| <= |before| then before[..|before| - |after|] else []
  }

  /** Every read removes a prefix, and the prefix is accounted for by the value it returned. */
  lemma ReadTakesPrefix(pat: ReadPattern, e: Eol, cs: seq<Bytes>)
    requires NoEmptyChunk(cs)
    ensures var (r, rest) := ReadAs(pat, e, cs);
            && NoEmptyChunk(rest)
            && Taken(pat, e, cs) + Flatten(rest) == Flatten(cs)
            && Accounts(pat, e, r, Taken(pat, e, cs))
  {
    match pat
    case Line => LineTakes(pat, e, cs);
    case LineEol => LineTakes(pat, e, cs);
    case Count(n) => CountTakes(n, e, cs);
    case NextChunk =>
      if cs != [] {
        TakesFirst(cs[0], Flatten(cs[1..]));
      }
    case All =>
      TakesFirst(Flatten(cs), []);
  }

  /** How `Taken` is computed from what is left. */
  lemma TakesFirst(a: Bytes, b: Bytes)
    ensures (a + b)[..|a + b| - |b|] == a
  {
  }

  lemma CountTakes(n: nat, e: Eol, cs: seq<Bytes>)
    requires NoEmptyChunk(cs)
    ensures var (r, rest) := ReadN(n, cs);
            && NoEmptyChunk(rest)
            && Taken(Count(n), e, cs) + Flatten(rest) == Flatten(cs)
            && Accounts(Count(n), e, r, Taken(Count(n), e, cs))
  {
    var (r, rest) := ReadN(n, cs);
    assert n == 0 ==> rest == cs && (r.Some? ==> r.value == []);
    if n > 0 {
      ReadNTakesExactly(n, cs);
    }
    hide ReadN, Flatten;
    var before, taken := Flatten(cs), if r.Some? then r.value else [];
    ConcatEmpty(before);
    assert before == taken + Flatten(rest);
    TakesFirst(taken, Flatten(rest));
  }

  /** A cut at `m` of the bytes `flat`. */
  lemma CutAccounts(e: Eol, flat: Bytes, m: Match)
    requires m.start <= m.stop <= |flat| && MatchAt(e, flat, m.start) == Some(m.stop)
    ensures flat[..m.start] <= flat[..m.stop]
    ensures MatchAt(e, flat[..m.stop], m.start) == Some(m.stop)
    ensures flat[..m.stop] + flat[m.stop..] == flat
    ensures flat[..|flat| - |flat[m.stop..]|] == flat[..m.stop]
  {
    TakeDrop(flat, m.stop);
    MatchAtPrefix(e, flat[..m.stop], flat[m.stop..], m.start);
  }

  lemma LineTakes(pat: ReadPattern, e: Eol, cs: seq<Bytes>)
    requires NoEmptyChunk(cs) && (pat.Line? || pat.LineEol?)
    ensures NoEmptyChunk(ReadAs(pat, e, cs).1)
    ensures Taken(pat, e, cs) + Flatten(ReadAs(pat, e, cs).1) == Flatten(cs)
    ensures Accounts(pat, e, ReadAs(pat, e, cs).0, Taken(pat, e, cs))
  {
    if LineCut(e, cs).None? {
      CoalescedKeepsBytes(e, cs);
    } else {
      LineCutInRange(e, cs);
      CutAccounts(e, Flatten(cs), LineCut(e, cs).value);
    }
  }

  // ----- Runs, as moves of bytes -----

  /** What an operation does to the bytes. */
  datatype Move = AddBack(data: Bytes) | AddFront(data: Bytes) | Take(data: Bytes)

  ghost function MoveOf(op: BufferOp, cs: seq<Bytes>): Move
    requires NoEmptyChunk(cs)
  {
    match op
    case Append(data) => AddBack(data)
    case Prepend(data) => AddFront(data)
    case Read(pat, e) => Take(Taken(pat, e, cs))
  }

  predicate Possible(bytes: Bytes, move: Move) {
    move.Take? ==> move.data <= bytes
  }

  function Moved(bytes: Bytes, move: Move): Bytes
    requires Possible(bytes, move)
  {
    match move
    case AddBack(data) => bytes + data
    case AddFront(data) => data + bytes
    case Take(data) => bytes[|data|..]
  }

  lemma PrefixTaken(taken: Bytes, rest: Bytes, bytes: Bytes)
    requires taken + rest == bytes
    ensures taken <= bytes && bytes[|taken|..] == rest
  {
  }

  /** Every operation is one possible move of the buffered bytes. */
  lemma ApplyMoves(op: BufferOp, cs: seq<Bytes>)
    requires NoEmptyChunk(cs)
    ensures NoEmptyChunk(Apply(op, cs).1)
    ensures Possible(Flatten(cs), MoveOf(op, cs))
    ensures Flatten(Apply(op, cs).1) == Moved(Flatten(cs), MoveOf(op, cs))
  {
    match op
    case Append(data) => AppendedBytes(cs, data);
    case Prepend(data) => PrependedBytes(cs, data);
    case Read(pat, e) =>
      ReadTakesPrefix(pat, e, cs);
      PrefixTaken(Taken(pat, e, cs), Flatten(ReadAs(pat, e, cs).1), Flatten(cs));
  }

  /** The chunks a run leaves, and the moves it makes. */
  ghost function RunChunks(ops: seq<BufferOp>, cs: seq<Bytes>): (end: seq<Bytes>)
    requires NoEmptyChunk(cs)
    ensures NoEmptyChunk(end)
    decreases |ops|
  {
    if ops == [] then cs
    else
      ApplyMoves(ops[0], cs);
      RunChunks(ops[1..], Apply(ops[0], cs).1)
  }

  ghost function Moves(ops: seq<BufferOp>, cs: seq<Bytes>): seq<Move>
    requires NoEmptyChunk(cs)
    decreases |ops|
  {
    if ops == [] then []
    else
      ApplyMoves(ops[0], cs);
      [MoveOf(ops[0], cs)] + Moves(ops[1..], Apply(ops[0], cs).1)
  }

  predicate AllPossible(bytes: Bytes, moves: seq<Move>)
    decreases |moves|
  {
    moves == [] || (Possible(bytes, moves[0]) && AllPossible(Moved(bytes, moves[0]), moves[1..]))
  }

  function Left(bytes: Bytes, moves: seq<Move>): Bytes
    requires AllPossible(bytes, moves)
    decreases |moves|
  {
    if moves == [] then bytes else Left(Moved(bytes, moves[0]), moves[1..])
  }

  lemma {:induction false} RunMoves(ops: seq<BufferOp>, cs: seq<Bytes>)
    requires NoEmptyChunk(cs)
    ensures AllPossible(Flatten(cs), Moves(ops, cs))
    ensures Flatten(RunChunks(ops, cs)) == Left(Flatten(cs), Moves(ops, cs))
    decreases |ops|
  {
    if ops != [] {
      ApplyMoves(ops[0], cs);
      RunMoves(ops[1..], Apply(ops[0], cs).1);
      assert Moves(ops, cs)[1..] == Moves(ops[1..], Apply(ops[0], cs).1);
    }
  }

  // ----- Conservation -----

  /** All bytes taken, in order. */
  function TakenBytes(moves: seq<Move>): Bytes {
    if moves == [] then []
    else if moves[0].Take? then moves[0].data + TakenBytes(moves[1..])
    else TakenBytes(moves[1..])
  }

  /** The tape that a run writes and reads from left to right: appended bytes go to its end, prepended
      bytes go where reading stands. */
  function Tape(moves: seq<Move>, tape: Bytes, head: nat): Bytes
    requires head <= |tape|
    decreases |moves|
  {
    if moves == [] then tape
    else
      match moves[0]
      case AddBack(data) => Tape(moves[1..], tape + data, head)
      case AddFront(data) => Tape(moves[1..], tape[..head] + data + tape[head..], head)
      case Take(data) =>
        Tape(moves[1..], tape, if head + |data| <= |tape| then head + |data| else |tape|)
  }

  lemma TapeAddBack(tape: Bytes, head: nat, data: Bytes)
    requires head <= |tape|
    ensures (tape + data)[..head] == tape[..head] && (tape + data)[head..] == tape[head..] + data
  {
  }

  lemma TapeAddFront(tape: Bytes, head: nat, data: Bytes)
    requires head <= |tape|
    ensures var t := tape[..head] + data + tape[head..];
            head <= |t| && t[..head] == tape[..head] && t[head..] == data + tape[head..]
  {
  }

  lemma TapeTake(tape: Bytes, head: nat, data: Bytes, bytes: Bytes)
    requires head <= |tape| && tape[head..] == bytes && data <= bytes
    ensures head + |data| <= |tape|
    ensures tape[head + |data|..] == bytes[|data|..] && tape[..head + |data|] == tape[..head] + data
  {
  }

  lemma Regroup(a: Bytes, b: Bytes, c: Bytes, d: Bytes)
    ensures a + b + (c + d) == a + (b + c + d)
  {
  }

  /** Over any run no byte is lost, doubled or moved: the bytes taken, then the bytes still held, are the
      tape from the point where reading started. */
  lemma {:induction false} MovesConserve(moves: seq<Move>, bytes: Bytes, tape: Bytes, head: nat)
    requires AllPossible(bytes, moves) && head <= |tape| && tape[head..] == bytes
    ensures tape[..head] + (TakenBytes(moves) + Left(bytes, moves)) == Tape(moves, tape, head)
    decreases |moves|
  {
    if moves == [] {
      ConcatEmpty(bytes);
      TakeDrop(tape, head);
    } else {
      match moves[0]
      case AddBack(data) =>
        TapeAddBack(tape, head, data);
        MovesConserve(moves[1..], Moved(bytes, moves[0]), tape + data, head);
      case AddFront(data) =>
        TapeAddFront(tape, head, data);
        MovesConserve(moves[1..], Moved(bytes, moves[0]), tape[..head] + data + tape[head..], head);
      case Take(data) =>
        TapeTake(tape, head, data, bytes);
        MovesConserve(moves[1..], Moved(bytes, moves[0]), tape, head + |data|);
        ConserveTake(moves, bytes, tape, head, data);
    }
  }

  lemma ConserveTake(moves: seq<Move>, bytes: Bytes, tape: Bytes, head: nat, data: Bytes)
    requires AllPossible(bytes, moves) && moves != [] && moves[0] == Take(data) && head + |data| <= |tape|
    requires tape[..head + |data|] == tape[..head] + data
    requires tape[..head + |data|] + (TakenBytes(moves[1..]) + Left(Moved(bytes, moves[0]), moves[1..]))
          == Tape(moves[1..], tape, head + |data|)
    ensures tape[..head] + (TakenBytes(moves) + Left(bytes, moves)) == Tape(moves, tape, head)
  {
    Regroup(tape[..head], data, TakenBytes(moves[1..]), Left(Moved(bytes, moves[0]), moves[1..]));
  }

  /** The buffer over any run of its operations. */
  lemma BytesAreConserved(ops: seq<BufferOp>, cs: seq<Bytes>)
    requires NoEmptyChunk(cs)
    ensures TakenBytes(Moves(ops, cs)) + Flatten(RunChunks(ops, cs)) == Tape(Moves(ops, cs), Flatten(cs), 0)
  {
    RunMoves(ops, cs);
    var flat := Flatten(cs);
    TakeDrop(flat, 0);
    MovesConserve(Moves(ops, cs), flat, flat, 0);
    ConcatEmpty(TakenBytes(Moves(ops, cs)) + Flatten(RunChunks(ops, cs)));
  }

  /** Everything a run adds at the back. */
  function AddedBytes(moves: seq<Move>): Bytes {
    if moves == [] then []
    else if moves[0].AddBack? then moves[0].data + AddedBytes(moves[1..])
    else AddedBytes(moves[1..])
  }

  predicate NeverPrepends(moves: seq<Move>) {
    moves == [] || (!moves[0].AddFront? && NeverPrepends(moves[1..]))
  }

  lemma {:induction false} TapeWithoutPrepend(moves: seq<Move>, tape: Bytes, head: nat)
    requires head <= |tape| && NeverPrepends(moves)
    ensures Tape(moves, tape, head) == tape + AddedBytes(moves)
    decreases |moves|
  {
    if moves == [] {
      ConcatEmpty(tape);
    } else if moves[0].AddBack? {
      TapeWithoutPrepend(moves[1..], tape + moves[0].data, head);
      Assoc(tape, moves[0].data, AddedBytes(moves[1..]));
    } else {
      var n := head + |moves[0].data|;
      TapeWithoutPrepend(moves[1..], tape, if n <= |tape| then n else |tape|);
    }
  }

  /** Without `prepend` the buffer is first in, first out: what was taken, then what is held, is the
      initial bytes followed by everything appended. */
  lemma FirstInFirstOut(ops: seq<BufferOp>, cs: seq<Bytes>)
    requires NoEmptyChunk(cs) && NeverPrepends(Moves(ops, cs))
    ensures TakenBytes(Moves(ops, cs)) + Flatten(RunChunks(ops, cs)) == Flatten(cs) + AddedBytes(Moves(ops, cs))
  {
    BytesAreConserved(ops, cs);
    TapeWithoutPrepend(Moves(ops, cs), Flatten(cs), 0);
  }
}

/** How faithfully `read_line` on a chunk list follows the flat byte string, and what whole runs of
    `append` and `read_line` produce. */
module LineLaws {
  import opened Wrappers
  import opened Seqs
  import opened LuaStrings
  import opened ChunkLists

  // ----- Against the flat byte string -----

  /** Reading a line from a byte string: cut at its first terminator. */
  function FlatLine(e: Eol, keep: bool, s: Bytes): (Option<Bytes>, Bytes) {
    match Find(e, s)
    case None => (None, s)
    case Some(m) => (Some(s[..if keep then m.stop else m.start]), s[m.stop..])
  }

  /** The first terminator starts in an earlier chunk than the one it ends in. */
  ghost predicate Straddles(e: Eol, cs: seq<Bytes>)
    requires e.Proper() && Find(e, Flatten(cs)).Some?
  {
    var m := Find(e, Flatten(cs)).value;
    m.start < |Flatten(cs[..EndChunk(e, cs)])|
  }

  /** The chunk in which the first terminator ends. */
  ghost function EndChunk(e: Eol, cs: seq<Bytes>): (k: nat)
    requires e.Proper() && Find(e, Flatten(cs)).Some?
    ensures k < |cs|
  {
    var m := Find(e, Flatten(cs)).value;
    MatchEndsInEndByte(e, Flatten(cs), m.start);
    ChunkOf(cs, m.stop - 1)
  }

  /** A first match that lies inside one chunk is also the first match of that chunk. */
  lemma InsideIsFirst(e: Eol, a: Bytes, c: Bytes, t: Bytes, m: Match)
    requires Leftmost(e, a + c + t, 0, m) && |a| <= m.start && m.stop <= |a + c|
    ensures Find(e, c) == Some(Match(m.start - |a|, m.stop - |a|))
  {
    hide MatchAt, FindFrom;
    var i := m.start - |a|;
    MatchAtPrefix(e, a + c, t, m.start);
    MatchAtShift(e, a, c, i);
    assert MatchAt(e, c, i).Some?;
    var f := Find(e, c).value;
    MatchInMiddle(e, a, c, t, f.start);
    assert MatchAt(e, a + c + t, |a| + f.start).Some?;
  }

  lemma CutAtChunkAgainstFirstMatch(e: Eol, cs: seq<Bytes>, m: Match, k: nat)
    requires k < |cs| && Leftmost(e, Flatten(cs), 0, m) && m.stop <= |Flatten(cs[..k])| + |cs[k]|
    ensures CutAtChunk(e, cs, m, k) == m
       <==> !(e.Plain? && m.start < |Flatten(cs[..k])| && Find(e, cs[k]).Some?)
  {
    FlattenAround(cs, k);
    if |Flatten(cs[..k])| <= m.start {
      InsideIsFirst(e, Flatten(cs[..k]), cs[k], Flatten(cs[k + 1..]), m);
    }
  }

  lemma CutAgainstFirstMatch(e: Eol, cs: seq<Bytes>)
    requires NoEmptyChunk(cs) && e.Proper() && Find(e, Flatten(cs)).Some?
    ensures LineCut(e, cs).Some?
    ensures LineCut(e, cs) == Find(e, Flatten(cs))
       <==> !(e.Plain? && Straddles(e, cs) && Find(e, cs[EndChunk(e, cs)]).Some?)
  {
    var m := Find(e, Flatten(cs)).value;
    var k := EndChunk(e, cs);
    MatchEndsInEndByte(e, Flatten(cs), m.start);
    LineCutAtChunk(e, cs, k);
    CutAtChunkAgainstFirstMatch(e, cs, m, k);
  }

  /** `sep` is written in `s` at `i`. */
  ghost predicate OccursAt(sep: Bytes, s: Bytes, i: nat) {
    i + |sep| <= |s| && s[i..i + |sep|] == sep
  }

  lemma FoundIffOccurs(sep: Bytes, s: Bytes)
    ensures Find(Plain(sep), s).None? <==> forall i: nat :: !OccursAt(sep, s, i)
    ensures Find(Plain(sep), s).Some? ==> OccursAt(sep, s, Find(Plain(sep), s).value.start)
  {
    if Find(Plain(sep), s).None? {
      forall i: nat
        ensures !OccursAt(sep, s, i)
      {
        assert i <= |s| ==> MatchAt(Plain(sep), s, i) == None;
      }
    } else {
      assert OccursAt(sep, s, Find(Plain(sep), s).value.start);
    }
  }

  /** Around a plain occurrence: what is before it, the terminator, and what is after it. */
  lemma AroundOccurrence(sep: Bytes, s: Bytes, c: Match)
    requires c.start <= |s| && MatchAt(Plain(sep), s, c.start) == Some(c.stop)
    ensures c.stop == c.start + |sep| <= |s| && s == s[..c.start] + sep + s[c.stop..]
    ensures s == s[..c.stop] + s[c.stop..] && s[..c.stop][c.start..] == sep
  {
    assert c.stop == c.start + |sep| <= |s| && s[c.start..c.stop] == sep;
    hide MatchAt;
    ThreeParts(s, c.start, c.stop);
  }

  lemma ThreeParts(s: Bytes, i: nat, j: nat)
    requires i <= j <= |s|
    ensures s == s[..i] + s[i..j] + s[j..]
    ensures s == s[..j] + s[j..] && s[..j][i..] == s[i..j]
  {
  }

  /** Every plain terminator, for `read_line` and for `read_line_eol`: nil exactly when the terminator occurs
      nowhere, and then no byte moves; otherwise line, terminator and remaining bytes rebuild the buffer. The
      line ends at the first terminator exactly unless that one straddles into a chunk that holds a whole
      terminator itself. */
  lemma PlainReadLine(sep: Bytes, keep: bool, cs: seq<Bytes>)
    requires NoEmptyChunk(cs) && sep != []
    ensures var e := Plain(sep);
            var (r, rest) := LineSpec(e, keep, cs);
            && NoEmptyChunk(rest)
            && (r.None? <==> forall i: nat :: !OccursAt(sep, Flatten(cs), i))
            && (r.None? ==> Flatten(rest) == Flatten(cs))
            && (r.Some? && !keep ==> Flatten(cs) == r.value + sep + Flatten(rest))
            && (r.Some? && keep ==>
                  Flatten(cs) == r.value + Flatten(rest) && |sep| <= |r.value| && r.value[|r.value| - |sep|..] == sep)
            && (r.Some? ==>
                  (r == FlatLine(e, keep, Flatten(cs)).0
                   <==> !(Straddles(e, cs) && Find(e, cs[EndChunk(e, cs)]).Some?)))
  {
    var e := Plain(sep);
    FoundIffOccurs(sep, Flatten(cs));
    if Find(e, Flatten(cs)).None? {
      CoalescedKeepsBytes(e, cs);
    } else {
      CutAgainstFirstMatch(e, cs);
      LineCutInRange(e, cs);
      AroundOccurrence(sep, Flatten(cs), LineCut(e, cs).value);
      CutShowsInLine(sep, keep, cs);
    }
  }

  /** Different cuts give lines of different length. */
  lemma CutShowsInLine(sep: Bytes, keep: bool, cs: seq<Bytes>)
    requires var e := Plain(sep); NoEmptyChunk(cs) && Find(e, Flatten(cs)).Some? && LineCut(e, cs).Some?
    ensures var e := Plain(sep);
            LineSpec(e, keep, cs).0 == FlatLine(e, keep, Flatten(cs)).0 <==> LineCut(e, cs) == Find(e, Flatten(cs))
  {
    var e, flat := Plain(sep), Flatten(cs);
    LineCutInRange(e, cs);
    var c, m := LineCut(e, cs).value, Find(e, flat).value;
    AroundOccurrence(sep, flat, c);
    AroundOccurrence(sep, flat, m);
    assert |flat[..c.start]| == c.start && |flat[..m.start]| == m.start;
    assert |flat[..c.stop]| == c.stop && |flat[..m.stop]| == m.stop;
  }

  /** The fast path really can overshoot: with terminator CR LF and chunks "a CR" and "LF b CR LF",
      the line read is "a CR LF b" although the bytes begin with "a CR LF". */
  lemma FastPathOvershoots()
    ensures var cs := [[97, CR], [LF, 98, CR, LF]];
            var e := Plain([CR, LF]);
            && LineSpec(e, false, cs).0 == Some([97, CR, LF, 98])
            && FlatLine(e, false, Flatten(cs)).0 == Some([97])
  {
    var cs: seq<Bytes> := [[97, CR], [LF, 98, CR, LF]];
    var e := Plain([CR, LF]);
    var flat: Bytes := [97, CR, LF, 98, CR, LF];
    assert cs[1..] == [cs[1]];
    FlattenOne(cs[1]);
    assert Flatten(cs) == flat;
    assert flat[1..3] == [CR, LF] && flat[0..2] == [97, CR];
    assert MatchAt(e, flat, 0) == None && MatchAt(e, flat, 1) == Some(3);
    LeftmostIsFound(e, flat, 0, Match(1, 3));
    assert cs[..1] == [cs[0]];
    FlattenOne(cs[0]);
    assert cs[..2] == cs;
    ChunkOfIs(cs, 2, 1);
    assert cs[1][0..2] == [LF, 98] && cs[1][1..3] == [98, CR] && cs[1][2..4] == [CR, LF];
    assert MatchAt(e, cs[1], 0) == None && MatchAt(e, cs[1], 1) == None;
    LeftmostIsFound(e, cs[1], 0, Match(2, 4));
    assert LineCut(e, cs) == Some(Match(4, 6));
    assert flat[..4] == [97, CR, LF, 98];
    assert flat[..1] == [97];
  }

  /** One-byte terminators and `\r*\n`: reading from the chunks is reading from the flat bytes. */
  lemma ReadLineIsFlat(e: Eol, keep: bool, cs: seq<Bytes>)
    requires NoEmptyChunk(cs) && e.OneEndByte()
    ensures var (r, rest) := LineSpec(e, keep, cs);
            && NoEmptyChunk(rest)
            && (r, Flatten(rest)) == FlatLine(e, keep, Flatten(cs))
  {
    var flat := Flatten(cs);
    if Find(e, flat).None? {
      CoalescedKeepsBytes(e, cs);
    } else {
      assert cs != [];
      var m := Find(e, flat).value;
      MatchEndsInEndByte(e, flat, m.start);
      CutAgainstFirstMatch(e, cs);
    }
  }

  /** So the way the bytes were cut into chunks never shows in the lines. */
  lemma ChunkingDoesNotMatter(e: Eol, keep: bool, a: seq<Bytes>, b: seq<Bytes>)
    requires NoEmptyChunk(a) && NoEmptyChunk(b) && e.OneEndByte()
    requires Flatten(a) == Flatten(b)
    ensures LineSpec(e, keep, a).0 == LineSpec(e, keep, b).0
    ensures Flatten(LineSpec(e, keep, a).1) == Flatten(LineSpec(e, keep, b).1)
  {
    ReadLineIsFlat(e, keep, a);
    ReadLineIsFlat(e, keep, b);
  }

  // ----- Runs of append and read_line -----

  datatype Op = Append(data: Bytes) | Read

  /** `append`: an empty string is not stored. */
  function Appended(cs: seq<Bytes>, data: Bytes): seq<Bytes> {
    if data == [] then cs else cs + [data]
  }

  lemma AppendedBytes(cs: seq<Bytes>, data: Bytes)
    ensures Flatten(Appended(cs, data)) == Flatten(cs) + data
    ensures NoEmptyChunk(cs) ==> NoEmptyChunk(Appended(cs, data))
  {
    FlattenConcat(cs, [data]);
    FlattenOne(data);
  }

  /** The lines returned by a run, in order, and the chunks it leaves. */
  function Run(e: Eol, cs: seq<Bytes>, ops: seq<Op>): (r: (seq<Bytes>, seq<Bytes>))
    requires NoEmptyChunk(cs) && e.OneEndByte()
    ensures NoEmptyChunk(r.1)
    decreases |ops|
  {
    if ops == [] then ([], cs)
    else
      match ops[0]
      case Append(data) =>
        AppendedBytes(cs, data);
        Run(e, Appended(cs, data), ops[1..])
      case Read =>
        ReadLineIsFlat(e, false, cs);
        var (line, rest) := LineSpec(e, false, cs);
        var (lines, end) := Run(e, rest, ops[1..]);
        (if line.Some? then [line.value] + lines else lines, end)
  }

  /** Everything a run appends. */
  function Stream(ops: seq<Op>): Bytes {
    if ops == [] then []
    else (match ops[0] case Append(data) => data case Read => []) + Stream(ops[1..])
  }

  /** Reading lines until none is left: the lines and the leftover bytes. */
  function Drain(e: Eol, cs: seq<Bytes>): (r: (seq<Bytes>, Bytes))
    requires NoEmptyChunk(cs) && e.OneEndByte()
    decreases |Flatten(cs)|
  {
    ReadLineIsFlat(e, false, cs);
    var (line, rest) := LineSpec(e, false, cs);
    if line.None? then ([], Flatten(cs))
    else
      MatchEndsInEndByte(e, Flatten(cs), Find(e, Flatten(cs)).value.start);
      var (lines, left) := Drain(e, rest);
      ([line.value] + lines, left)
  }

  function Leftover(left: Bytes): seq<Bytes> {
    if left == [] then [] else [left]
  }

  lemma {:induction false} DrainIsPieces(e: Eol, cs: seq<Bytes>)
    requires NoEmptyChunk(cs) && e.OneEndByte()
    ensures var (lines, left) := Drain(e, cs); lines + Leftover(left) == Pieces(e, Flatten(cs))
    decreases |Flatten(cs)|
  {
    var flat := Flatten(cs);
    ReadLineIsFlat(e, false, cs);
    var (line, rest) := LineSpec(e, false, cs);
    if line.Some? {
      MatchEndsInEndByte(e, flat, Find(e, flat).value.start);
      DrainIsPieces(e, rest);
      var (lines, left) := Drain(e, rest);
      Assoc([line.value], lines, Leftover(left));
    }
  }

  /** The first piece of a stream is settled as soon as its terminator has arrived. */
  lemma PiecesAfterMatch(e: Eol, s: Bytes, t: Bytes)
    requires e.Proper() && Find(e, s).Some?
    ensures var m := Find(e, s).value;
            m.start < m.stop <= |s| && Pieces(e, s + t) == [s[..m.start]] + Pieces(e, s[m.stop..] + t)
  {
    var m := Find(e, s).value;
    FoundStaysFound(e, s, t);
    MatchEndsInEndByte(e, s, m.start);
    CutInFirst(s, t, m.start);
    CutInFirst(s, t, m.stop);
  }

  lemma {:induction false} RunIsPieces(e: Eol, cs: seq<Bytes>, ops: seq<Op>, later: Bytes)
    requires NoEmptyChunk(cs) && e.OneEndByte()
    ensures var (lines, end) := Run(e, cs, ops);
            lines + Pieces(e, Flatten(end) + later) == Pieces(e, Flatten(cs) + (Stream(ops) + later))
    decreases |ops|
  {
    if ops == [] {
      assert Stream(ops) + later == later;
    } else if ops[0].Append? {
      var data := ops[0].data;
      AppendedBytes(cs, data);
      RunIsPieces(e, Appended(cs, data), ops[1..], later);
      StreamAppend(ops, Flatten(cs), later);
    } else {
      ReadLineIsFlat(e, false, cs);
      var rest := LineSpec(e, false, cs).1;
      RunIsPieces(e, rest, ops[1..], later);
      StreamRead(ops);
      hide Pieces, Stream, Find;
      var (lines, end) := Run(e, rest, ops[1..]);
      ReadIsFirstPiece(e, cs, lines, Pieces(e, Flatten(end) + later), Stream(ops[1..]) + later);
    }
  }

  lemma StreamAppend(ops: seq<Op>, before: Bytes, later: Bytes)
    requires ops != [] && ops[0].Append?
    ensures before + (Stream(ops) + later) == before + ops[0].data + (Stream(ops[1..]) + later)
  {
  }

  lemma StreamRead(ops: seq<Op>)
    requires ops != [] && ops[0].Read?
    ensures Stream(ops) == Stream(ops[1..])
  {
  }

  lemma ReadIsFirstPiece(e: Eol, cs: seq<Bytes>, lines: seq<Bytes>, pieces: seq<Bytes>, tail: Bytes)
    requires NoEmptyChunk(cs) && e.OneEndByte()
    requires lines + pieces == Pieces(e, FlatLine(e, false, Flatten(cs)).1 + tail)
    ensures var line := FlatLine(e, false, Flatten(cs)).0;
            (if line.Some? then [line.value] + lines else lines) + pieces == Pieces(e, Flatten(cs) + tail)
  {
    var line := FlatLine(e, false, Flatten(cs)).0;
    if line.Some? {
      PiecesAfterMatch(e, Flatten(cs), tail);
      Assoc([line.value], lines, pieces);
    }
  }

  /** Any interleaving of `append` and `read_line` on an empty buffer, then a final drain: the lines in
      order, and the leftover if there is one, are `split` of everything that was appended. */
  lemma LinesAreSplitOfStream(e: Eol, ops: seq<Op>)
    requires e.OneEndByte()
    ensures var (lines, end) := Run(e, [], ops);
            var (last, left) := Drain(e, end);
            lines + last + Leftover(left) == Pieces(e, Stream(ops))
  {
    RunIsPieces(e, [], ops, []);
    var (lines, end) := Run(e, [], ops);
    DrainIsPieces(e, end);
    var (last, left) := Drain(e, end);
    ConcatEmpty(Flatten(end));
    ConcatEmpty(Stream(ops));
    Assoc(lines, last, Leftover(left));
  }
}

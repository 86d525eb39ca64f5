/** The class `Buffer` of utils.lua: a byte stream kept as a deque of chunks. */
module Buffers {
  import opened Wrappers
  import opened Seqs
  import opened LuaStrings
  import opened ChunkLists
  import LineLaws
  import Ops = BufferOps
  import Deque = LuaLists

  /** `s:sub(-1)`. */
  function LastByte(s: Bytes): Bytes {
    if s == [] then [] else [s[|s| - 1]]
  }

  /** The terminators in scope: plain ones, and of the Lua patterns `\r*\n` and single bytes, which the
      source searches for plainly. */
  predicate Supported(eol: Bytes, plain: bool) {
    plain || |eol| <= 1 || eol == CR_STAR_LF
  }

  /** What `string.find` looks for. */
  function Pattern(eol: Bytes, plain: bool): Eol {
    if plain || |eol| <= 1 then Plain(eol) else CrStarLf
  }

  function Check(ch: Bytes): Bytes -> bool {
    (s: Bytes) => Find(Plain(ch), s).Some?
  }

  lemma CheckIsMembership(b: byte, s: Bytes)
    ensures Check([b])(s) <==> b in s
  {
    if Find(Plain([b]), s).Some? {
      var i := Find(Plain([b]), s).value.start;
      assert s[i..i + 1] == [b];
      assert s[i] == b;
    } else {
      forall i | 0 <= i < |s|
        ensures s[i] != b
      {
        assert MatchAt(Plain([b]), s, i) == None;
        assert s[i..i + 1] == [s[i]];
      }
    }
  }

  lemma PatternEndsInLastByte(eol: Bytes, plain: bool)
    requires Supported(eol, plain) && eol != []
    ensures Pattern(eol, plain).Proper() && LastByte(eol) == [Pattern(eol, plain).EndByte()]
  {
  }

  // ----- The turns of the read_line loop, on values -----

  /** The state at the head of the loop: `c` chunks popped, all searched without success. */
  ghost predicate Searching(e: Eol, cs: seq<Bytes>, c: nat) {
    && NoEmptyChunk(cs) && c <= |cs|
    && (e.Proper() ==> Find(e, Flatten(cs[..c])).None?)
    && (c > 0 ==> e.Proper() && e.EndByte() in cs[c - 1])
  }

  /** Chunk k is the first one from `c` on that holds the last byte of the terminator. */
  ghost predicate NextCandidate(eol: Bytes, cs: seq<Bytes>, c: nat, k: nat) {
    && c <= k < |cs|
    && Check(LastByte(eol))(cs[k])
    && forall j :: c <= j < k ==> !Check(LastByte(eol))(cs[j])
  }

  lemma CandidateBytes(eol: Bytes, plain: bool, cs: seq<Bytes>, c: nat, k: nat)
    requires Supported(eol, plain) && NextCandidate(eol, cs, c, k)
    ensures eol == [] ==> k == c
    ensures eol != [] ==>
              var e := Pattern(eol, plain);
              && e.Proper()
              && e.EndByte() in cs[k]
              && forall j :: c <= j < k ==> e.EndByte() !in cs[j]
  {
    if eol == [] {
      EmptyIsFound(cs[c]);
    } else {
      PatternEndsInLastByte(eol, plain);
      var b := Pattern(eol, plain).EndByte();
      forall j | c <= j <= k
        ensures Check(LastByte(eol))(cs[j]) <==> b in cs[j]
      {
        CheckIsMembership(b, cs[j]);
      }
    }
  }

  lemma EmptyIsFound(s: Bytes)
    ensures Find(Plain([]), s) == Some(Match(0, 0)) && Check([])(s)
  {
  }

  lemma GiveUp(eol: Bytes, plain: bool, cs: seq<Bytes>, c: nat)
    requires Supported(eol, plain) && Searching(Pattern(eol, plain), cs, c)
    requires forall j :: c <= j < |cs| ==> !Check(LastByte(eol))(cs[j])
    ensures LineCut(Pattern(eol, plain), cs) == None
    ensures Coalesced(Pattern(eol, plain), cs) == if c == 0 then cs else [Flatten(cs[..c])] + cs[c..]
  {
    var e := Pattern(eol, plain);
    if eol == [] {
      if c < |cs| {
        EmptyIsFound(cs[c]);
        assert false;
      }
    } else {
      PatternEndsInLastByte(eol, plain);
      forall j | c <= j < |cs|
        ensures e.EndByte() !in cs[j]
      {
        CheckIsMembership(e.EndByte(), cs[j]);
      }
      NoCut(e, cs, c);
    }
  }

  /** The table `t` after popping through chunk k: its strings are chunks 0..k, with the last one
      still separate. */
  lemma Popped(cs: seq<Bytes>, c: nat, k: nat, t: seq<Bytes>)
    requires c <= k < |cs| && |t| >= 1
    requires t[..|t| - 1] == (if c == 0 then [] else [Flatten(cs[..c])]) + cs[c..k]
    ensures Flatten(t) == Flatten(cs[..k]) + t[|t| - 1]
    ensures t[|t| - 1] == cs[k] ==> Flatten(t) == Flatten(cs[..k + 1])
  {
    FlattenLast(t);
    FlattenDone(cs, c, k);
    FlattenAround(cs, k);
  }

  lemma FlattenDone(cs: seq<Bytes>, c: nat, k: nat)
    requires c <= k <= |cs|
    ensures Flatten((if c == 0 then [] else [Flatten(cs[..c])]) + cs[c..k]) == Flatten(cs[..k])
  {
    var done := if c == 0 then [] else [Flatten(cs[..c])];
    FlattenConcat(done, cs[c..k]);
    FlattenOne(Flatten(cs[..c]));
    FlattenMiddle(cs, c, k);
  }

  lemma PoppedLast(cs: seq<Bytes>, c: nat, k: nat, done: seq<Bytes>)
    requires c <= k < |cs|
    ensures var t := done + cs[c..][..k + 1 - c];
            |t| >= 1 && t[|t| - 1] == cs[k] && t[..|t| - 1] == done + cs[c..k] && cs[c..][k + 1 - c..] == cs[k + 1..]
  {
  }

  /** What `find` tells about chunks. */
  lemma FoundChunk(cs: seq<Bytes>, check: Bytes -> bool, found: Option<int>)
    requires found.Some? ==> 1 <= found.value <= |cs| && Deque.ElementAt(cs, found.value).Some?
                             && check(Deque.ElementAt(cs, found.value).value)
    requires forall k :: 1 <= k < (if found.Some? then found.value else |cs| + 1) ==>
                           !(Deque.ElementAt(cs, k).Some? && check(Deque.ElementAt(cs, k).value))
    ensures found.Some? ==> check(cs[found.value - 1])
    ensures forall j :: 0 <= j < (if found.Some? then found.value - 1 else |cs|) ==> !check(cs[j])
  {
    forall j | 0 <= j < (if found.Some? then found.value - 1 else |cs|)
      ensures !check(cs[j])
    {
      assert Deque.ElementAt(cs, j + 1) == Some(cs[j]);
    }
  }

  lemma Candidate(eol: Bytes, cs: seq<Bytes>, c: nat, k: nat)
    requires c <= k < |cs| && Check(LastByte(eol))(cs[c..][k - c])
    requires forall j :: 0 <= j < k - c ==> !Check(LastByte(eol))(cs[c..][j])
    ensures NextCandidate(eol, cs, c, k)
  {
  }

  lemma NoCandidate(eol: Bytes, cs: seq<Bytes>, c: nat, left: seq<Bytes>)
    requires c <= |cs| && left == cs[c..]
    requires forall j :: 0 <= j < |left| ==> !Check(LastByte(eol))(left[j])
    ensures forall j :: c <= j < |cs| ==> !Check(LastByte(eol))(cs[j])
  {
  }

  function Rest(tail: Bytes, cs: seq<Bytes>): seq<Bytes> {
    if tail == [] then cs else [tail] + cs
  }

  /** Dropping up to the inside of chunk k leaves the rest of that chunk and the later chunks. */
  lemma {:induction false} DropInsideChunk(cs: seq<Bytes>, k: nat, q: nat)
    requires NoEmptyChunk(cs) && k < |cs| && (0 < q <= |cs[k]| || (q == 0 && k == 0))
    ensures |Flatten(cs[..k])| + q <= |Flatten(cs)|
    ensures DropBytes(cs, |Flatten(cs[..k])| + q) == Rest(cs[k][q..], cs[k + 1..])
    decreases k
  {
    FlattenAround(cs, k);
    assert cs[0] != [];
    if k > 0 {
      assert cs[..k][1..] == cs[1..][..k - 1];
      assert cs[1..][k - 1] == cs[k];
      assert cs[1..][k..] == cs[k + 1..];
      DropInsideChunk(cs[1..], k - 1, q);
    } else if q == 0 {
      assert cs == [cs[0]] + cs[1..];
    } else if q == |cs[0]| {
      assert DropBytes(cs, q) == cs[1..];
    }
  }

  /** `t` are the chunks popped so far, `got` their size, `left` the others. */
  ghost predicate Gathered(cs: seq<Bytes>, t: seq<Bytes>, left: seq<Bytes>, got: int) {
    |t| <= |cs| && t == cs[..|t|] && left == cs[|t|..] && got == |Flatten(cs[..|t|])|
  }

  lemma MoreChunks(cs: seq<Bytes>, t: seq<Bytes>, left: seq<Bytes>, got: int)
    requires Gathered(cs, t, left, got) && got < |Flatten(cs)|
    ensures left != [] && |t| < |cs| && left[0] == cs[|t|] && left[1..] == cs[|t| + 1..]
    ensures Gathered(cs, t + [left[0]], left[1..], got + |left[0]|)
  {
    var k := |t|;
    assert cs[..|cs|] == cs;
    FlattenAround(cs, k);
    assert cs[..k + 1] == t + [cs[k]];
  }

  /** Taking the first n bytes, n reached inside chunk k. */
  lemma TakePart(cs: seq<Bytes>, k: nat, n: nat)
    requires NoEmptyChunk(cs) && k < |cs| && |Flatten(cs[..k])| < n <= |Flatten(cs[..k])| + |cs[k]|
    ensures var pos := n - |Flatten(cs[..k])|;
            && n <= |Flatten(cs)|
            && Flatten(cs[..k] + [cs[k][..pos]]) == Flatten(cs)[..n]
            && DropBytes(cs, n) == Rest(cs[k][pos..], cs[k + 1..])
  {
    var pos := n - |Flatten(cs[..k])|;
    DropInsideChunk(cs, k, pos);
    FlattenAround(cs, k);
    FlattenConcat(cs[..k], [cs[k][..pos]]);
    FlattenOne(cs[k][..pos]);
  }

  /** A cut that stops inside chunk k, seen through the chunks up to k. */
  lemma StopInsideChunk(cs: seq<Bytes>, k: nat, stop: nat)
    requires NoEmptyChunk(cs) && k < |cs| && stop <= |Flatten(cs[..k])| + |cs[k]|
    requires |Flatten(cs[..k])| < stop || (stop == 0 && k == 0)
    ensures var f := Flatten(cs[..k]) + cs[k];
            && stop <= |f| <= |Flatten(cs)| && f <= Flatten(cs)
            && DropBytes(cs, stop) == Rest(f[stop..], cs[k + 1..])
            && |Flatten(Rest(f[stop..], cs[k + 1..]))| == |Flatten(cs)| - stop
  {
    FlattenAround(cs, k);
    var base := Flatten(cs[..k]);
    if k == 0 {
      assert base == [];
    }
    hide Flatten;
    DropInsideChunk(cs, k, stop - |base|);
    CutInSecond(base, cs[k], stop - |base|);
  }

  lemma ReadLineAtCut(e: Eol, keep: bool, cs: seq<Bytes>, m: Match)
    requires NoEmptyChunk(cs) && LineCut(e, cs) == Some(m)
    ensures m.start <= m.stop <= |Flatten(cs)|
    ensures LineSpec(e, keep, cs) == (Some(Flatten(cs)[..if keep then m.stop else m.start]), DropBytes(cs, m.stop))
  {
    LineCutInRange(e, cs);
  }

  lemma FastCutEmpty(cs: seq<Bytes>)
    requires NoEmptyChunk(cs) && cs != []
    ensures LineCut(Plain([]), cs) == Some(Match(0, 0)) && Find(Plain([]), cs[0]) == Some(Match(0, 0))
    ensures Flatten(cs[..0]) == []
  {
  }

  lemma FastCut(eol: Bytes, cs: seq<Bytes>, c: nat, k: nat)
    requires Searching(Plain(eol), cs, c) && NextCandidate(eol, cs, c, k)
    requires Find(Plain(eol), cs[k]).Some?
    ensures var base, m := |Flatten(cs[..k])|, Find(Plain(eol), cs[k]).value;
            && LineCut(Plain(eol), cs) == Some(Match(base + m.start, base + m.stop))
            && (0 < m.stop || (m.stop == 0 && k == 0)) && m.start <= m.stop <= |cs[k]|
  {
    hide LineCut;
    CandidateBytes(eol, true, cs, c, k);
    if eol == [] {
      FastCutEmpty(cs);
    } else {
      CutInsideChunk(Plain(eol), cs, c, k);
      MatchEndsInEndByte(Plain(eol), cs[k], Find(Plain(eol), cs[k]).value.start);
    }
  }

  /** What the loop hands over when it has found the cut `m`, stopping inside chunk k: the line, the rest
      of chunk k, and the number of terminator bytes in neither. */
  ghost predicate Hands(keep: bool, cs: seq<Bytes>, k: nat, m: Match, line: Bytes, tail: Bytes, eolLen: nat)
    requires k < |cs|
  {
    && m.start <= m.stop <= |Flatten(cs)|
    && line == Flatten(cs)[..if keep then m.stop else m.start]
    && |line| + eolLen == m.stop
    && DropBytes(cs, m.stop) == Rest(tail, cs[k + 1..])
  }

  lemma CutHands(keep: bool, cs: seq<Bytes>, k: nat, m: Match, f: Bytes)
    requires NoEmptyChunk(cs) && k < |cs| && f == Flatten(cs[..k]) + cs[k]
    requires m.start <= m.stop <= |f|
    requires |Flatten(cs[..k])| < m.stop || (m.stop == 0 && k == 0)
    ensures Hands(keep, cs, k, m, f[..if keep then m.stop else m.start], f[m.stop..],
                  if keep then 0 else m.stop - m.start)
  {
    StopInsideChunk(cs, k, m.stop);
    SamePrefix(f, Flatten(cs), m.stop);
    SamePrefix(f, Flatten(cs), m.start);
  }

  lemma SamePrefix(f: Bytes, s: Bytes, n: nat)
    requires f <= s && n <= |f|
    ensures f[..n] == s[..n]
  {
  }

  lemma ChunkCutHands(keep: bool, cs: seq<Bytes>, k: nat, m: Match)
    requires NoEmptyChunk(cs) && k < |cs| && m.start <= m.stop <= |cs[k]| && (0 < m.stop || k == 0)
    ensures var base := Flatten(cs[..k]);
            Hands(keep, cs, k, Match(|base| + m.start, |base| + m.stop),
                  base + cs[k][..if keep then m.stop else m.start], cs[k][m.stop..],
                  if keep then 0 else m.stop - m.start)
  {
    var base := Flatten(cs[..k]);
    if k == 0 {
      assert cs[..0] == [];
    }
    hide Hands, Flatten;
    CutInSecond(base, cs[k], m.start);
    CutInSecond(base, cs[k], m.stop);
    CutHands(keep, cs, k, Match(|base| + m.start, |base| + m.stop), base + cs[k]);
  }

  lemma SplitFirstIs(e: Eol, s: Bytes, keep: bool)
    requires SplitFirst(e, s, keep).Some?
    ensures Find(e, s).Some?
    ensures var m, cut := Find(e, s).value, SplitFirst(e, s, keep).value;
            && m.start <= m.stop <= |s|
            && cut.line == s[..if keep then m.stop else m.start] && cut.tail == s[m.stop..]
            && cut.eolLen == if keep then 0 else m.stop - m.start
  {
  }

  /** The terminator is inside the last popped chunk. */
  lemma FastPath(eol: Bytes, keep: bool, cs: seq<Bytes>, c: nat, k: nat)
    requires Searching(Plain(eol), cs, c) && NextCandidate(eol, cs, c, k)
    requires SplitFirst(Plain(eol), cs[k], keep).Some?
    ensures LineCut(Plain(eol), cs).Some?
    ensures var cut := SplitFirst(Plain(eol), cs[k], keep).value;
            Hands(keep, cs, k, LineCut(Plain(eol), cs).value, Flatten(cs[..k]) + cut.line, cut.tail, cut.eolLen)
  {
    hide LineCut;
    SplitFirstIs(Plain(eol), cs[k], keep);
    FastCut(eol, cs, c, k);
    ChunkCutHands(keep, cs, k, Find(Plain(eol), cs[k]).value);
  }

  /** A terminator of at most one byte is found in every candidate chunk. */
  lemma CandidateIsFound(eol: Bytes, plain: bool, cs: seq<Bytes>, c: nat, k: nat)
    requires NextCandidate(eol, cs, c, k) && eol == LastByte(eol)
    ensures Find(Plain(eol), cs[k]).Some?
  {
  }

  /** The terminator is in the concatenation of everything popped. */
  lemma SlowPath(e: Eol, keep: bool, cs: seq<Bytes>, c: nat, k: nat)
    requires e.Proper() && Searching(e, cs, c) && c <= k < |cs|
    requires forall j :: c <= j < k ==> e.EndByte() !in cs[j]
    requires e.Plain? ==> Find(e, cs[k]).None?
    requires SplitFirst(e, Flatten(cs[..k + 1]), keep).Some?
    ensures LineCut(e, cs).Some?
    ensures var cut := SplitFirst(e, Flatten(cs[..k + 1]), keep).value;
            Hands(keep, cs, k, LineCut(e, cs).value, cut.line, cut.tail, cut.eolLen)
  {
    SplitFirstIs(e, Flatten(cs[..k + 1]), keep);
    CutInConcat(e, cs, c, k);
    EndsInLastChunk(e, cs, c, k, Find(e, Flatten(cs[..k + 1])).value.start);
    FlattenAround(cs, k);
    CutHands(keep, cs, k, Find(e, Flatten(cs[..k + 1])).value, Flatten(cs[..k + 1]));
  }

  class Buffer {
    const lst: Deque.List<Bytes>
    var size: int
    var eol: Bytes
    var eolPlain: bool
    var eolChar: Bytes

    ghost predicate Valid()
      reads this, lst
    {
      && lst.Valid()
      && NoEmptyChunk(lst.contents)
      && size == |Flatten(lst.contents)|
      && Supported(eol, eolPlain)
      && eolChar == LastByte(eol)
    }

    ghost function Chunks(): (cs: seq<Bytes>)
      reads this, lst
      requires Valid()
      ensures NoEmptyChunk(cs)
    {
      lst.contents
    }

    ghost function Terminator(): Eol
      reads this
    {
      Pattern(eol, eolPlain)
    }

    constructor (eol: Bytes := [LF], eolIsRex: bool := false)
      requires Supported(eol, !eolIsRex)
      ensures Valid() && Chunks() == [] && fresh(lst)
      ensures Terminator() == Pattern(eol, !eolIsRex)
    {
      lst := new Deque.List<Bytes>();
      size := 0;
      this.eol, eolPlain, eolChar := eol, !eolIsRex, LastByte(eol);
    }

    method Reset()
      requires Valid()
      modifies this`size, lst
      ensures Valid() && Chunks() == []
    {
      lst.Reset();
      size := 0;
    }

    method SetEol(eol: Bytes, eolIsRex: bool)
      requires Valid() && Supported(eol, !eolIsRex)
      modifies this`eol, this`eolPlain, this`eolChar
      ensures Valid() && Chunks() == old(Chunks())
      ensures Terminator() == Pattern(eol, !eolIsRex)
    {
      this.eol, eolPlain, eolChar := eol, !eolIsRex, LastByte(eol);
    }

    method Append(data: Bytes)
      requires Valid()
      modifies this`size, lst
      ensures Valid() && Chunks() == LineLaws.Appended(old(Chunks()), data)
      ensures size == old(size) + |data|
    {
      LineLaws.AppendedBytes(Chunks(), data);
      if |data| > 0 {
        lst.PushBack(data);
        size := size + |data|;
      }
    }

    method Prepend(data: Bytes)
      requires Valid()
      modifies this`size, lst
      ensures Valid() && Chunks() == Ops.Prepended(old(Chunks()), data)
      ensures size == old(size) + |data|
    {
      Ops.PrependedBytes(Chunks(), data);
      if |data| > 0 {
        lst.PushFront(data);
        size := size + |data|;
      }
    }

    method Empty() returns (b: bool)
      requires Valid()
      ensures b <==> Chunks() == []
      ensures b <==> size == 0
    {
      b := lst.Empty();
      if Chunks() != [] {
        assert Chunks()[0] != [];
      }
    }

    /** Pops the first `n` chunks onto `t`. */
    method PopChunks(n: nat, t: seq<Bytes>) returns (r: seq<Bytes>)
      requires lst.Valid() && n <= |lst.contents|
      modifies lst
      ensures lst.Valid() && lst.contents == old(lst.contents)[n..]
      ensures r == t + old(lst.contents)[..n]
    {
      r := t;
      ghost var cs := lst.contents;
      var i := n;
      while i >= 1
        invariant 0 <= i <= n && lst.Valid()
        invariant lst.contents == cs[n - i..]
        invariant r == t + cs[..n - i]
      {
        var c := lst.PopFront();
        assert cs[..n - i + 1] == cs[..n - i] + [c.value];
        r := r + [c.value];
        i := i - 1;
      }
    }

    /** The chunks still listed, once `line` is decided, are those after the last popped one. */
    method TakeLine(line: Bytes, tail: Bytes, eolLen: nat, ghost e: Eol, ghost keep: bool,
                    ghost cs: seq<Bytes>, ghost k: nat)
      requires NoEmptyChunk(cs) && k < |cs| && LineCut(e, cs).Some?
      requires Hands(keep, cs, k, LineCut(e, cs).value, line, tail, eolLen)
      requires lst.Valid() && lst.contents == cs[k + 1..] && size == |Flatten(cs)|
      requires Supported(eol, eolPlain) && eolChar == LastByte(eol)
      modifies this`size, lst
      ensures Valid() && (Some(line), Chunks()) == LineSpec(e, keep, cs)
    {
      ReadLineAtCut(e, keep, cs, LineCut(e, cs).value);
      if |tail| > 0 {
        lst.PushFront(tail);
      }
      size := size - (|line| + eolLen);
    }

    method PutBack(t: seq<Bytes>, ghost eol: Bytes, ghost plain: bool, ghost keep: bool, ghost cs: seq<Bytes>, ghost c: nat)
      requires Supported(eol, plain) && Searching(Pattern(eol, plain), cs, c)
      requires lst.Valid() && lst.contents == cs[c..] && size == |Flatten(cs)|
      requires forall j :: 0 <= j < |lst.contents| ==> !Check(LastByte(eol))(lst.contents[j])
      requires t == if c == 0 then [] else [Flatten(cs[..c])]
      requires Supported(this.eol, eolPlain) && eolChar == LastByte(this.eol)
      modifies lst
      ensures Valid() && (None, Chunks()) == LineSpec(Pattern(eol, plain), keep, cs)
    {
      NoCandidate(eol, cs, c, lst.contents);
      GiveUp(eol, plain, cs, c);
      CoalescedKeepsBytes(Pattern(eol, plain), cs);
      if |t| > 0 {
        FlattenOne(Flatten(cs[..c]));
        lst.PushFront(Flatten(t));
      }
    }

    /** Finds the next chunk that holds `ch` and pops through it; 0 when no chunk does. */
    method PopThroughCandidate(ch: Bytes, t: seq<Bytes>, ghost eol: Bytes, ghost cs: seq<Bytes>, ghost c: nat)
      returns (i: nat, r: seq<Bytes>)
      requires lst.Valid() && c <= |cs| && lst.contents == cs[c..] && ch == LastByte(eol)
      modifies lst
      ensures lst.Valid()
      ensures i == 0 ==> unchanged(lst) && r == t
      ensures i == 0 ==> forall j :: 0 <= j < |lst.contents| ==> !Check(LastByte(eol))(lst.contents[j])
      ensures i > 0 ==> NextCandidate(eol, cs, c, c + i - 1) && lst.contents == cs[c + i..]
      ensures i > 0 ==> |r| >= 1 && r[|r| - 1] == cs[c + i - 1] && r[..|r| - 1] == t + cs[c..c + i - 1]
    {
      var found, _ := lst.Find((e: Option<Bytes>) => e.Some? && Check(ch)(e.value));
      FoundChunk(lst.contents, Check(ch), found);
      if found.None? {
        return 0, t;
      }
      i := found.value;
      assert i > 0;
      Candidate(eol, cs, c, c + i - 1);
      PoppedLast(cs, c, c + i - 1, t);
      r := PopChunks(i, t);
    }

    /** The fast path: try to find the terminator in the last popped chunk. */
    method SearchLast(keep: bool, eol: Bytes, plain: bool, ch: Bytes, t: seq<Bytes>,
                      ghost cs: seq<Bytes>, ghost c: nat, ghost k: nat)
      returns (r: Option<Bytes>)
      requires Supported(eol, plain) && ch == LastByte(eol)
      requires Searching(Pattern(eol, plain), cs, c) && NextCandidate(eol, cs, c, k)
      requires |t| >= 1 && t[|t| - 1] == cs[k]
      requires t[..|t| - 1] == (if c == 0 then [] else [Flatten(cs[..c])]) + cs[c..k]
      requires lst.Valid() && lst.contents == cs[k + 1..] && size == |Flatten(cs)|
      requires Supported(this.eol, eolPlain) && eolChar == LastByte(this.eol)
      modifies this`size, lst
      ensures r.Some? ==> Valid() && (r, Chunks()) == LineSpec(Pattern(eol, plain), keep, cs)
      ensures r.None? ==> unchanged(this) && unchanged(lst)
      ensures r.None? && Pattern(eol, plain).Plain? ==> eol != ch && Find(Pattern(eol, plain), cs[k]).None?
    {
      hide LineCut;
      var cut: Option<Cut> := None;
      if plain || eol == ch {
        cut := SplitFirst(Plain(eol), t[|t| - 1], keep);
      }
      if eol == ch {
        CandidateIsFound(eol, plain, cs, c, k);
        assert cut.Some?;
      }
      if cut.None? {
        return None;
      }
      FastPath(eol, keep, cs, c, k);
      var t' := t[..|t| - 1] + [cut.value.line];
      Popped(cs, c, k, t');
      r := Some(Flatten(t'));
      TakeLine(r.value, cut.value.tail, cut.value.eolLen, Plain(eol), keep, cs, k);
    }

    /** One turn of `read_line` after popping through chunk k: try the last popped chunk alone, then
        everything popped. */
    method SearchPopped(keep: bool, eol: Bytes, plain: bool, ch: Bytes, t: seq<Bytes>,
                        ghost cs: seq<Bytes>, ghost c: nat, ghost k: nat)
      returns (r: Option<Bytes>)
      requires Supported(eol, plain) && ch == LastByte(eol)
      requires Searching(Pattern(eol, plain), cs, c) && NextCandidate(eol, cs, c, k)
      requires |t| >= 1 && t[|t| - 1] == cs[k]
      requires t[..|t| - 1] == (if c == 0 then [] else [Flatten(cs[..c])]) + cs[c..k]
      requires lst.Valid() && lst.contents == cs[k + 1..] && size == |Flatten(cs)|
      requires Supported(this.eol, eolPlain) && eolChar == LastByte(this.eol)
      modifies this`size, lst
      ensures r.Some? ==> Valid() && (r, Chunks()) == LineSpec(Pattern(eol, plain), keep, cs)
      ensures r.None? ==> unchanged(this) && unchanged(lst)
      ensures r.None? ==> Flatten(t) == Flatten(cs[..k + 1]) && Searching(Pattern(eol, plain), cs, k + 1)
    {
      r := SearchLast(keep, eol, plain, ch, t, cs, c, k);
      if r.Some? {
        return;
      }
      // concatenate everything popped and search that
      var e := Pattern(eol, plain);
      Popped(cs, c, k, t);
      CandidateBytes(eol, plain, cs, c, k);
      var cut := SplitFirst(e, Flatten(t), keep);
      if cut.Some? {
        SlowPath(e, keep, cs, c, k);
        r := Some(cut.value.line);
        TakeLine(r.value, cut.value.tail, cut.value.eolLen, e, keep, cs, k);
      }
    }

    /** One turn of the loop: pop through the next candidate chunk and search, or give up. `t` becomes
        the concatenation of everything popped, and `i` the number of chunks this turn popped. */
    method Turn(keep: bool, eol: Bytes, plain: bool, ch: Bytes, t: seq<Bytes>, ghost cs: seq<Bytes>, ghost c: nat)
      returns (done: bool, r: Option<Bytes>, t': seq<Bytes>, ghost i: nat)
      requires Supported(eol, plain) && ch == LastByte(eol)
      requires Searching(Pattern(eol, plain), cs, c)
      requires lst.Valid() && lst.contents == cs[c..] && size == |Flatten(cs)|
      requires t == if c == 0 then [] else [Flatten(cs[..c])]
      requires Supported(this.eol, eolPlain) && eolChar == LastByte(this.eol)
      modifies this`size, lst
      ensures done ==> Valid() && (r, Chunks()) == LineSpec(Pattern(eol, plain), keep, cs)
      ensures !done ==>
                && i > 0 && Searching(Pattern(eol, plain), cs, c + i)
                && lst.Valid() && lst.contents == cs[c + i..] && size == |Flatten(cs)|
                && t' == [Flatten(cs[..c + i])]
    {
      var n, popped := PopThroughCandidate(ch, t, eol, cs, c);
      i := n;
      if n == 0 {
        PutBack(t, eol, plain, keep, cs, c);
        return true, None, [], 0;
      }
      r := SearchPopped(keep, eol, plain, ch, popped, cs, c, c + n - 1);
      done := r.Some?;
      t' := [Flatten(popped)];
    }

    /** The shared body of `read_line` and `read_line_eol`. */
    method ReadLineWith(keep: bool, eol: Bytes, plain: bool, ch: Bytes) returns (r: Option<Bytes>)
      requires Valid() && Supported(eol, plain) && ch == LastByte(eol)
      modifies this`size, lst
      ensures Valid()
      ensures (r, Chunks()) == LineSpec(Pattern(eol, plain), keep, old(Chunks()))
    {
      ghost var cs, c := Chunks(), 0;
      var t: seq<Bytes> := [];
      while true
        invariant Searching(Pattern(eol, plain), cs, c)
        invariant lst.Valid() && lst.contents == cs[c..] && size == |Flatten(cs)|
        invariant t == if c == 0 then [] else [Flatten(cs[..c])]
        decreases |cs| - c
      {
        var done, line, rest;
        ghost var i;
        done, line, rest, i := Turn(keep, eol, plain, ch, t, cs, c);
        if done {
          return line;
        }
        t := rest;
        c := c + i;
      }
    }

    /** `read_line`: without arguments the buffer's own terminator. */
    method ReadLine(eol: Option<Bytes> := None, eolIsRex: bool := false) returns (r: Option<Bytes>)
      requires Valid() && (eol.Some? ==> Supported(eol.value, !eolIsRex))
      modifies this`size, lst
      ensures Valid()
      ensures (r, Chunks()) == LineSpec(if eol.Some? then Pattern(eol.value, !eolIsRex) else Terminator(),
                                        false, old(Chunks()))
    {
      if eol.Some? {
        r := ReadLineWith(false, eol.value, !eolIsRex, LastByte(eol.value));
      } else {
        r := ReadLineWith(false, this.eol, eolPlain, eolChar);
      }
    }

    method ReadLineEol(eol: Option<Bytes> := None, eolIsRex: bool := false) returns (r: Option<Bytes>)
      requires Valid() && (eol.Some? ==> Supported(eol.value, !eolIsRex))
      modifies this`size, lst
      ensures Valid()
      ensures (r, Chunks()) == LineSpec(if eol.Some? then Pattern(eol.value, !eolIsRex) else Terminator(),
                                        true, old(Chunks()))
    {
      if eol.Some? {
        r := ReadLineWith(true, eol.value, !eolIsRex, LastByte(eol.value));
      } else {
        r := ReadLineWith(true, this.eol, eolPlain, eolChar);
      }
    }

    method ReadAll() returns (r: Bytes)
      requires Valid()
      modifies this`size, lst
      ensures Valid() && Chunks() == [] && size == 0
      ensures r == Flatten(old(Chunks()))
    {
      var t: seq<Bytes> := [];
      ghost var cs := Chunks();
      var e := lst.Empty();
      while !e
        invariant lst.Valid() && |t| <= |cs| && t == cs[..|t|] && lst.contents == cs[|t|..]
        invariant e <==> lst.contents == []
        decreases |cs| - |t|
      {
        var c := lst.PopFront();
        t := t + [c.value];
        e := lst.Empty();
      }
      size := 0;
      assert t == cs;
      r := Flatten(t);
    }

    method ReadSome() returns (r: Option<Bytes>)
      requires Valid()
      modifies this`size, lst
      ensures Valid()
      ensures (r, Chunks()) == Ops.ReadSome(old(Chunks()))
    {
      var e := lst.Empty();
      if e {
        return None;
      }
      r := lst.PopFront();
      if r.Some? {
        size := size - |r.value|;
      }
    }

    method PopNext(t: seq<Bytes>, got: nat, ghost cs: seq<Bytes>) returns (chunk: Bytes)
      requires lst.Valid() && Gathered(cs, t, lst.contents, got) && got < |Flatten(cs)|
      modifies lst
      ensures lst.Valid() && |t| < |cs| && t == cs[..|t|] && chunk == cs[|t|] && lst.contents == cs[|t| + 1..]
      ensures Gathered(cs, t + [chunk], lst.contents, got + |chunk|)
    {
      MoreChunks(cs, t, lst.contents, got);
      var front := lst.PopFront();
      chunk := front.value;
    }

    /** The chunk in which the n-th byte lies: its first bytes complete the result, the others go back. */
    method TakeN(t: seq<Bytes>, chunk: Bytes, got: nat, n: nat, ghost cs: seq<Bytes>) returns (r: Option<Bytes>)
      requires NoEmptyChunk(cs) && |t| < |cs| && t == cs[..|t|] && chunk == cs[|t|]
      requires got == |Flatten(t)| < n <= got + |chunk| && n <= |Flatten(cs)|
      requires lst.Valid() && lst.contents == cs[|t| + 1..] && size == |Flatten(cs)|
      requires Supported(eol, eolPlain) && eolChar == LastByte(eol)
      modifies this`size, lst
      ensures Valid()
      ensures (r, Chunks()) == Ops.ReadN(n, cs)
    {
      assert n > got;
      var pos := n - got;
      TakePart(cs, |t|, n);
      if pos < |chunk| {
        lst.PushFront(chunk[pos..]);
      }
      size := size - n;
      r := Some(Flatten(t + [chunk[..pos]]));
    }

    /** The loop of `read_n`. */
    method GatherN(n: nat) returns (r: Option<Bytes>)
      requires Valid() && 1 <= n <= size
      modifies this`size, lst
      ensures Valid()
      ensures (r, Chunks()) == Ops.ReadN(n, old(Chunks()))
    {
      ghost var cs := Chunks();
      var got: nat, t: seq<Bytes> := 0, [];
      while true
        invariant lst.Valid() && Gathered(cs, t, lst.contents, got)
        invariant got < n <= size == |Flatten(cs)|
        decreases |cs| - |t|
      {
        var chunk := PopNext(t, got, cs);
        if got + |chunk| >= n {
          r := TakeN(t, chunk, got, n, cs);
          return;
        }
        t := t + [chunk];
        got := got + |chunk|;
      }
    }

    /** `read_n` for a whole number of bytes that is not negative; a negative one stops the source at
        its assertion `n > size`. */
    method ReadN(n: nat) returns (r: Option<Bytes>)
      requires Valid()
      modifies this`size, lst
      ensures Valid()
      ensures (r, Chunks()) == Ops.ReadN(n, old(Chunks()))
    {
      if n == 0 {
        var e := lst.Empty();
        return if e then None else Some([]);
      }
      if size < n {
        return None;
      }
      r := GatherN(n);
    }

    /** `read`: dispatch on the pattern. */
    method Read(pat: Ops.ReadPattern) returns (r: Option<Bytes>)
      requires Valid()
      modifies this`size, lst
      ensures Valid()
      ensures (r, Chunks()) == Ops.ReadAs(pat, Terminator(), old(Chunks()))
      ensures Ops.ReadGives(pat, Terminator(), old(Chunks()), r, Chunks())
    {
      Ops.ReadMeans(pat, Terminator(), Chunks());
      match pat
      case NextChunk => r := ReadSome();
      case Line => r := ReadLine();
      case LineEol => r := ReadLineEol();
      case All =>
        var all := ReadAll();
        r := Some(all);
      case Count(n) => r := ReadN(n);
    }

    /** `next_line`: append, then read a line; a terminator given here is a Lua pattern. */
    method NextLine(data: Option<Bytes>, eol: Option<Bytes>) returns (r: Option<Bytes>)
      requires Valid() && (eol.Some? ==> Supported(eol.value, false))
      modifies this`size, lst
      ensures Valid()
      ensures (r, Chunks()) == LineSpec(if eol.Some? then Pattern(eol.value, false) else Terminator(), false,
                                        LineLaws.Appended(old(Chunks()), if data.Some? then data.value else []))
    {
      if data.Some? {
        Append(data.value);
      }
      r := ReadLine(eol, true);
    }
  }
}

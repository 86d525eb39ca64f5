/** Lua byte strings, the two line terminators the library uses with `string.find`
    (a plain byte string, and the pattern `\r*\n`), and `split` (utils.lua). */
module LuaStrings {
  import opened Wrappers
  import opened Seqs

  newtype byte = x: int | 0 <= x < 256

  type Bytes = seq<byte>

  const CR: byte := 13
  const LF: byte := 10

  /** The text of the Lua pattern `\r*\n`. */
  const CR_STAR_LF: Bytes := [13, 42, 10]

  datatype Eol = Plain(sep: Bytes) | CrStarLf {
    predicate Proper() {
      Plain? ==> sep != []
    }

    /** A terminator whose every match is decided inside one byte run ending at its last byte. */
    predicate OneEndByte() {
      Plain? ==> |sep| == 1
    }

    /** Every match ends in this byte. */
    function EndByte(): byte
      requires Proper()
    {
      if Plain? then sep[|sep| - 1] else LF
    }
  }

  /** A match occupies s[start..stop]. */
  datatype Match = Match(start: nat, stop: nat)

  /** Where a match of `e` that begins exactly at `i` stops; the pattern takes every CR it can. */
  function MatchAt(e: Eol, s: Bytes, i: nat): (r: Option<nat>)
    requires i <= |s|
    ensures r.Some? ==> i <= r.value <= |s|
    decreases |s| - i
  {
    match e
    case Plain(sep) =>
      if i + |sep| <= |s| && s[i..i + |sep|] == sep then Some(i + |sep|) else None
    case CrStarLf =>
      if i == |s| then None
      else if s[i] == LF then Some(i + 1)
      else if s[i] == CR then MatchAt(e, s, i + 1)
      else None
  }

  /** `m` is the leftmost match of `e` in `s` among those that begin at `from` or later. */
  ghost predicate Leftmost(e: Eol, s: Bytes, from: nat, m: Match) {
    && from <= m.start <= |s|
    && MatchAt(e, s, m.start) == Some(m.stop)
    && forall i :: from <= i < m.start ==> MatchAt(e, s, i) == None
  }

  ghost predicate NoMatch(e: Eol, s: Bytes, from: nat) {
    forall i :: from <= i <= |s| ==> MatchAt(e, s, i) == None
  }

  /** `string.find(s, e, from)`: tries every start from the left. */
  function FindFrom(e: Eol, s: Bytes, from: nat): (r: Option<Match>)
    requires from <= |s|
    ensures r.Some? ==> Leftmost(e, s, from, r.value)
    ensures r.None? ==> NoMatch(e, s, from)
    decreases |s| - from
  {
    var here := MatchAt(e, s, from);
    if here.Some? then Some(Match(from, here.value))
    else if from == |s| then None
    else FindFrom(e, s, from + 1)
  }

  function Find(e: Eol, s: Bytes): (r: Option<Match>)
    ensures r.Some? ==> Leftmost(e, s, 0, r.value)
    ensures r.None? ==> NoMatch(e, s, 0)
  {
    FindFrom(e, s, 0)
  }

  lemma LeftmostIsFound(e: Eol, s: Bytes, from: nat, m: Match)
    requires from <= |s| && Leftmost(e, s, from, m)
    ensures FindFrom(e, s, from) == Some(m)
  {
  }

  // ----- What a match looks like -----

  lemma {:induction false} MatchEndsInEndByte(e: Eol, s: Bytes, i: nat)
    requires i <= |s| && e.Proper() && MatchAt(e, s, i).Some?
    ensures i < MatchAt(e, s, i).value
    ensures s[MatchAt(e, s, i).value - 1] == e.EndByte()
    decreases |s| - i
  {
    if e.CrStarLf? && s[i] != LF {
      MatchEndsInEndByte(e, s, i + 1);
    } else if e.Plain? {
      assert s[i..i + |e.sep|][|e.sep| - 1] == s[i + |e.sep| - 1];
    }
  }

  /** A match is a run of CR bytes and one LF. */
  lemma {:induction false} CrStarLfShape(s: Bytes, i: nat)
    requires i <= |s|
    ensures var r := MatchAt(CrStarLf, s, i);
            r.Some? ==>
              && i < r.value && s[r.value - 1] == LF
              && forall k :: i <= k < r.value - 1 ==> s[k] == CR
    ensures forall j :: i < j <= |s| && s[j - 1] == LF && (forall k :: i <= k < j - 1 ==> s[k] == CR)
                        ==> MatchAt(CrStarLf, s, i) == Some(j)
    decreases |s| - i
  {
    if i < |s| {
      CrStarLfShape(s, i + 1);
      forall j | i < j <= |s| && s[j - 1] == LF && (forall k :: i <= k < j - 1 ==> s[k] == CR)
        ensures MatchAt(CrStarLf, s, i) == Some(j)
      {
        assert i < j - 1 ==> s[i] == CR;
      }
    }
  }

  /** Bytes after the end of a match do not matter to it. */
  lemma {:induction false} MatchAtPrefix(e: Eol, s: Bytes, t: Bytes, i: nat)
    requires i <= |s|
    ensures MatchAt(e, s, i).Some? ==> MatchAt(e, s + t, i) == MatchAt(e, s, i)
    ensures MatchAt(e, s + t, i).Some? && MatchAt(e, s + t, i).value <= |s|
            ==> MatchAt(e, s, i) == MatchAt(e, s + t, i)
    decreases |s| - i
  {
    match e
    case Plain(sep) =>
      if i + |sep| <= |s| {
        assert (s + t)[i..i + |sep|] == s[i..i + |sep|];
      }
    case CrStarLf =>
      if i < |s| {
        assert (s + t)[i] == s[i];
        MatchAtPrefix(e, s, t, i + 1);
      } else if MatchAt(e, s + t, i).Some? {
        MatchEndsInEndByte(e, s + t, i);
      }
  }

  /** Bytes before the start of a match do not matter to it. */
  lemma {:induction false} MatchAtShift(e: Eol, a: Bytes, s: Bytes, i: nat)
    requires i <= |s|
    ensures MatchAt(e, a + s, |a| + i).Some? <==> MatchAt(e, s, i).Some?
    ensures MatchAt(e, s, i).Some? ==> MatchAt(e, a + s, |a| + i).value == |a| + MatchAt(e, s, i).value
    decreases |s| - i
  {
    match e
    case Plain(sep) =>
      if i + |sep| <= |s| {
        assert (a + s)[|a| + i..|a| + i + |sep|] == s[i..i + |sep|];
      }
    case CrStarLf =>
      if i < |s| {
        assert (a + s)[|a| + i] == s[i];
        MatchAtShift(e, a, s, i + 1);
      }
  }

  /** A match inside the middle part is a match of the whole, and conversely. */
  lemma MatchInMiddle(e: Eol, a: Bytes, s: Bytes, t: Bytes, i: nat)
    requires i <= |s| && MatchAt(e, s, i).Some?
    ensures MatchAt(e, a + s, |a| + i) == Some(|a| + MatchAt(e, s, i).value)
    ensures MatchAt(e, a + s + t, |a| + i) == Some(|a| + MatchAt(e, s, i).value)
  {
    MatchAtShift(e, a, s, i);
    MatchAtPrefix(e, a + s, t, |a| + i);
  }

  /** Matches that begin earlier do not stop later. */
  lemma {:induction false} StopsInOrder(e: Eol, s: Bytes, i: nat, j: nat)
    requires i <= j <= |s| && MatchAt(e, s, i).Some? && MatchAt(e, s, j).Some?
    ensures MatchAt(e, s, i).value <= MatchAt(e, s, j).value
    decreases j - i
  {
    if e.CrStarLf? && i < j && s[i] != LF {
      StopsInOrder(e, s, i + 1, j);
    }
  }

  /** A match found in the bytes received so far stays the first one when more bytes arrive. */
  lemma FoundStaysFound(e: Eol, s: Bytes, t: Bytes)
    requires Find(e, s).Some?
    ensures Find(e, s + t) == Find(e, s)
  {
    var m := Find(e, s).value;
    MatchAtPrefix(e, s, t, m.start);
    var f := Find(e, s + t);
    assert f.Some? && f.value.start <= m.start;
    StopsInOrder(e, s + t, f.value.start, m.start);
    MatchAtPrefix(e, s, t, f.value.start);
    assert MatchAt(e, s, f.value.start).Some?;
  }

  /** Conversely, a first match that lies within a prefix is the first match of the prefix. */
  lemma FoundInPrefix(e: Eol, s: Bytes, t: Bytes)
    requires Find(e, s + t).Some? && Find(e, s + t).value.stop <= |s|
    ensures Find(e, s) == Find(e, s + t)
  {
    var m := Find(e, s + t).value;
    MatchAtPrefix(e, s, t, m.start);
    assert MatchAt(e, s, m.start).Some?;
    FoundStaysFound(e, s, t);
  }

  lemma SuffixLeftmost(e: Eol, a: Bytes, s: Bytes, m: Match)
    requires Leftmost(e, s, 0, m)
    ensures Leftmost(e, a + s, |a|, Match(|a| + m.start, |a| + m.stop))
  {
    MatchAtShift(e, a, s, m.start);
    forall i | |a| <= i < |a| + m.start
      ensures MatchAt(e, a + s, i) == None
    {
      assert MatchAt(e, s, i - |a|) == None;
      MatchAtShift(e, a, s, i - |a|);
    }
  }

  lemma SuffixNoMatch(e: Eol, a: Bytes, s: Bytes)
    requires NoMatch(e, s, 0)
    ensures NoMatch(e, a + s, |a|)
  {
    forall i | |a| <= i <= |a + s|
      ensures MatchAt(e, a + s, i) == None
    {
      assert MatchAt(e, s, i - |a|) == None;
      MatchAtShift(e, a, s, i - |a|);
    }
  }

  /** Searching from the end of `a` on is searching what follows. */
  lemma FindAfter(e: Eol, a: Bytes, t: Bytes)
    ensures Find(e, t).None? ==> FindFrom(e, a + t, |a|) == None
    ensures Find(e, t).Some? ==>
              var m := Find(e, t).value;
              FindFrom(e, a + t, |a|) == Some(Match(|a| + m.start, |a| + m.stop))
  {
    hide MatchAt, FindFrom, Find;
    if Find(e, t).Some? {
      var m := Find(e, t).value;
      SuffixLeftmost(e, a, t, m);
      LeftmostIsFound(e, a + t, |a|, Match(|a| + m.start, |a| + m.stop));
    } else {
      SuffixNoMatch(e, a, t);
      if FindFrom(e, a + t, |a|).Some? {
        assert false;
      }
    }
  }

  lemma FindFromIsFindInSuffix(e: Eol, s: Bytes, from: nat)
    requires from <= |s|
    ensures Find(e, s[from..]).None? ==> FindFrom(e, s, from) == None
    ensures Find(e, s[from..]).Some? ==>
              var m := Find(e, s[from..]).value;
              FindFrom(e, s, from) == Some(Match(from + m.start, from + m.stop))
  {
    TakeDrop(s, from);
    hide Find, FindFrom, MatchAt, Leftmost, NoMatch;
    FindAfter(e, s[..from], s[from..]);
  }

  /** The pattern `\r*\n` stops just after the first LF and starts at the CR run before it. */
  lemma CrStarLfStopsAtFirstLf(s: Bytes)
    ensures Find(CrStarLf, s).None? <==> LF !in s
    ensures Find(CrStarLf, s).Some? ==>
              var m := Find(CrStarLf, s).value;
              && m.start < m.stop <= |s| && s[m.stop - 1] == LF && LF !in s[..m.stop - 1]
              && (forall k :: m.start <= k < m.stop - 1 ==> s[k] == CR)
              && (m.start > 0 ==> s[m.start - 1] != CR)
  {
    var r := Find(CrStarLf, s);
    if r.None? {
      forall k | 0 <= k < |s|
        ensures s[k] != LF
      {
        assert MatchAt(CrStarLf, s, k) == None;
      }
    } else {
      var m := r.value;
      CrStarLfShape(s, m.start);
      forall k | 0 <= k < m.stop - 1
        ensures s[k] != LF
      {
        assert s[k] == LF ==> MatchAt(CrStarLf, s, k) == Some(k + 1);
      }
      assert m.start > 0 && s[m.start - 1] == CR ==> MatchAt(CrStarLf, s, m.start - 1) == Some(m.stop);
      assert s[m.stop - 1] in s;
    }
  }

  // ----- split -----

  /** The pieces of `s` between the matches of `e`; an empty last piece is not listed. */
  function Pieces(e: Eol, s: Bytes): (r: seq<Bytes>)
    requires e.Proper()
    decreases |s|
  {
    if s == [] then []
    else
      match Find(e, s)
      case None => [s]
      case Some(m) =>
        MatchEndsInEndByte(e, s, m.start);
        [s[..m.start]] + Pieces(e, s[m.stop..])
  }

  lemma PiecesUnfold(e: Eol, t: Bytes)
    requires e.Proper() && t != []
    ensures Find(e, t).None? ==> Pieces(e, t) == [t]
    ensures Find(e, t).Some? ==>
              var m := Find(e, t).value;
              m.start < m.stop <= |t| && Pieces(e, t) == [t[..m.start]] + Pieces(e, t[m.stop..])
  {
  }

  /** The pieces of a suffix begin with what is before the match. */
  predicate PiecesAt(e: Eol, s: Bytes, b: nat, m: Match)
    requires e.Proper()
  {
    b <= m.start < m.stop <= |s| && Pieces(e, s[b..]) == [s[b..m.start]] + Pieces(e, s[m.stop..])
  }

  lemma PiecesStepAt(e: Eol, s: Bytes, b: nat, m: Match)
    requires e.Proper() && b <= |s| && m.start < m.stop <= |s[b..]|
    requires Pieces(e, s[b..]) == [s[b..][..m.start]] + Pieces(e, s[b..][m.stop..])
    ensures PiecesAt(e, s, b, Match(b + m.start, b + m.stop))
  {
    hide Pieces;
    DropSlices(s, b, m.start);
    DropSlices(s, b, m.stop);
  }

  /** One turn of the loop of `split`: the first match from `b` on. */
  lemma PiecesStep(e: Eol, s: Bytes, b: nat)
    requires e.Proper() && b < |s|
    ensures FindFrom(e, s, b) == None ==> Pieces(e, s[b..]) == [s[b..]]
    ensures FindFrom(e, s, b).Some? ==> PiecesAt(e, s, b, FindFrom(e, s, b).value)
  {
    hide Find, FindFrom, Pieces, MatchAt, Leftmost, NoMatch, PiecesAt;
    FindFromIsFindInSuffix(e, s, b);
    PiecesUnfold(e, s[b..]);
    if Find(e, s[b..]).Some? {
      PiecesStepAt(e, s, b, Find(e, s[b..]).value);
    }
  }

  /** `split` of utils.lua. With an empty separator the source never leaves its loop. */
  method Split(e: Eol, str: Bytes) returns (res: seq<Bytes>)
    requires e.Proper()
    ensures res == Pieces(e, str)
  {
    var b := 0;
    res := [];
    while b < |str|
      invariant 0 <= b <= |str|
      invariant Pieces(e, str) == res + Pieces(e, str[b..])
      decreases |str| - b
    {
      var found := FindFrom(e, str, b);
      PiecesStep(e, str, b);
      if found.Some? {
        var piece := str[b..found.value.start];
        Assoc(res, [piece], Pieces(e, str[found.value.stop..]));
        res := res + [piece];
        b := found.value.stop;
      } else {
        res := res + [str[b..]];
        return;
      }
    }
    assert str[b..] == [];
  }

  /** The strings with `sep` written between neighbours. */
  function Join(sep: Bytes, pieces: seq<Bytes>): Bytes {
    if pieces == [] then []
    else if |pieces| == 1 then pieces[0]
    else pieces[0] + (sep + Join(sep, pieces[1..]))
  }

  lemma PlainMatchIsSep(sep: Bytes, s: Bytes, m: Match)
    requires Leftmost(Plain(sep), s, 0, m)
    ensures m.stop == m.start + |sep| <= |s|
    ensures s == s[..m.start] + (sep + s[m.stop..])
  {
  }

  lemma BeforeFirstMatchIsFree(e: Eol, s: Bytes, m: Match)
    requires e.Proper() && Leftmost(e, s, 0, m)
    ensures Find(e, s[..m.start]).None?
  {
    var p := s[..m.start];
    assert p + s[m.start..] == s;
    if Find(e, p).Some? {
      var f := Find(e, p).value;
      MatchEndsInEndByte(e, p, f.start);
      MatchAtPrefix(e, p, s[m.start..], f.start);
      assert false;
    }
  }

  /** Splitting loses nothing but the terminators: putting `sep` back between the pieces rebuilds
      the string, up to one terminator at its very end, and no piece still holds a terminator. */
  lemma {:induction false} SplitLosesOnlyTerminators(sep: Bytes, s: Bytes)
    requires sep != []
    ensures var j := Join(sep, Pieces(Plain(sep), s)); s == j || s == j + sep
    ensures forall p :: p in Pieces(Plain(sep), s) ==> Find(Plain(sep), p).None?
    decreases |s|
  {
    var e := Plain(sep);
    if s != [] && Find(e, s).Some? {
      var m := Find(e, s).value;
      PlainMatchIsSep(sep, s, m);
      BeforeFirstMatchIsFree(e, s, m);
      SplitLosesOnlyTerminators(sep, s[m.stop..]);
      JoinCons(sep, s[..m.start], Pieces(e, s[m.stop..]));
      AddFront(sep, s[..m.start], s[m.stop..], Join(sep, Pieces(e, s[m.stop..])));
    }
  }

  lemma AddFront(sep: Bytes, head: Bytes, tail: Bytes, j: Bytes)
    requires tail == j || tail == j + sep
    ensures var whole := head + (sep + tail);
            && (tail == [] ==> whole == head + sep)
            && (whole == head + (sep + j) || whole == head + (sep + j) + sep)
  {
  }

  lemma JoinCons(sep: Bytes, head: Bytes, rest: seq<Bytes>)
    ensures Join(sep, [head] + rest) == if rest == [] then head else head + (sep + Join(sep, rest))
  {
  }

  // ----- split_first and its two relatives -----

  /** `split_first_ex` (keep = false) and `split_first_eol` (keep = true): the line, the bytes after
      the terminator, and the number of terminator bytes in neither. */
  datatype Cut = Cut(line: Bytes, tail: Bytes, eolLen: nat)

  function SplitFirst(e: Eol, str: Bytes, keep: bool): (r: Option<Cut>)
    ensures r.None? <==> Find(e, str).None?
    ensures r.Some? ==> |r.value.line| + r.value.eolLen + |r.value.tail| == |str|
    ensures r.Some? ==> r.value.line <= str && r.value.tail == str[|r.value.line| + r.value.eolLen..]
    ensures r.Some? && keep ==> r.value.eolLen == 0
  {
    match Find(e, str)
    case None => None
    case Some(m) =>
      if keep then Some(Cut(str[..m.stop], str[m.stop..], 0))
      else Some(Cut(str[..m.start], str[m.stop..], m.stop - m.start))
  }
}

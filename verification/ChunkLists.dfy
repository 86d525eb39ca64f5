/** What the operations of the stream buffer (utils.lua, `Buffer`) mean on a list of chunks. */
module ChunkLists {
  import opened Wrappers
  import opened Seqs
  import opened LuaStrings

  /** `table.concat`. */
  function Flatten(cs: seq<Bytes>): Bytes {
    if cs == [] then [] else cs[0] + Flatten(cs[1..])
  }

  lemma {:induction false} FlattenConcat(a: seq<Bytes>, b: seq<Bytes>)
    ensures Flatten(a + b) == Flatten(a) + Flatten(b)
    decreases |a|
  {
    if a == [] {
      assert a + b == b;
    } else {
      assert (a + b)[1..] == a[1..] + b;
      FlattenConcat(a[1..], b);
    }
  }

  lemma FlattenOne(c: Bytes)
    ensures Flatten([c]) == c
  {
  }

  lemma FlattenCut(cs: seq<Bytes>, k: nat)
    requires k <= |cs|
    ensures Flatten(cs) == Flatten(cs[..k]) + Flatten(cs[k..])
  {
    assert cs == cs[..k] + cs[k..];
    FlattenConcat(cs[..k], cs[k..]);
  }

  lemma FlattenTo(cs: seq<Bytes>, k: nat)
    requires k < |cs|
    ensures Flatten(cs[..k + 1]) == Flatten(cs[..k]) + cs[k]
  {
    assert cs[..k + 1] == cs[..k] + [cs[k]];
    FlattenConcat(cs[..k], [cs[k]]);
    FlattenOne(cs[k]);
  }

  lemma FlattenFrom(cs: seq<Bytes>, k: nat)
    requires k < |cs|
    ensures Flatten(cs[k..]) == cs[k] + Flatten(cs[k + 1..])
  {
    assert cs[k..][1..] == cs[k + 1..];
  }

  /** The bytes before chunk k, chunk k, and the bytes after it. */
  lemma FlattenAround(cs: seq<Bytes>, k: nat)
    requires k < |cs|
    ensures Flatten(cs[..k + 1]) == Flatten(cs[..k]) + cs[k]
    ensures Flatten(cs) == Flatten(cs[..k + 1]) + Flatten(cs[k + 1..])
    ensures Flatten(cs[k..]) == cs[k] + Flatten(cs[k + 1..])
  {
    hide Flatten;
    FlattenTo(cs, k);
    FlattenCut(cs, k + 1);
    FlattenFrom(cs, k);
  }

  lemma FlattenLast(cs: seq<Bytes>)
    requires cs != []
    ensures Flatten(cs) == Flatten(cs[..|cs| - 1]) + cs[|cs| - 1]
  {
    FlattenAround(cs, |cs| - 1);
    assert cs[..|cs|] == cs;
  }

  ghost predicate NoEmptyChunk(cs: seq<Bytes>) {
    forall k :: 0 <= k < |cs| ==> cs[k] != []
  }

  /** The chunk that holds byte `n`. */
  function ChunkOf(cs: seq<Bytes>, n: nat): (k: nat)
    requires n < |Flatten(cs)|
    ensures k < |cs|
    ensures |Flatten(cs[..k])| <= n < |Flatten(cs[..k])| + |cs[k]|
  {
    if n < |cs[0]| then 0
    else
      var k := 1 + ChunkOf(cs[1..], n - |cs[0]|);
      assert cs[..k][1..] == cs[1..][..k - 1];
      k
  }

  lemma {:induction false} ShorterPrefix(cs: seq<Bytes>, a: nat, b: nat)
    requires a <= b <= |cs|
    ensures |Flatten(cs[..a])| <= |Flatten(cs[..b])|
  {
    FlattenMiddle(cs, a, b);
  }

  lemma ChunkOfIs(cs: seq<Bytes>, n: nat, k: nat)
    requires k < |cs| && |Flatten(cs[..k])| <= n < |Flatten(cs[..k + 1])|
    ensures n < |Flatten(cs)| && ChunkOf(cs, n) == k
  {
    FlattenAround(cs, k);
    var j := ChunkOf(cs, n);
    FlattenAround(cs, j);
    if j < k {
      ShorterPrefix(cs, j + 1, k);
    } else if k < j {
      ShorterPrefix(cs, k + 1, j);
    }
  }

  // ----- read_line -----

  /** Where `read_line` cuts the buffered bytes. The first match decides the chunk in which the line
      ends; a plain terminator found whole inside that chunk is preferred to one that straddles into it. */
  function LineCut(e: Eol, cs: seq<Bytes>): Option<Match>
    requires NoEmptyChunk(cs)
  {
    if cs == [] then None
    else
      match Find(e, Flatten(cs))
      case None => None
      case Some(m) =>
        assert cs[0] != [];
        var k := ChunkOf(cs, if m.stop == 0 then 0 else m.stop - 1);
        Some(CutAtChunk(e, cs, m, k))
  }

  function CutAtChunk(e: Eol, cs: seq<Bytes>, m: Match, k: nat): Match
    requires k < |cs|
  {
    var base := |Flatten(cs[..k])|;
    var inside := if e.Plain? then Find(e, cs[k]) else None;
    if inside.Some? then Match(base + inside.value.start, base + inside.value.stop) else m
  }

  /** The chunk list without its first `n` bytes. */
  function DropBytes(cs: seq<Bytes>, n: nat): (r: seq<Bytes>)
    requires n <= |Flatten(cs)|
    ensures Flatten(r) == Flatten(cs)[n..]
    ensures NoEmptyChunk(cs) ==> NoEmptyChunk(r)
  {
    if n == 0 then cs
    else if |cs[0]| <= n then
      assert Flatten(cs)[n..] == Flatten(cs[1..])[n - |cs[0]|..];
      DropBytes(cs[1..], n - |cs[0]|)
    else
      var rest := [cs[0][n..]] + cs[1..];
      assert rest[1..] == cs[1..];
      rest
  }

  /** The number of chunks up to and including the last one that holds `b`. */
  function LastWith(cs: seq<Bytes>, b: byte): (n: nat)
    ensures n <= |cs|
    ensures n > 0 ==> b in cs[n - 1]
    ensures forall k :: n <= k < |cs| ==> b !in cs[k]
  {
    if cs == [] then 0
    else if b in cs[|cs| - 1] then |cs|
    else LastWith(cs[..|cs| - 1], b)
  }

  /** The chunk list that a failed `read_line` leaves: the chunks it searched become one. */
  function Coalesced(e: Eol, cs: seq<Bytes>): seq<Bytes> {
    if !e.Proper() then cs
    else
      var n := LastWith(cs, e.EndByte());
      if n == 0 then cs else [Flatten(cs[..n])] + cs[n..]
  }

  /** The result and the chunks left by `read_line` (keep = false) and `read_line_eol` (keep = true). */
  function LineSpec(e: Eol, keep: bool, cs: seq<Bytes>): (Option<Bytes>, seq<Bytes>)
    requires NoEmptyChunk(cs)
  {
    match LineCut(e, cs)
    case None => (None, Coalesced(e, cs))
    case Some(m) =>
      LineCutInRange(e, cs);
      (Some(Flatten(cs)[..if keep then m.stop else m.start]), DropBytes(cs, m.stop))
  }

  /** The cut is a real occurrence of the terminator in the buffered bytes. */
  lemma LineCutInRange(e: Eol, cs: seq<Bytes>)
    requires NoEmptyChunk(cs) && LineCut(e, cs).Some?
    ensures var m := LineCut(e, cs).value;
            m.start <= m.stop <= |Flatten(cs)| && MatchAt(e, Flatten(cs), m.start) == Some(m.stop)
  {
    hide MatchAt, CutAtChunk;
    assert cs[0] != [];
    var m := Find(e, Flatten(cs)).value;
    CutAtChunkIsMatch(e, cs, m, ChunkOf(cs, if m.stop == 0 then 0 else m.stop - 1));
  }

  lemma CutAtChunkIsMatch(e: Eol, cs: seq<Bytes>, m: Match, k: nat)
    requires k < |cs| && Leftmost(e, Flatten(cs), 0, m)
    ensures var c := CutAtChunk(e, cs, m, k);
            c.start <= c.stop <= |Flatten(cs)| && MatchAt(e, Flatten(cs), c.start) == Some(c.stop)
  {
    hide MatchAt, Find, Flatten;
    var inside := if e.Plain? then Find(e, cs[k]) else None;
    if inside.Some? {
      FlattenAround(cs, k);
      MatchInMiddle(e, Flatten(cs[..k]), cs[k], Flatten(cs[k + 1..]), inside.value.start);
    }
  }

  lemma CoalescedKeepsBytes(e: Eol, cs: seq<Bytes>)
    requires NoEmptyChunk(cs)
    ensures Flatten(Coalesced(e, cs)) == Flatten(cs) && NoEmptyChunk(Coalesced(e, cs))
  {
    if e.Proper() {
      var n := LastWith(cs, e.EndByte());
      if n > 0 {
        FlattenCut(cs, n);
        FlattenConcat([Flatten(cs[..n])], cs[n..]);
        FlattenOne(Flatten(cs[..n]));
        FlattenAround(cs, n - 1);
        assert cs[n - 1] != [];
      }
    }
  }

  // ----- The two search steps of read_line -----

  lemma InMiddle(a: Bytes, b: Bytes, c: Bytes, i: nat)
    requires |a| <= i < |a + b|
    ensures (a + b + c)[i] in b
  {
  }

  /** With no match in `head` and no end byte in `middle`, a match in head + middle + c must end in c. */
  lemma EndsInLastPart(e: Eol, head: Bytes, middle: Bytes, c: Bytes, i: nat)
    requires e.Proper() && Find(e, head).None? && e.EndByte() !in middle
    requires i <= |head + middle + c| && MatchAt(e, head + middle + c, i).Some?
    ensures |head + middle| < MatchAt(e, head + middle + c, i).value
  {
    var f := head + middle + c;
    var stop := MatchAt(e, f, i).value;
    if |head| < stop <= |head + middle| {
      InMiddle(head, middle, c, stop - 1);
    }
    MatchEndsInEndByte(e, f, i);
    if stop <= |head| {
      Assoc(head, middle, c);
      MatchAtPrefix(e, head, middle + c, i);
      assert false;
    }
  }

  /** With no match in the first `c` chunks and no end byte in chunks c..k, a match inside the first
      k + 1 chunks must end in chunk k. */
  lemma EndsInLastChunk(e: Eol, cs: seq<Bytes>, c: nat, k: nat, i: nat)
    requires e.Proper() && c <= k < |cs|
    requires Find(e, Flatten(cs[..c])).None?
    requires forall j :: c <= j < k ==> e.EndByte() !in cs[j]
    requires i <= |Flatten(cs[..k + 1])| && MatchAt(e, Flatten(cs[..k + 1]), i).Some?
    ensures |Flatten(cs[..k])| < MatchAt(e, Flatten(cs[..k + 1]), i).value
  {
    FlattenMiddle(cs, c, k);
    FlattenAround(cs, k);
    NoEndByteInFlatten(cs[c..k], e.EndByte());
    EndsInLastPart(e, Flatten(cs[..c]), Flatten(cs[c..k]), cs[k], i);
  }

  lemma FlattenMiddle(cs: seq<Bytes>, c: nat, k: nat)
    requires c <= k <= |cs|
    ensures Flatten(cs[..k]) == Flatten(cs[..c]) + Flatten(cs[c..k])
  {
    assert cs[..k] == cs[..c] + cs[c..k];
    FlattenConcat(cs[..c], cs[c..k]);
  }

  lemma {:induction false} NoEndByteInFlatten(cs: seq<Bytes>, b: byte)
    requires forall j :: 0 <= j < |cs| ==> b !in cs[j]
    ensures b !in Flatten(cs)
  {
    if cs != [] {
      NoEndByteInFlatten(cs[1..], b);
      assert b !in cs[0];
    }
  }

  /** The first match of the whole buffer, once one is known in the first k + 1 chunks, ends in chunk k. */
  lemma FirstMatchEndsInChunk(e: Eol, cs: seq<Bytes>, c: nat, k: nat, i: nat)
    requires NoEmptyChunk(cs) && e.Proper() && c <= k < |cs|
    requires Find(e, Flatten(cs[..c])).None?
    requires forall j :: c <= j < k ==> e.EndByte() !in cs[j]
    requires i <= |Flatten(cs[..k + 1])| && MatchAt(e, Flatten(cs[..k + 1]), i).Some?
    ensures Find(e, Flatten(cs)) == Find(e, Flatten(cs[..k + 1]))
    ensures Find(e, Flatten(cs)).Some?
    ensures var m := Find(e, Flatten(cs)).value; 0 < m.stop <= |Flatten(cs)| && ChunkOf(cs, m.stop - 1) == k
  {
    var f := Flatten(cs[..k + 1]);
    assert MatchAt(e, f, i).Some?;
    assert Find(e, f).Some?;
    var m := Find(e, f).value;
    EndsInLastChunk(e, cs, c, k, m.start);
    FlattenAround(cs, k);
    FoundStaysFound(e, f, Flatten(cs[k + 1..]));
    ChunkOfIs(cs, m.stop - 1, k);
  }

  lemma LineCutAtChunk(e: Eol, cs: seq<Bytes>, k: nat)
    requires NoEmptyChunk(cs) && k < |cs| && Find(e, Flatten(cs)).Some?
    requires var m := Find(e, Flatten(cs)).value; 0 < m.stop <= |Flatten(cs)| && ChunkOf(cs, m.stop - 1) == k
    ensures LineCut(e, cs) == Some(CutAtChunk(e, cs, Find(e, Flatten(cs)).value, k))
    ensures e.Plain? && Find(e, cs[k]).Some? ==>
              var base, c := |Flatten(cs[..k])|, Find(e, cs[k]).value;
              LineCut(e, cs) == Some(Match(base + c.start, base + c.stop))
    ensures !(e.Plain? && Find(e, cs[k]).Some?) ==> LineCut(e, cs) == Find(e, Flatten(cs))
  {
  }

  lemma ChunkMatchInPrefix(e: Eol, cs: seq<Bytes>, k: nat, i: nat)
    requires k < |cs| && i <= |cs[k]| && MatchAt(e, cs[k], i).Some?
    ensures |Flatten(cs[..k])| + i <= |Flatten(cs[..k + 1])|
    ensures MatchAt(e, Flatten(cs[..k + 1]), |Flatten(cs[..k])| + i).Some?
  {
    FlattenAround(cs, k);
    MatchAtShift(e, Flatten(cs[..k]), cs[k], i);
  }

  /** Fast path: a plain terminator inside the last popped chunk is the cut. */
  lemma CutInsideChunk(e: Eol, cs: seq<Bytes>, c: nat, k: nat)
    requires NoEmptyChunk(cs) && e.Proper() && e.Plain? && c <= k < |cs|
    requires Find(e, Flatten(cs[..c])).None?
    requires forall j :: c <= j < k ==> e.EndByte() !in cs[j]
    requires Find(e, cs[k]).Some?
    ensures var base, m := |Flatten(cs[..k])|, Find(e, cs[k]).value;
            LineCut(e, cs) == Some(Match(base + m.start, base + m.stop))
  {
    ChunkMatchInPrefix(e, cs, k, Find(e, cs[k]).value.start);
    FirstMatchEndsInChunk(e, cs, c, k, |Flatten(cs[..k])| + Find(e, cs[k]).value.start);
    LineCutAtChunk(e, cs, k);
  }

  /** Slow path: otherwise the first match in everything popped so far is the cut. */
  lemma CutInConcat(e: Eol, cs: seq<Bytes>, c: nat, k: nat)
    requires NoEmptyChunk(cs) && e.Proper() && c <= k < |cs|
    requires Find(e, Flatten(cs[..c])).None?
    requires forall j :: c <= j < k ==> e.EndByte() !in cs[j]
    requires e.Plain? ==> Find(e, cs[k]).None?
    requires Find(e, Flatten(cs[..k + 1])).Some?
    ensures LineCut(e, cs) == Find(e, Flatten(cs[..k + 1]))
  {
    FirstMatchEndsInChunk(e, cs, c, k, Find(e, Flatten(cs[..k + 1])).value.start);
    LineCutAtChunk(e, cs, k);
  }

  /** Giving up: no chunk is left that could end a line. */
  lemma NoCut(e: Eol, cs: seq<Bytes>, c: nat)
    requires NoEmptyChunk(cs) && e.Proper() && c <= |cs|
    requires Find(e, Flatten(cs[..c])).None?
    requires forall j :: c <= j < |cs| ==> e.EndByte() !in cs[j]
    requires c > 0 ==> e.EndByte() in cs[c - 1]
    ensures LineCut(e, cs) == None && LastWith(cs, e.EndByte()) == c
  {
    if Find(e, Flatten(cs)).Some? {
      NoFirstMatch(e, cs, c, Find(e, Flatten(cs)).value.start);
      assert false;
    }
  }

  lemma NoFirstMatch(e: Eol, cs: seq<Bytes>, c: nat, i: nat)
    requires e.Proper() && c <= |cs|
    requires Find(e, Flatten(cs[..c])).None?
    requires forall j :: c <= j < |cs| ==> e.EndByte() !in cs[j]
    requires i <= |Flatten(cs)|
    ensures MatchAt(e, Flatten(cs), i).None?
  {
    var last := |cs| - 1;
    if c == |cs| {
      assert cs[..c] == cs;
    } else if MatchAt(e, Flatten(cs), i).Some? {
      assert cs[..last + 1] == cs;
      EndsInLastChunk(e, cs, c, last, i);
      MatchEndsInEndByte(e, Flatten(cs), i);
      FlattenAround(cs, last);
      assert false;
    }
  }
}

/** The deque `List` of utils.lua: a sparse table whose used slots are the window first..last. */
module LuaLists {
  import opened Wrappers

  // ----- A sparse table with nil for absent slots -----

  function Get<T>(t: map<int, T>, i: int): Option<T> {
    if i in t then Some(t[i]) else None
  }

  /** Table assignment; assigning nil removes the slot. */
  function Put<T>(t: map<int, T>, i: int, v: Option<T>): map<int, T> {
    if v.Some? then t[i := v.value] else t - {i}
  }

  /** Exactly the slots first..last are used, and read in order they are `s`. */
  ghost predicate Shows<T>(t: map<int, T>, first: int, last: int, s: seq<T>) {
    && |s| == last - first + 1
    && (forall i :: i in t <==> first <= i <= last)
    && (forall k :: 0 <= k < |s| ==> t[first + k] == s[k])
  }

  // ----- What insert and remove mean on a plain sequence -----

  /** A negative position counts from the end. */
  function Resolve(pos: int, size: nat): int {
    if pos < 0 then size + pos + 1 else pos
  }

  ghost predicate CanRemove<T>(s: seq<T>, pos: int) {
    0 < Resolve(pos, |s|) <= |s|
  }

  ghost predicate CanInsert<T>(s: seq<T>, pos: int) {
    0 < Resolve(pos, |s|) <= |s| + 1
  }

  ghost function Removed<T>(s: seq<T>, pos: int): seq<T> {
    if CanRemove(s, pos) then
      var p := Resolve(pos, |s|);
      s[..p - 1] + s[p..]
    else s
  }

  ghost function Inserted<T>(s: seq<T>, pos: int, v: T): seq<T> {
    if CanInsert(s, pos) then
      var p := Resolve(pos, |s|);
      s[..p - 1] + [v] + s[p - 1..]
    else s
  }

  /** The positions that `remove` and `insert` take: k from the front, -k from the end, never 0. */
  lemma Positions<T>(s: seq<T>, pos: int)
    ensures CanRemove(s, pos) <==> pos != 0 && -|s| <= pos <= |s|
    ensures CanInsert(s, pos) <==> pos != 0 && -|s| <= pos <= |s| + 1
    ensures !CanRemove(s, pos) ==> Removed(s, pos) == s
    ensures forall v :: !CanInsert(s, pos) ==> Inserted(s, pos, v) == s
  {
  }

  /** The k-th element from the front, and the k-th from the end. */
  lemma RemovedAt<T>(s: seq<T>, k: int)
    requires 1 <= k <= |s|
    ensures Removed(s, k) == s[..k - 1] + s[k..]
    ensures Removed(s, -k) == s[..|s| - k] + s[|s| - k + 1..]
  {
  }

  /** Before the k-th element from the front, behind the last one for k == |s| + 1, and before the k-th from
      the end. */
  lemma InsertedAt<T>(s: seq<T>, k: int, v: T)
    requires 1 <= k <= |s| + 1
    ensures Inserted(s, k, v) == s[..k - 1] + [v] + s[k - 1..]
    ensures k <= |s| ==> Inserted(s, -k, v) == s[..|s| - k] + [v] + s[|s| - k..]
  {
  }

  /** Removing at the position just inserted at undoes the insertion when the position counts from
      the front. Counted from the end, the position means the element after the new one. */
  lemma RemoveUndoesInsert<T>(s: seq<T>, pos: int, v: T)
    requires pos != 0 && -|s| <= pos <= |s| + 1
    ensures var t := Inserted(s, pos, v);
            && |t| == |s| + 1
            && (pos > 0 ==> t[pos - 1] == v && Removed(t, pos) == s)
            && (pos < 0 ==> t[|t| + pos] == s[|s| + pos] && Removed(t, pos) == s[|s| + pos := v])
  {
  }

  /** Hence the round trip with a negative position holds exactly when the new value equals the
      element it was put in front of. */
  lemma NegativeRoundTrip<T>(s: seq<T>, pos: int, v: T)
    requires -|s| <= pos < 0
    ensures Removed(Inserted(s, pos, v), pos) == s <==> s[|s| + pos] == v
  {
  }

  // ----- What the four shifts do -----

  lemma ClosedUp<T>(t: map<int, T>, s: seq<T>, p: nat, f: int)
    requires p < |s|
    requires forall i :: i in t <==> f <= i <= f + |s| - 2
    requires forall k :: 0 <= k < p ==> t[f + k] == s[k]
    requires forall k :: p < k < |s| ==> t[f + k - 1] == s[k]
    ensures Shows(t, f, f + |s| - 2, s[..p] + s[p + 1..])
  {
  }

  lemma OpenedUp<T>(t: map<int, T>, s: seq<T>, p: nat, f: int, v: T)
    requires p <= |s|
    requires forall i :: i in t <==> f <= i <= f + |s|
    requires forall k :: 0 <= k < p ==> t[f + k] == s[k]
    requires t[f + p] == v
    requires forall k :: p <= k < |s| ==> t[f + k + 1] == s[k]
    ensures Shows(t, f, f + |s|, s[..p] + [v] + s[p..])
  {
  }

  /** The element at a position, nil outside the list. */
  function ElementAt<T>(s: seq<T>, n: int): Option<T> {
    if 1 <= n <= |s| then Some(s[n - 1]) else None
  }

  lemma SlotIsElement<T>(t: map<int, T>, first: int, last: int, s: seq<T>, i: int)
    requires Shows(t, first, last, s)
    ensures Get(t, i) == ElementAt(s, i - first + 1)
  {
    assert first <= i <= last ==> t[first + (i - first)] == s[i - first];
  }

  // ----- The loops that shift one side of the window -----
  // Element k of s belongs in slot first + k; i is the slot the loop looks at next.

  /** The elements in the slots before i have been copied one slot to the left. */
  ghost predicate OpeningLeft<T>(t: map<int, T>, first: int, last: int, s: seq<T>, i: int) {
    && |s| == last - first + 1 && first <= i <= last + 1
    && (forall j :: j in t <==> (if i == first then first else first - 1) <= j <= last)
    && (forall k :: 0 <= k < i - first ==> t[first + k - 1] == s[k])
    && (forall k :: i - first - 1 <= k < |s| && 0 <= k ==> t[first + k] == s[k])
  }

  /** The elements in the slots after i have been copied one slot to the right. */
  ghost predicate OpeningRight<T>(t: map<int, T>, first: int, last: int, s: seq<T>, i: int) {
    && |s| == last - first + 1 && first - 1 <= i <= last
    && (forall j :: j in t <==> first <= j <= (if i == last then last else last + 1))
    && (forall k :: i - first < k < |s| ==> t[first + k + 1] == s[k])
    && (forall k :: 0 <= k <= i - first + 1 && k < |s| ==> t[first + k] == s[k])
  }

  /** The elements from slot i on, up to element p, have been copied one slot to the right. */
  ghost predicate ClosingLeft<T>(t: map<int, T>, first: int, last: int, s: seq<T>, p: nat, i: int) {
    && |s| == last - first + 1 && p < |s| && first - 1 <= i <= first + p
    && (forall j :: j in t <==> (if i < first then first + 1 else first) <= j <= last)
    && (forall k :: 0 <= k < p && i - first <= k ==> t[first + k + 1] == s[k])
    && (forall k :: 0 <= k <= i - first || p < k < |s| ==> t[first + k] == s[k])
  }

  /** The elements after element p, up to slot i, have been copied one slot to the left. */
  ghost predicate ClosingRight<T>(t: map<int, T>, first: int, last: int, s: seq<T>, p: nat, i: int) {
    && |s| == last - first + 1 && p < |s| && first + p <= i <= last + 1
    && (forall j :: j in t <==> first <= j <= (if i > last then last - 1 else last))
    && (forall k :: p < k <= i - first && k < |s| ==> t[first + k - 1] == s[k])
    && (forall k :: 0 <= k < p || i - first <= k < |s| ==> t[first + k] == s[k])
  }

  lemma OpenLeftTurn<T>(t: map<int, T>, first: int, last: int, s: seq<T>, i: int)
    requires OpeningLeft(t, first, last, s, i) && i <= last
    ensures OpeningLeft(Put(t, i - 1, Get(t, i)), first, last, s, i + 1)
  {
    assert t[first + (i - first)] == s[i - first];
  }

  lemma OpenRightTurn<T>(t: map<int, T>, first: int, last: int, s: seq<T>, i: int)
    requires OpeningRight(t, first, last, s, i) && first <= i
    ensures OpeningRight(Put(t, i + 1, Get(t, i)), first, last, s, i - 1)
  {
    assert t[first + (i - first)] == s[i - first];
  }

  lemma CloseLeftTurn<T>(t: map<int, T>, first: int, last: int, s: seq<T>, p: nat, i: int)
    requires ClosingLeft(t, first, last, s, p, i) && first <= i
    ensures ClosingLeft(Put(t, i, Get(t, i - 1)), first, last, s, p, i - 1)
  {
    assert i > first ==> t[first + (i - 1 - first)] == s[i - 1 - first];
  }

  lemma CloseRightTurn<T>(t: map<int, T>, first: int, last: int, s: seq<T>, p: nat, i: int)
    requires ClosingRight(t, first, last, s, p, i) && i <= last
    ensures ClosingRight(Put(t, i, Get(t, i + 1)), first, last, s, p, i + 1)
  {
    assert i < last ==> t[first + (i + 1 - first)] == s[i + 1 - first];
  }

  lemma ClosedLeft<T>(t: map<int, T>, first: int, last: int, s: seq<T>, p: nat)
    requires ClosingLeft(t, first, last, s, p, first - 1)
    ensures Shows(t, first + 1, last, s[..p] + s[p + 1..])
  {
    ClosedUp(t, s, p, first + 1);
  }

  lemma ClosedRight<T>(t: map<int, T>, first: int, last: int, s: seq<T>, p: nat)
    requires ClosingRight(t, first, last, s, p, last + 1)
    ensures Shows(t, first, last - 1, s[..p] + s[p + 1..])
  {
    ClosedUp(t, s, p, first);
  }

  lemma OpenedLeft<T>(t: map<int, T>, first: int, last: int, s: seq<T>, offset: int, v: T)
    requires OpeningLeft(t, first, last, s, offset + 1) && first <= offset
    ensures var p := offset - first; Shows(t[offset - 1 := v], first - 1, last, s[..p] + [v] + s[p..])
  {
    OpenedUp(t[offset - 1 := v], s, offset - first, first - 1, v);
  }

  lemma OpenedRight<T>(t: map<int, T>, first: int, last: int, s: seq<T>, offset: int, v: T)
    requires OpeningRight(t, first, last, s, offset - 1)
    ensures var p := offset - first; Shows(t[offset := v], first, last + 1, s[..p] + [v] + s[p..])
  {
    OpenedUp(t[offset := v], s, offset - first, first, v);
  }

  class List<T(==)> {
    var first: int
    var last: int
    var t: map<int, T>
    /** The elements in order. */
    ghost var contents: seq<T>

    ghost predicate Valid()
      reads this
    {
      Shows(t, first, last, contents)
    }

    constructor ()
      ensures Valid() && contents == []
    {
      first, last, t, contents := 0, -1, map[], [];
    }

    method Reset()
      modifies this
      ensures Valid() && contents == []
    {
      first, last, t, contents := 0, -1, map[], [];
    }

    method PushFront(v: T)
      requires Valid()
      modifies this
      ensures Valid() && contents == [v] + old(contents)
    {
      first, t := first - 1, t[first - 1 := v];
      contents := [v] + contents;
      assert forall k :: 0 < k < |contents| ==> contents[k] == old(contents)[k - 1];
    }

    method PushBack(v: T)
      requires Valid()
      modifies this
      ensures Valid() && contents == old(contents) + [v]
    {
      last, t := last + 1, t[last + 1 := v];
      contents := contents + [v];
    }

    method PeekFront() returns (v: Option<T>)
      requires Valid()
      ensures v == if contents == [] then None else Some(contents[0])
    {
      v := Get(t, first);
    }

    method PeekBack() returns (v: Option<T>)
      requires Valid()
      ensures v == if contents == [] then None else Some(contents[|contents| - 1])
    {
      v := Get(t, last);
    }

    method PopFront() returns (v: Option<T>)
      requires Valid()
      modifies this
      ensures Valid()
      ensures old(contents) == [] ==> v == None && contents == []
      ensures old(contents) != [] ==> v == Some(old(contents)[0]) && contents == old(contents)[1..]
    {
      if first > last {
        return None;
      }
      v := Get(t, first);
      first, t := first + 1, Put(t, first, None);
      contents := contents[1..];
      assert forall k :: 0 <= k < |contents| ==> contents[k] == old(contents)[k + 1];
    }

    method PopBack() returns (v: Option<T>)
      requires Valid()
      modifies this
      ensures Valid()
      ensures old(contents) == [] ==> v == None && contents == []
      ensures old(contents) != [] ==>
                && v == Some(old(contents)[|old(contents)| - 1])
                && contents == old(contents)[..|old(contents)| - 1]
    {
      if first > last {
        return None;
      }
      v := Get(t, last);
      last, t := last - 1, Put(t, last, None);
      contents := contents[..|contents| - 1];
    }

    method Size() returns (n: nat)
      requires Valid()
      ensures n == |contents|
    {
      n := last - first + 1;
    }

    method Empty() returns (b: bool)
      requires Valid()
      ensures b <==> contents == []
    {
      b := first > last;
    }

    /** `find` with a test function: the least position from `pos` on that passes, and the element there.
        The function sees nil at positions before the first. */
    method Find(fn: Option<T> -> bool, pos: int := 1) returns (n: Option<int>, v: Option<T>)
      requires Valid()
      ensures n.Some? ==> pos <= n.value <= |contents| && fn(ElementAt(contents, n.value))
      ensures v == if n.Some? then ElementAt(contents, n.value) else None
      ensures forall k :: pos <= k < (if n.Some? then n.value else |contents| + 1) ==> !fn(ElementAt(contents, k))
    {
      var i := first + pos - 1;
      while i <= last
        invariant first + pos - 1 <= i
        invariant forall k :: pos <= k <= |contents| && k <= i - first ==> !fn(ElementAt(contents, k))
      {
        SlotIsElement(t, first, last, contents, i);
        if fn(Get(t, i)) {
          return Some(i - first + 1), Get(t, i);
        }
        i := i + 1;
      }
      return None, None;
    }

    /** `find` with a value, which is never nil. */
    method FindValue(x: T, pos: int := 1) returns (n: Option<int>, v: Option<T>)
      requires Valid()
      ensures n.Some? ==> pos <= n.value && 1 <= n.value <= |contents| && contents[n.value - 1] == x && v == Some(x)
      ensures n.None? ==> v == None
      ensures forall j :: 0 <= j < (if n.Some? then n.value - 1 else |contents|) && pos - 1 <= j ==> contents[j] != x
    {
      n, v := Find((e: Option<T>) => e == Some(x), pos);
      forall j | 0 <= j < (if n.Some? then n.value - 1 else |contents|) && pos - 1 <= j
        ensures contents[j] != x
      {
        assert ElementAt(contents, j + 1) == Some(contents[j]);
      }
    }

    /** Closes the gap at position `p` from the left. */
    method CloseFromLeft(p: nat)
      requires Valid() && p < |contents|
      modifies this
      ensures Valid() && contents == old(contents)[..p] + old(contents)[p + 1..]
    {
      var offset, i := first + p, first + p;
      ghost var s := contents;
      assert ClosingLeft(t, first, last, s, p, i);
      hide Shows, Put, Get, ClosingLeft;
      while i >= first
        invariant first == old(first) && last == old(last) && first - 1 <= i <= offset
        invariant ClosingLeft(t, first, last, s, p, i)
      {
        CloseLeftTurn(t, first, last, s, p, i);
        t := Put(t, i, Get(t, i - 1));
        i := i - 1;
      }
      ClosedLeft(t, first, last, s, p);
      first := first + 1;
      contents := s[..p] + s[p + 1..];
    }

    /** Closes the gap at position `p` from the right. */
    method CloseFromRight(p: nat)
      requires Valid() && p < |contents|
      modifies this
      ensures Valid() && contents == old(contents)[..p] + old(contents)[p + 1..]
    {
      var offset, i := first + p, first + p;
      ghost var s := contents;
      assert ClosingRight(t, first, last, s, p, i);
      hide Shows, Put, Get, ClosingRight;
      while i <= last
        invariant first == old(first) && last == old(last) && offset <= i <= last + 1
        invariant ClosingRight(t, first, last, s, p, i)
      {
        CloseRightTurn(t, first, last, s, p, i);
        t := Put(t, i, Get(t, i + 1));
        i := i + 1;
      }
      ClosedRight(t, first, last, s, p);
      last := last - 1;
      contents := s[..p] + s[p + 1..];
    }

    /** Makes room before position `p` by moving what is up to it to the left. */
    method OpenToLeft(p: nat, v: T)
      requires Valid() && p < |contents|
      modifies this
      ensures Valid() && contents == old(contents)[..p] + [v] + old(contents)[p..]
    {
      var offset, i := first + p, first;
      ghost var s := contents;
      assert OpeningLeft(t, first, last, s, i);
      hide Shows, Put, Get, OpeningLeft;
      while i <= offset
        invariant first == old(first) && last == old(last) && first <= i <= offset + 1
        invariant OpeningLeft(t, first, last, s, i)
      {
        OpenLeftTurn(t, first, last, s, i);
        t := Put(t, i - 1, Get(t, i));
        i := i + 1;
      }
      OpenedLeft(t, first, last, s, offset, v);
      t := t[offset - 1 := v];
      first := first - 1;
      contents := s[..p] + [v] + s[p..];
    }

    /** Makes room at position `p` by moving what is from it on to the right. */
    method OpenToRight(p: nat, v: T)
      requires Valid() && p <= |contents|
      modifies this
      ensures Valid() && contents == old(contents)[..p] + [v] + old(contents)[p..]
    {
      var offset, i := first + p, last;
      ghost var s := contents;
      assert OpeningRight(t, first, last, s, i);
      hide Shows, Put, Get, OpeningRight;
      while i >= offset
        invariant first == old(first) && last == old(last) && offset - 1 <= i <= last
        invariant OpeningRight(t, first, last, s, i)
      {
        OpenRightTurn(t, first, last, s, i);
        t := Put(t, i + 1, Get(t, i));
        i := i - 1;
      }
      OpenedRight(t, first, last, s, offset, v);
      t := t[offset := v];
      last := last + 1;
      contents := s[..p] + [v] + s[p..];
    }

    method Remove(pos: int) returns (v: Option<T>)
      requires Valid()
      modifies this
      ensures Valid()
      ensures contents == Removed(old(contents), pos)
      ensures 1 <= pos <= |old(contents)| ==> v == Some(old(contents)[pos - 1])
      ensures -|old(contents)| <= pos <= -1 ==> v == Some(old(contents)[|old(contents)| + pos])
      ensures pos == 0 || pos > |old(contents)| || pos < -|old(contents)| ==> v == None
    {
      var s := last - first + 1;
      var p := if pos < 0 then s + pos + 1 else pos;
      if p <= 0 || p > s {
        return None;
      }
      var offset := first + p - 1;
      assert t[first + (p - 1)] == contents[p - 1];
      v := Get(t, offset);
      assert v == Some(contents[p - 1]) && s == |contents| && p == Resolve(pos, |contents|);
      assert Removed(contents, pos) == contents[..p - 1] + contents[p - 1 + 1..];
      hide Shows, Get, Removed, Resolve;
      if 2 * p < s {
        CloseFromLeft(p - 1);
      } else {
        CloseFromRight(p - 1);
      }
    }

    /** Returns nil, here `false`, when the position is outside the list. */
    method Insert(pos: int, v: T) returns (ok: bool)
      requires Valid()
      modifies this
      ensures Valid()
      ensures ok <==> pos != 0 && -|old(contents)| <= pos <= |old(contents)| + 1
      ensures contents == Inserted(old(contents), pos, v)
    {
      var s := last - first + 1;
      var p := if pos < 0 then s + pos + 1 else pos;
      if p <= 0 || p > s + 1 {
        return false;
      }
      if 2 * p < s {
        OpenToLeft(p - 1, v);
      } else {
        OpenToRight(p - 1, v);
      }
      return true;
    }
  }
}

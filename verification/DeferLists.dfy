/** The C deque `lluv_list_t` (lluv_list.c): two indices and a Lua table kept in the registry. */
module DeferLists {
  import opened Wrappers
  import opened LuaLists

  class DeferList<T(==)> {
    var first: int
    var last: int
    var t: map<int, T>

    /** The elements in order. */
    ghost var contents: seq<T>

    ghost predicate Valid()
      reads this
    {
      Shows(t, first, last, contents)
    }

    constructor Init()
      ensures Valid() && contents == []
    {
      first, last, t, contents := 0, -1, map[], [];
    }

    /** `lluv_list_push_`: stores the value at slot `i`. */
    method PushAt(i: int, v: T)
      modifies this`t
      ensures t == old(t)[i := v]
    {
      t := Put(t, i, Some(v));
    }

    /** `lluv_list_pop_`: takes the value at slot `i`, one of the two ends; 0 when the list is empty. */
    method PopAt(i: int) returns (n: int, v: Option<T>)
      requires Valid() && (i == first || i == last)
      modifies this`t
      ensures first > last ==> n == 0 && v == None && t == old(t)
      ensures first <= last ==> n == 1 && i in old(t) && v == Some(old(t)[i]) && t == old(t) - {i}
    {
      if first > last {
        return 0, None;
      }
      v := Get(t, i);
      t := Put(t, i, None);
      n := 1;
    }

    method PushFront(v: T)
      requires Valid()
      modifies this
      ensures Valid() && contents == [v] + old(contents)
    {
      var i := first - 1;
      PushAt(i, v);
      first := i;
      contents := [v] + contents;
      assert forall k :: 0 < k < |contents| ==> contents[k] == old(contents)[k - 1];
    }

    method PushBack(v: T)
      requires Valid()
      modifies this
      ensures Valid() && contents == old(contents) + [v]
    {
      var i := last + 1;
      PushAt(i, v);
      last := i;
      contents := contents + [v];
    }

    method PopFront() returns (n: int, v: Option<T>)
      requires Valid()
      modifies this
      ensures Valid()
      ensures old(contents) == [] ==> n == 0 && v == None && contents == []
      ensures old(contents) != [] ==>
                n == 1 && v == Some(old(contents)[0]) && contents == old(contents)[1..]
    {
      n, v := PopAt(first);
      first := first + n;
      if n == 1 {
        contents := contents[1..];
        assert forall k :: 0 <= k < |contents| ==> contents[k] == old(contents)[k + 1];
      }
    }

    method PopBack() returns (n: int, v: Option<T>)
      requires Valid()
      modifies this
      ensures Valid()
      ensures old(contents) == [] ==> n == 0 && v == None && contents == []
      ensures old(contents) != [] ==>
                && n == 1 && v == Some(old(contents)[|old(contents)| - 1])
                && contents == old(contents)[..|old(contents)| - 1]
    {
      n, v := PopAt(last);
      last := last - n;
      if n == 1 {
        contents := contents[..|contents| - 1];
      }
    }

    method Size() returns (n: nat)
      requires Valid()
      ensures n == |contents|
    {
      n := last - first + 1;
    }

    method Empty() returns (b: bool)
      requires Valid()
      ensures b <==> contents == []
    {
      b := first > last;
    }
  }
}

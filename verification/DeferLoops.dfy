/** The deferred-call scheduler of lluv_loop.c: up to DEFER_DEPTH rounds, each running exactly the
    calls queued when it began, while those calls queue more.

    A call is named by its path in the forest of who deferred whom: [i] is the i-th call queued from
    outside, and p + [j] the j-th call that call p defers while it runs. `kids` says how many calls each
    call defers and `fails` which ones end in an error, so any callbacks that return are covered,
    whatever state they share. */
module DeferLoops {
  import opened Seqs
  import opened DeferLists

  const DEFER_DEPTH: nat := 10

  type Call = seq<nat>

  type Forest = Call -> nat

  // ----- The order of a breadth-first run -----

  /** The calls that call `p` defers, in order, from its `from`-th on. */
  function ChildrenFrom(kids: Forest, p: Call, from: nat): seq<Call>
    decreases if from <= kids(p) then kids(p) - from else 0
  {
    if from < kids(p) then [p + [from]] + ChildrenFrom(kids, p, from + 1) else []
  }

  function Children(kids: Forest, p: Call): seq<Call> {
    ChildrenFrom(kids, p, 0)
  }

  /** Everything a sequence of calls defers. */
  function Spawned(kids: Forest, q: seq<Call>): seq<Call> {
    if q == [] then [] else Children(kids, q[0]) + Spawned(kids, q[1..])
  }

  lemma {:induction false} SpawnedConcat(kids: Forest, a: seq<Call>, b: seq<Call>)
    ensures Spawned(kids, a + b) == Spawned(kids, a) + Spawned(kids, b)
    decreases |a|
  {
    if a == [] {
      assert a + b == b;
    } else {
      assert (a + b)[1..] == a[1..] + b;
      SpawnedConcat(kids, a[1..], b);
    }
  }

  /** The k-th generation below the queue `q`. */
  function Generation(kids: Forest, q: seq<Call>, k: nat): seq<Call> {
    if k == 0 then q else Spawned(kids, Generation(kids, q, k - 1))
  }

  /** The first k generations, one after the other. */
  function Breadth(kids: Forest, q: seq<Call>, k: nat): seq<Call> {
    if k == 0 then [] else Breadth(kids, q, k - 1) + Generation(kids, q, k - 1)
  }

  lemma {:induction false} BreadthGrows(kids: Forest, q: seq<Call>, j: nat, k: nat)
    requires j <= k
    ensures Breadth(kids, q, j) <= Breadth(kids, q, k)
    decreases k
  {
    if j < k {
      BreadthGrows(kids, q, j, k - 1);
    }
  }

  /** What was run and what is left are the initial queue and everything spawned, in that order. */
  lemma {:induction false} BreadthConserves(kids: Forest, q: seq<Call>, k: nat)
    ensures Breadth(kids, q, k) + Generation(kids, q, k) == q + Spawned(kids, Breadth(kids, q, k))
    decreases k
  {
    if k > 0 {
      BreadthConserves(kids, q, k - 1);
      RoundConserves(kids, q, Breadth(kids, q, k - 1), Generation(kids, q, k - 1), Generation(kids, q, k - 1),
                     Generation(kids, q, k));
    }
  }

  /** Running the calls `b` out of the round `g` keeps that balance. */
  lemma RoundConserves(kids: Forest, q: seq<Call>, before: seq<Call>, g: seq<Call>, b: seq<Call>, left: seq<Call>)
    requires before + g == q + Spawned(kids, before)
    requires b + left == g + Spawned(kids, b)
    ensures before + b + left == q + Spawned(kids, before + b)
  {
    SpawnedConcat(kids, before, b);
    Balance(before, g, b, left, q, Spawned(kids, before), Spawned(kids, b));
  }

  lemma Balance<T>(before: seq<T>, g: seq<T>, b: seq<T>, left: seq<T>, q: seq<T>, x: seq<T>, y: seq<T>)
    requires before + g == q + x && b + left == g + y
    ensures before + b + left == q + (x + y)
  {
    assert before + b + left == before + (b + left);
    assert before + (g + y) == (before + g) + y;
    assert (q + x) + y == q + (x + y);
  }

  // ----- The loop -----

  class Loop {
    const defer: DeferList<Call>
    const kids: Forest
    const fails: Call -> bool
    /** The calls that have begun to run, and all calls ever queued, each in order. */
    ghost var ran: seq<Call>
    ghost var queued: seq<Call>

    /** No call is ever lost, doubled or overtaken. */
    ghost predicate Valid()
      reads this, defer
    {
      defer.Valid() && ran + defer.contents == queued
    }

    constructor (kids: Forest, fails: Call -> bool)
      ensures Valid() && defer.contents == [] && ran == [] && fresh(defer)
      ensures this.kids == kids && this.fails == fails
    {
      defer := new DeferList<Call>.Init();
      this.kids, this.fails := kids, fails;
      ran, queued := [], [];
    }

    /** `lluv_loop_defer_call`. */
    method DeferCall(c: Call)
      requires Valid()
      modifies this`queued, defer
      ensures Valid() && defer.contents == old(defer.contents) + [c]
      ensures queued == old(queued) + [c]
    {
      defer.PushBack(c);
      queued := queued + [c];
    }

    /** Running one call: it defers its children one by one and then returns or fails. */
    method RunCall(c: Call) returns (err: bool)
      requires defer.Valid() && ran + [c] + defer.contents == queued
      modifies this`ran, this`queued, defer
      ensures Valid() && err == fails(c)
      ensures ran == old(ran) + [c]
      ensures defer.contents == old(defer.contents) + Children(kids, c)
    {
      ran := ran + [c];
      var j := 0;
      while j < kids(c)
        invariant 0 <= j <= kids(c)
        invariant Valid() && ran == old(ran) + [c]
        invariant defer.contents + ChildrenFrom(kids, c, j) == old(defer.contents) + Children(kids, c)
      {
        DeferCall(c + [j]);
        j := j + 1;
      }
      err := fails(c);
    }

    ghost predicate AllSucceed(q: seq<Call>) {
      forall c :: c in q ==> !fails(c)
    }

    /** The calls `begun` all succeeded, except that the last one failed if `err`. */
    ghost predicate Outcome(begun: seq<Call>, err: bool) {
      if err then begun != [] && fails(begun[|begun| - 1]) && AllSucceed(begun[..|begun| - 1])
      else AllSucceed(begun)
    }

    /** What one round does to the queue `g`. */
    ghost predicate RoundDone(g: seq<Call>, begun: seq<Call>, left: seq<Call>, err: bool) {
      && Outcome(begun, err)
      && begun <= g
      && begun + left == g + Spawned(kids, begun)
      && (!err ==> begun == g && left == Spawned(kids, g))
    }

    /** What one call of `lluv_loop_defer_proceed` does to the queue `q`: it begins the calls `begun`, in
        that order, and leaves the queue `left`. */
    ghost predicate Proceeded(q: seq<Call>, begun: seq<Call>, left: seq<Call>, err: bool) {
      && Outcome(begun, err)
      && begun <= Breadth(kids, q, DEFER_DEPTH)
      && begun + left == q + Spawned(kids, begun)
      && (!err ==> begun == Breadth(kids, q, DEFER_DEPTH) && left == Generation(kids, q, DEFER_DEPTH))
    }

    lemma OutcomeConcat(a: seq<Call>, b: seq<Call>, err: bool)
      requires AllSucceed(a) && Outcome(b, err)
      ensures Outcome(a + b, err)
    {
    }

    /** In the middle of a round over the queue `g`. */
    ghost predicate InRound(g: seq<Call>, begun: seq<Call>, left: seq<Call>) {
      |begun| <= |g| && begun == g[..|begun|] && left == g[|begun|..] + Spawned(kids, begun)
    }

    /** One turn of the loop of `Round`: the front call is popped and runs. */
    lemma TurnDone(g: seq<Call>, begun: seq<Call>, left: seq<Call>)
      requires InRound(g, begun, left) && |begun| < |g|
      ensures left != [] && left[0] == g[|begun|]
      ensures InRound(g, begun + [left[0]], left[1..] + Children(kids, left[0]))
    {
      var k, c := |begun|, g[|begun|];
      SpawnedConcat(kids, begun, [c]);
      assert Spawned(kids, [c]) == Children(kids, c);
      assert g[k..] == [c] + g[k + 1..];
      Assoc([c], g[k + 1..], Spawned(kids, begun));
      Assoc(g[k + 1..], Spawned(kids, begun), Children(kids, c));
    }

    /** Where the round stops, whether at its end or at a failure. */
    lemma RoundStops(g: seq<Call>, begun: seq<Call>, left: seq<Call>)
      requires InRound(g, begun, left)
      ensures begun <= g && begun + left == g + Spawned(kids, begun)
      ensures |begun| == |g| ==> begun == g && left == Spawned(kids, g)
    {
    }

    /** One round: exactly the calls queued at its start, unless one fails. */
    method Round() returns (err: bool, ghost begun: seq<Call>)
      requires Valid()
      modifies this`ran, this`queued, defer
      ensures Valid() && ran == old(ran) + begun
      ensures RoundDone(old(defer.contents), begun, defer.contents, err)
    {
      ghost var g := defer.contents;
      begun := [];
      var s := defer.Size();
      while s != 0
        invariant 0 <= s <= |g| && |begun| == |g| - s && InRound(g, begun, defer.contents)
        invariant Valid() && ran == old(ran) + begun && AllSucceed(begun)
      {
        TurnDone(g, begun, defer.contents);
        var c := PopCall();
        err := RunCall(c);
        Assoc(old(ran), begun, [c]);
        s := s - 1;
        begun := begun + [c];
        if err {
          RoundStops(g, begun, defer.contents);
          return;
        }
      }
      RoundStops(g, begun, defer.contents);
      err := false;
    }

    /** `lluv_list_pop_front`, with the assertion that there was a call. */
    method PopCall() returns (c: Call)
      requires Valid() && defer.contents != []
      modifies defer
      ensures defer.Valid() && c == old(defer.contents)[0] && defer.contents == old(defer.contents)[1..]
      ensures ran + [c] + defer.contents == queued
    {
      var n, v := defer.PopFront();
      assert n == 1;
      c := v.value;
      Assoc(ran, [c], defer.contents);
      assert [c] + defer.contents == old(defer.contents);
    }

    /** A round after `i` whole generations. */
    lemma AfterRound(q: seq<Call>, i: nat, begun: seq<Call>, left: seq<Call>, err: bool)
      requires i < DEFER_DEPTH && AllSucceed(Breadth(kids, q, i))
      requires RoundDone(Generation(kids, q, i), begun, left, err)
      ensures var all := Breadth(kids, q, i) + begun;
              if err then Proceeded(q, all, left, err)
              else && all == Breadth(kids, q, i + 1) && left == Generation(kids, q, i + 1)
                   && AllSucceed(Breadth(kids, q, i + 1))
    {
      OutcomeConcat(Breadth(kids, q, i), begun, err);
      if err {
        BreadthConserves(kids, q, i);
        RoundConserves(kids, q, Breadth(kids, q, i), Generation(kids, q, i), begun, left);
        BreadthGrows(kids, q, i + 1, DEFER_DEPTH);
        PrefixOfSum(Breadth(kids, q, i), begun, Generation(kids, q, i));
      }
    }

    /** After `i` rounds without a failure. */
    ghost predicate AfterRounds(q: seq<Call>, i: nat, begun: seq<Call>, left: seq<Call>) {
      i <= DEFER_DEPTH && begun == Breadth(kids, q, i) && left == Generation(kids, q, i) && AllSucceed(begun)
    }

    lemma AllRounds(q: seq<Call>, begun: seq<Call>, left: seq<Call>)
      requires AfterRounds(q, DEFER_DEPTH, begun, left)
      ensures Proceeded(q, begun, left, false)
    {
      BreadthConserves(kids, q, DEFER_DEPTH);
    }

    /** `lluv_loop_defer_proceed`: it stops early only at a call that fails. */
    method DeferProceed() returns (err: bool, ghost begun: seq<Call>)
      requires Valid()
      modifies this`ran, this`queued, defer
      ensures Valid() && ran == old(ran) + begun
      ensures Proceeded(old(defer.contents), begun, defer.contents, err)
    {
      ghost var q := defer.contents;
      begun := [];
      var i := 0;
      while i < DEFER_DEPTH
        invariant 0 <= i <= DEFER_DEPTH && Valid()
        invariant ran == old(ran) + begun
        invariant AfterRounds(q, i, begun, defer.contents)
      {
        ghost var more;
        err, more := Round();
        AfterRound(q, i, more, defer.contents, err);
        Assoc(old(ran), begun, more);
        begun := begun + more;
        if err {
          return;
        }
        i := i + 1;
      }
      AllRounds(q, begun, defer.contents);
      err := false;
    }
  }
}

/** The order in which the scheduler runs deferred calls, said without the scheduler: the calls of a
    forest by depth, and by path within one depth, each exactly once. */
module BreadthFirst {
  import opened Seqs
  import opened DeferLoops

  /** `p` names a call of the forest below the `n` calls queued from outside. */
  predicate InForest(kids: Forest, n: nat, p: Call) {
    p != [] &&
    var last := |p| - 1;
    if last == 0 then p[0] < n else InForest(kids, n, p[..last]) && p[last] < kids(p[..last])
  }

  /** `a` and `b`, of equal length, differ first where `a` is smaller. */
  predicate Earlier(a: Call, b: Call) {
    a != [] && b != [] && (a[0] < b[0] || (a[0] == b[0] && Earlier(a[1..], b[1..])))
  }

  predicate Before(a: Call, b: Call) {
    |a| < |b| || (|a| == |b| && Earlier(a, b))
  }

  ghost predicate InOrder(q: seq<Call>) {
    forall i, j :: 0 <= i < j < |q| ==> Before(q[i], q[j])
  }

  /** The calls queued from outside. */
  function Roots(n: nat): (q: seq<Call>)
    ensures |q| == n && forall i :: 0 <= i < n ==> q[i] == [i]
  {
    if n == 0 then [] else Roots(n - 1) + [[n - 1]]
  }

  // ----- Facts about the order -----

  lemma {:induction false} NotBeforeItself(a: Call)
    ensures !Before(a, a)
    decreases |a|
  {
    if a != [] {
      NotBeforeItself(a[1..]);
    }
  }

  lemma {:induction false} ChildrenKeepOrder(a: Call, b: Call, x: nat, y: nat)
    requires |a| == |b| && (Earlier(a, b) || (a == b && x < y))
    ensures Earlier(a + [x], b + [y])
    decreases |a|
  {
    if a != [] {
      assert (a + [x])[1..] == a[1..] + [x] && (b + [y])[1..] == b[1..] + [y];
      if a[0] == b[0] {
        ChildrenKeepOrder(a[1..], b[1..], x, y);
      }
    }
  }

  lemma ConcatInOrder(a: seq<Call>, b: seq<Call>)
    requires InOrder(a) && InOrder(b) && forall x, y :: x in a && y in b ==> Before(x, y)
    ensures InOrder(a + b)
  {
  }

  // ----- One generation -----

  /** `p` is a child of a call of `q`. */
  predicate ChildOf(kids: Forest, q: seq<Call>, p: Call) {
    p != [] && p[..|p| - 1] in q && p[|p| - 1] < kids(p[..|p| - 1])
  }

  lemma {:induction false} ChildrenAre(kids: Forest, p: Call, from: nat, c: Call)
    ensures c in ChildrenFrom(kids, p, from) <==> |c| == |p| + 1 && c[..|p|] == p && from <= c[|p|] < kids(p)
    decreases if from <= kids(p) then kids(p) - from else 0
  {
    if from < kids(p) {
      ChildrenAre(kids, p, from + 1, c);
      assert (p + [from])[..|p|] == p;
      assert |c| == |p| + 1 ==> c == c[..|p|] + [c[|p|]];
    }
  }

  lemma {:induction false} ChildrenInOrder(kids: Forest, p: Call, from: nat)
    ensures InOrder(ChildrenFrom(kids, p, from))
    decreases if from <= kids(p) then kids(p) - from else 0
  {
    if from < kids(p) {
      ChildrenInOrder(kids, p, from + 1);
      forall x, y | x in [p + [from]] && y in ChildrenFrom(kids, p, from + 1)
        ensures Before(x, y)
      {
        ChildrenAre(kids, p, from + 1, y);
        assert y == p + [y[|p|]];
        ChildrenKeepOrder(p, p, from, y[|p|]);
      }
      ConcatInOrder([p + [from]], ChildrenFrom(kids, p, from + 1));
    }
  }

  lemma {:induction false} SpawnedAre(kids: Forest, q: seq<Call>, c: Call)
    ensures c in Spawned(kids, q) <==> ChildOf(kids, q, c)
    decreases |q|
  {
    if q != [] {
      SpawnedAre(kids, q[1..], c);
      ChildrenAre(kids, q[0], 0, c);
      assert q == [q[0]] + q[1..];
    }
  }

  /** A child of an earlier call is before a child of a later one. */
  lemma CousinsKeepOrder(a: Call, x: Call, b: Call, y: Call)
    requires |a| == |b| && Before(a, b) && |x| == |a| + 1 && |y| == |b| + 1 && x[..|a|] == a && y[..|b|] == b
    ensures Before(x, y)
  {
    assert x == a + [x[|a|]] && y == b + [y[|b|]];
    ChildrenKeepOrder(a, b, x[|a|], y[|b|]);
  }

  lemma {:induction false} SpawnedInOrder(kids: Forest, q: seq<Call>, depth: nat)
    requires InOrder(q) && forall p :: p in q ==> |p| == depth
    ensures InOrder(Spawned(kids, q))
    decreases |q|
  {
    if q != [] {
      var rest := q[1..];
      SpawnedInOrder(kids, rest, depth);
      ChildrenInOrder(kids, q[0], 0);
      forall x, y | x in Children(kids, q[0]) && y in Spawned(kids, rest)
        ensures Before(x, y)
      {
        ChildrenAre(kids, q[0], 0, x);
        SpawnedAre(kids, rest, y);
        var j :| 0 <= j < |rest| && rest[j] == y[..|y| - 1];
        assert Before(q[0], q[j + 1]) && |q[j + 1]| == |q[0]|;
        CousinsKeepOrder(q[0], x, rest[j], y);
      }
      ConcatInOrder(Children(kids, q[0]), Spawned(kids, rest));
    }
  }

  // ----- All generations -----

  lemma RootsAre(kids: Forest, n: nat, p: Call)
    ensures p in Roots(n) <==> |p| == 1 && InForest(kids, n, p)
  {
    if |p| == 1 && p[0] < n {
      assert Roots(n)[p[0]] == p;
    }
  }

  /** The k-th generation is every call of depth k + 1, in order. */
  lemma {:induction false} GenerationHolds(kids: Forest, n: nat, k: nat, p: Call)
    ensures p in Generation(kids, Roots(n), k) <==> |p| == k + 1 && InForest(kids, n, p)
    decreases k
  {
    if k == 0 {
      RootsAre(kids, n, p);
    } else {
      SpawnedAre(kids, Generation(kids, Roots(n), k - 1), p);
      if p != [] {
        GenerationHolds(kids, n, k - 1, p[..|p| - 1]);
      }
    }
  }

  lemma {:induction false} GenerationInOrder(kids: Forest, n: nat, k: nat)
    ensures InOrder(Generation(kids, Roots(n), k))
    decreases k
  {
    if k > 0 {
      GenerationInOrder(kids, n, k - 1);
      GenerationDepth(kids, n, k - 1);
      SpawnedInOrder(kids, Generation(kids, Roots(n), k - 1), k);
    }
  }

  lemma GenerationDepth(kids: Forest, n: nat, k: nat)
    ensures forall p :: p in Generation(kids, Roots(n), k) ==> |p| == k + 1
  {
    forall p | p in Generation(kids, Roots(n), k)
      ensures |p| == k + 1
    {
      GenerationHolds(kids, n, k, p);
    }
  }

  /** The calls run by k whole rounds are every call of depth at most k, in breadth-first order. */
  lemma {:induction false} BreadthHolds(kids: Forest, n: nat, k: nat, p: Call)
    ensures p in Breadth(kids, Roots(n), k) <==> |p| <= k && InForest(kids, n, p)
    decreases k
  {
    if k > 0 {
      BreadthHolds(kids, n, k - 1, p);
      GenerationHolds(kids, n, k - 1, p);
    }
  }

  lemma {:induction false} BreadthInOrder(kids: Forest, n: nat, k: nat)
    ensures InOrder(Breadth(kids, Roots(n), k))
    decreases k
  {
    if k > 0 {
      var a, b := Breadth(kids, Roots(n), k - 1), Generation(kids, Roots(n), k - 1);
      BreadthInOrder(kids, n, k - 1);
      GenerationInOrder(kids, n, k - 1);
      forall x, y | x in a && y in b
        ensures Before(x, y)
      {
        BreadthHolds(kids, n, k - 1, x);
        GenerationHolds(kids, n, k - 1, y);
      }
      ConcatInOrder(a, b);
    }
  }

  /** In breadth-first order no call is listed twice. */
  lemma InOrderIsDistinct(q: seq<Call>, i: nat, j: nat)
    requires InOrder(q) && i < j < |q|
    ensures q[i] != q[j]
  {
    NotBeforeItself(q[i]);
  }

  // ----- Any queue -----
  // The calls below a queue q are addressed by paths whose first step is a position in q.

  /** The call at an address: p[0] says which call of the queue it descends from. */
  function At(q: seq<Call>, p: Call): Call {
    if p != [] && p[0] < |q| then q[p[0]] + p[1..] else p
  }

  function AllAt(q: seq<Call>, ps: seq<Call>): (r: seq<Call>)
    ensures |r| == |ps| && forall i :: 0 <= i < |ps| ==> r[i] == At(q, ps[i])
  {
    if ps == [] then [] else [At(q, ps[0])] + AllAt(q, ps[1..])
  }

  /** The forest below the queue `q`, by addresses. */
  function Below(kids: Forest, q: seq<Call>): Forest {
    p => kids(At(q, p))
  }

  predicate Address(q: seq<Call>, p: Call) {
    p != [] && p[0] < |q|
  }

  lemma AllAtConcat(q: seq<Call>, a: seq<Call>, b: seq<Call>)
    ensures AllAt(q, a + b) == AllAt(q, a) + AllAt(q, b)
  {
  }

  lemma {:induction false} ChildrenAt(kids: Forest, q: seq<Call>, p: Call, from: nat)
    requires Address(q, p)
    ensures AllAt(q, ChildrenFrom(Below(kids, q), p, from)) == ChildrenFrom(kids, At(q, p), from)
    decreases if from <= kids(At(q, p)) then kids(At(q, p)) - from else 0
  {
    if from < kids(At(q, p)) {
      ChildrenAt(kids, q, p, from + 1);
      AllAtConcat(q, [p + [from]], ChildrenFrom(Below(kids, q), p, from + 1));
      assert (p + [from])[1..] == p[1..] + [from];
      assert At(q, p + [from]) == At(q, p) + [from];
    }
  }

  lemma {:induction false} SpawnedAt(kids: Forest, q: seq<Call>, ps: seq<Call>)
    requires forall p :: p in ps ==> Address(q, p)
    ensures AllAt(q, Spawned(Below(kids, q), ps)) == Spawned(kids, AllAt(q, ps))
    decreases |ps|
  {
    if ps != [] {
      SpawnedAt(kids, q, ps[1..]);
      ChildrenAt(kids, q, ps[0], 0);
      AllAtConcat(q, Children(Below(kids, q), ps[0]), Spawned(Below(kids, q), ps[1..]));
    }
  }

  lemma {:induction false} InForestAddress(kids: Forest, q: seq<Call>, p: Call)
    requires InForest(kids, |q|, p)
    ensures Address(q, p)
    decreases |p|
  {
    if |p| > 1 {
      InForestAddress(kids, q, p[..|p| - 1]);
    }
  }

  lemma RootsAt(q: seq<Call>)
    ensures AllAt(q, Roots(|q|)) == q
  {
    hide AllAt, Roots;
    forall i | 0 <= i < |q|
      ensures AllAt(q, Roots(|q|))[i] == q[i]
    {
      RootAt(q, i);
    }
  }

  lemma RootAt(q: seq<Call>, i: nat)
    requires i < |q|
    ensures At(q, [i]) == q[i]
  {
    assert [i][1..] == [] && q[i] + [] == q[i];
  }

  lemma GenerationAddresses(kids: Forest, q: seq<Call>, k: nat)
    ensures forall p :: p in Generation(Below(kids, q), Roots(|q|), k) ==> Address(q, p)
  {
    forall p | p in Generation(Below(kids, q), Roots(|q|), k)
      ensures Address(q, p)
    {
      GenerationHolds(Below(kids, q), |q|, k, p);
      InForestAddress(Below(kids, q), q, p);
    }
  }

  lemma {:induction false} GenerationAt(kids: Forest, q: seq<Call>, k: nat)
    ensures AllAt(q, Generation(Below(kids, q), Roots(|q|), k)) == Generation(kids, q, k)
    decreases k
  {
    hide AllAt, Roots, At, Below, Spawned;
    if k == 0 {
      RootsAt(q);
    } else {
      GenerationAt(kids, q, k - 1);
      GenerationAddresses(kids, q, k - 1);
      SpawnedAt(kids, q, Generation(Below(kids, q), Roots(|q|), k - 1));
    }
  }

  lemma {:induction false} BreadthAt(kids: Forest, q: seq<Call>, k: nat)
    ensures AllAt(q, Breadth(Below(kids, q), Roots(|q|), k)) == Breadth(kids, q, k)
    decreases k
  {
    hide AllAt, Roots, Generation;
    if k > 0 {
      BreadthAt(kids, q, k - 1);
      GenerationAt(kids, q, k - 1);
      AllAtConcat(q, Breadth(Below(kids, q), Roots(|q|), k - 1), Generation(Below(kids, q), Roots(|q|), k - 1));
    }
  }

  /** The addresses of depth at most `depth` below `q`, in breadth-first order, each once. */
  ghost predicate Enumerates(kids: Forest, q: seq<Call>, depth: nat, addresses: seq<Call>) {
    && InOrder(addresses)
    && (forall p :: p in addresses <==> |p| <= depth && InForest(Below(kids, q), |q|, p))
    && (forall i, j :: 0 <= i < j < |addresses| ==> addresses[i] != addresses[j])
  }

  lemma BreadthEnumerates(kids: Forest, q: seq<Call>, depth: nat)
    ensures Enumerates(kids, q, depth, Breadth(Below(kids, q), Roots(|q|), depth))
  {
    var all := Breadth(Below(kids, q), Roots(|q|), depth);
    BreadthInOrder(Below(kids, q), |q|, depth);
    forall p
      ensures p in all <==> |p| <= depth && InForest(Below(kids, q), |q|, p)
    {
      BreadthHolds(Below(kids, q), |q|, depth, p);
    }
    forall i, j | 0 <= i < j < |all|
      ensures all[i] != all[j]
    {
      InOrderIsDistinct(all, i, j);
    }
  }

  // ----- The theorems -----

  /** A whole `lluv_loop_defer_proceed` that meets no failing call, on any queue: it begins every call at
      depth at most DEFER_DEPTH below the queue exactly once, breadth first, and leaves the calls one deeper
      queued, in order. */
  lemma ProceedIsBreadthFirst(loop: Loop, q: seq<Call>, begun: seq<Call>, left: seq<Call>)
    requires loop.Proceeded(q, begun, left, false)
    ensures exists addresses ::
              Enumerates(loop.kids, q, DEFER_DEPTH, addresses) && begun == AllAt(q, addresses)
    ensures exists addresses ::
              && InOrder(addresses) && left == AllAt(q, addresses)
              && forall p :: p in addresses <==> |p| == DEFER_DEPTH + 1 && InForest(Below(loop.kids, q), |q|, p)
  {
    var kids, n := Below(loop.kids, q), |q|;
    BreadthEnumerates(loop.kids, q, DEFER_DEPTH);
    BreadthAt(loop.kids, q, DEFER_DEPTH);
    assert begun == AllAt(q, Breadth(kids, Roots(n), DEFER_DEPTH));
    var next := Generation(kids, Roots(n), DEFER_DEPTH);
    GenerationInOrder(kids, n, DEFER_DEPTH);
    GenerationAt(loop.kids, q, DEFER_DEPTH);
    forall p
      ensures p in next <==> |p| == DEFER_DEPTH + 1 && InForest(kids, n, p)
    {
      GenerationHolds(kids, n, DEFER_DEPTH, p);
    }
    assert left == AllAt(q, next);
  }

  /** The calls begun are the enumeration up to the first call that fails. */
  ghost predicate StopsAtFailure(loop: Loop, q: seq<Call>, addresses: seq<Call>, begun: seq<Call>) {
    && 0 < |begun| <= |addresses| && begun == AllAt(q, addresses[..|begun|])
    && loop.fails(At(q, addresses[|begun| - 1]))
    && forall i :: 0 <= i < |begun| - 1 ==> !loop.fails(At(q, addresses[i]))
  }

  ghost predicate FailsWithin(loop: Loop, q: seq<Call>, depth: nat) {
    exists p :: InForest(Below(loop.kids, q), |q|, p) && |p| <= depth && loop.fails(At(q, p))
  }

  /** It fails exactly when some call within the depth fails; then the calls begun are the enumeration up to
      the first such call. */
  lemma ProceedStopsAtFirstFailure(loop: Loop, q: seq<Call>, begun: seq<Call>, left: seq<Call>, err: bool)
    requires loop.Proceeded(q, begun, left, err)
    ensures err <==> FailsWithin(loop, q, DEFER_DEPTH)
    ensures err ==> exists addresses ::
                Enumerates(loop.kids, q, DEFER_DEPTH, addresses) && StopsAtFailure(loop, q, addresses, begun)
  {
    var all := Breadth(Below(loop.kids, q), Roots(|q|), DEFER_DEPTH);
    BreadthEnumerates(loop.kids, q, DEFER_DEPTH);
    BreadthAt(loop.kids, q, DEFER_DEPTH);
    if err {
      Failure(loop, q, all, begun);
    } else {
      NoFailure(loop, q, all, begun);
    }
  }

  lemma Failure(loop: Loop, q: seq<Call>, all: seq<Call>, begun: seq<Call>)
    requires loop.Outcome(begun, true) && begun <= AllAt(q, all) && Enumerates(loop.kids, q, DEFER_DEPTH, all)
    ensures StopsAtFailure(loop, q, all, begun) && FailsWithin(loop, q, DEFER_DEPTH)
  {
    hide At, InForest, InOrder, Below;
    BegunAre(q, all, begun);
    var last := |begun| - 1;
    assert begun[last] == At(q, all[last]) && all[last] in all;
    forall i | 0 <= i < last
      ensures !loop.fails(At(q, all[i]))
    {
      assert begun[..last][i] == At(q, all[i]);
    }
  }

  lemma NoFailure(loop: Loop, q: seq<Call>, all: seq<Call>, begun: seq<Call>)
    requires loop.AllSucceed(begun) && begun == AllAt(q, all) && Enumerates(loop.kids, q, DEFER_DEPTH, all)
    ensures !FailsWithin(loop, q, DEFER_DEPTH)
  {
    forall p | InForest(Below(loop.kids, q), |q|, p) && |p| <= DEFER_DEPTH
      ensures !loop.fails(At(q, p))
    {
      var i :| 0 <= i < |all| && all[i] == p;
      assert begun[i] in begun;
    }
  }

  /** The calls begun are a prefix of the enumeration. */
  lemma BegunAre(q: seq<Call>, all: seq<Call>, begun: seq<Call>)
    requires begun <= AllAt(q, all)
    ensures |begun| <= |all| && begun == AllAt(q, all[..|begun|])
  {
  }

  // ----- One call after another -----

  lemma {:induction false} GenerationOfGeneration(kids: Forest, q: seq<Call>, j: nat, k: nat)
    ensures Generation(kids, Generation(kids, q, j), k) == Generation(kids, q, j + k)
    decreases k
  {
    if k > 0 {
      GenerationOfGeneration(kids, q, j, k - 1);
    }
  }

  lemma {:induction false} BreadthOfGeneration(kids: Forest, q: seq<Call>, j: nat, k: nat)
    ensures Breadth(kids, q, j) + Breadth(kids, Generation(kids, q, j), k) == Breadth(kids, q, j + k)
    decreases k
  {
    var g := Generation(kids, q, j);
    if k == 0 {
      ConcatEmpty(Breadth(kids, q, j));
    } else {
      BreadthOfGeneration(kids, q, j, k - 1);
      GenerationOfGeneration(kids, q, j, k - 1);
      Assoc(Breadth(kids, q, j), Breadth(kids, g, k - 1), Generation(kids, g, k - 1));
    }
  }

  /** The next `lluv_loop_defer_proceed` takes up where the last one stopped: together they are the
      enumeration to twice the depth. */
  lemma ProceedTwice(loop: Loop, q: seq<Call>, begun: seq<Call>, left: seq<Call>, begun': seq<Call>, left': seq<Call>)
    requires loop.Proceeded(q, begun, left, false) && loop.Proceeded(left, begun', left', false)
    ensures exists addresses ::
              Enumerates(loop.kids, q, 2 * DEFER_DEPTH, addresses) && begun + begun' == AllAt(q, addresses)
  {
    BreadthOfGeneration(loop.kids, q, DEFER_DEPTH, DEFER_DEPTH);
    BreadthEnumerates(loop.kids, q, 2 * DEFER_DEPTH);
    BreadthAt(loop.kids, q, 2 * DEFER_DEPTH);
  }

  /** The addresses below the calls queued from outside are the calls themselves. */
  lemma RootsAreAddresses(n: nat, p: Call)
    requires p != [] && p[0] < n
    ensures At(Roots(n), p) == p
  {
    assert [p[0]] + p[1..] == p;
  }
}

/** Small facts about slices and concatenations of sequences. */
module Seqs {
  lemma DropSlices<T>(s: seq<T>, b: nat, i: nat)
    requires b + i <= |s|
    ensures s[b..][..i] == s[b..b + i] && s[b..][i..] == s[b + i..]
  {
  }

  lemma TakeDrop<T>(s: seq<T>, i: nat)
    requires i <= |s|
    ensures s[..i] + s[i..] == s
  {
  }

  /** Cutting a concatenation inside its second part. */
  lemma CutInSecond<T>(a: seq<T>, b: seq<T>, n: nat)
    requires n <= |b|
    ensures (a + b)[..|a| + n] == a + b[..n] && (a + b)[|a| + n..] == b[n..]
  {
  }

  /** Cutting a concatenation inside its first part. */
  lemma CutInFirst<T>(a: seq<T>, b: seq<T>, n: nat)
    requires n <= |a|
    ensures (a + b)[..n] == a[..n] && (a + b)[n..] == a[n..] + b
  {
  }

  lemma Assoc<T>(a: seq<T>, b: seq<T>, c: seq<T>)
    ensures a + (b + c) == a + b + c
  {
  }

  lemma ConcatEmpty<T>(a: seq<T>)
    ensures a + [] == a && [] + a == a
  {
  }

  lemma PrefixOfSum<T>(a: seq<T>, b: seq<T>, g: seq<T>)
    requires b <= g
    ensures a + b <= a + g
  {
  }
}

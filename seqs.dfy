/** Element-wise mapping over sequences, as Python's list comprehensions
    `[f(x) for x in xs]` use it. */
module Seqs {
  function Map<A, B>(f: A -> B, s: seq<A>): (r: seq<B>)
    ensures |r| == |s|
    ensures forall i :: 0 <= i < |s| ==> r[i] == f(s[i])
  {
    seq(|s|, i requires 0 <= i < |s| => f(s[i]))
  }

  lemma MapAppend<A, B>(f: A -> B, x: seq<A>, y: seq<A>)
    ensures Map(f, x + y) == Map(f, x) + Map(f, y)
  {
  }

  /** Mapping splits around any position. */
  lemma MapSplit<A, B>(f: A -> B, b: seq<A>, k: nat)
    requires k < |b|
    ensures Map(f, b) == Map(f, b[..k]) + [f(b[k])] + Map(f, b[k + 1..])
  {
    assert b == b[..k] + [b[k]] + b[k + 1..];
    MapAppend(f, b[..k] + [b[k]], b[k + 1..]);
    MapAppend(f, b[..k], [b[k]]);
  }

  /** A sequence's elements are those before, at and after any position. */
  lemma MultisetSplit<T>(b: seq<T>, k: nat)
    requires k < |b|
    ensures multiset(b) == multiset(b[..k]) + multiset{b[k]} + multiset(b[k + 1..])
  {
    assert b == b[..k] + [b[k]] + b[k + 1..];
  }

  /** Removing the element at `k` removes its image from the mapped multiset. */
  lemma MapRemove<A, B>(f: A -> B, b: seq<A>, k: nat)
    requires k < |b|
    ensures multiset(b[..k] + b[k + 1..]) == multiset(b) - multiset{b[k]}
    ensures multiset(Map(f, b)) == multiset{f(b[k])} + multiset(Map(f, b[..k] + b[k + 1..]))
  {
    MultisetSplit(b, k);
    MapSplit(f, b, k);
    MapAppend(f, b[..k], b[k + 1..]);
  }

  /** The case `k == 0` of `MapRemove`. */
  lemma MapHead<A, B>(f: A -> B, a: seq<A>)
    requires a != []
    ensures multiset(a[1..]) == multiset(a) - multiset{a[0]}
    ensures multiset(Map(f, a)) == multiset{f(a[0])} + multiset(Map(f, a[1..]))
  {
    assert a == [a[0]] + a[1..];
    MapAppend(f, [a[0]], a[1..]);
    assert Map(f, [a[0]]) == [f(a[0])];
  }

  /** Mapping commutes with reordering: a permutation of the input maps to
      a permutation of the output. */
  lemma {:induction false} MapPermutation<A, B>(f: A -> B, a: seq<A>, b: seq<A>)
    requires multiset(a) == multiset(b)
    ensures multiset(Map(f, a)) == multiset(Map(f, b))
    decreases |a|
  {
    if a == [] {
      assert |multiset(b)| == 0;
    } else {
      assert a[0] in multiset(b);
      var k :| 0 <= k < |b| && b[k] == a[0];
      var rest := b[..k] + b[k + 1..];
      MapHead(f, a);
      MapRemove(f, b, k);
      assert multiset(a[1..]) == multiset(rest);
      MapPermutation(f, a[1..], rest);
    }
  }

  /** Python's `s[:n]`: a negative `n` counts from the end, and a bound
      past the end stops at the end. */
  function Take<T>(s: seq<T>, n: int): (r: seq<T>)
    ensures r <= s
    ensures n >= 0 ==> |r| == if n <= |s| then n else |s|
    ensures n < 0 ==> |r| == if |s| + n >= 0 then |s| + n else 0
  {
    if n >= |s| then s
    else if n >= 0 then s[..n]
    else if |s| + n >= 0 then s[..|s| + n]
    else []
  }
}

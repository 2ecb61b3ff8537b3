/**
 * Sequence helpers with the meaning of the source languages' list idioms:
 * Python slicing `xs[:n]`, `filter` / list comprehensions with a condition,
 * and counting the elements that satisfy a condition.
 */
module Seqs {

  /** Python `xs[:n]`; a negative `n` counts from the end. */
  function SliceTo<T>(xs: seq<T>, n: int): (r: seq<T>)
    ensures 0 <= n ==> |r| == if n < |xs| then n else |xs|
    ensures n < 0 ==> |r| == if |xs| + n > 0 then |xs| + n else 0
    ensures r == xs[..|r|]
  {
    if n >= 0 then (if n < |xs| then xs[..n] else xs)
    else if |xs| + n > 0 then xs[..|xs| + n]
    else []
  }

  /** `xs.filter(keep)` / `[x for x in xs if keep(x)]`. */
  function Filter<T>(xs: seq<T>, keep: T -> bool): (r: seq<T>)
    ensures |r| <= |xs|
    ensures forall k :: 0 <= k < |r| ==> keep(r[k]) && r[k] in xs
    ensures forall x :: x in xs && keep(x) ==> x in r
  {
    if xs == [] then []
    else Filter(xs[..|xs| - 1], keep) + (if keep(xs[|xs| - 1]) then [xs[|xs| - 1]] else [])
  }

  /** `sub` is obtained from `xs` by deleting elements: order kept, nothing added. */
  ghost predicate IsSubsequence<T>(sub: seq<T>, xs: seq<T>)
    decreases |xs|
  {
    if sub == [] then true
    else if xs == [] then false
    else if sub[|sub| - 1] == xs[|xs| - 1] then IsSubsequence(sub[..|sub| - 1], xs[..|xs| - 1])
    else IsSubsequence(sub, xs[..|xs| - 1])
  }

  /** Filtering keeps the survivors in their original order. */
  lemma {:induction false} FilterIsSubsequence<T>(xs: seq<T>, keep: T -> bool)
    ensures IsSubsequence(Filter(xs, keep), xs)
    decreases |xs|
  {
    if xs != [] {
      var init := xs[..|xs| - 1];
      FilterIsSubsequence(init, keep);
      var r := Filter(xs, keep);
      if keep(xs[|xs| - 1]) {
        assert r[..|r| - 1] == Filter(init, keep);
      } else {
        assert r == Filter(init, keep);
        SubsequenceOfPrefix(r, init, xs[|xs| - 1]);
      }
    }
  }

  /** A subsequence of a prefix stays a subsequence once an element is appended. */
  lemma {:induction false} SubsequenceOfPrefix<T>(sub: seq<T>, xs: seq<T>, x: T)
    requires IsSubsequence(sub, xs)
    ensures IsSubsequence(sub, xs + [x])
    decreases |xs|, 1
  {
    var ys := xs + [x];
    assert ys[..|ys| - 1] == xs;
    if sub != [] && sub[|sub| - 1] == x {
      SubsequenceDropLast(sub, xs);
    }
  }

  /** Dropping the last element of a subsequence keeps it a subsequence. */
  lemma {:induction false} SubsequenceDropLast<T>(sub: seq<T>, xs: seq<T>)
    requires sub != [] && IsSubsequence(sub, xs)
    ensures IsSubsequence(sub[..|sub| - 1], xs)
    decreases |xs|, 0
  {
    var init := sub[..|sub| - 1];
    if sub[|sub| - 1] == xs[|xs| - 1] {
      SubsequenceOfPrefix(init, xs[..|xs| - 1], xs[|xs| - 1]);
      assert xs[..|xs| - 1] + [xs[|xs| - 1]] == xs;
    } else {
      SubsequenceDropLast(sub, xs[..|xs| - 1]);
      SubsequenceOfPrefix(init, xs[..|xs| - 1], xs[|xs| - 1]);
      assert xs[..|xs| - 1] + [xs[|xs| - 1]] == xs;
    }
  }

  /** Every prefix of a subsequence is a subsequence. */
  lemma {:induction false} PrefixOfSubsequence<T>(sub: seq<T>, xs: seq<T>, n: nat)
    requires n <= |sub| && IsSubsequence(sub, xs)
    ensures IsSubsequence(sub[..n], xs)
    decreases |sub| - n
  {
    if n < |sub| {
      SubsequenceDropLast(sub, xs);
      PrefixOfSubsequence(sub[..|sub| - 1], xs, n);
      assert sub[..|sub| - 1][..n] == sub[..n];
    } else {
      assert sub[..n] == sub;
    }
  }

  /** `len([x for x in xs if keep(x)])`. */
  function Count<T>(xs: seq<T>, keep: T -> bool): (n: nat)
    ensures n <= |xs|
  {
    if xs == [] then 0
    else Count(xs[..|xs| - 1], keep) + (if keep(xs[|xs| - 1]) then 1 else 0)
  }

  /** The elements that satisfy a condition and those that do not add up to all of them. */
  lemma {:induction false} CountSplits<T>(xs: seq<T>, keep: T -> bool)
    ensures Count(xs, keep) + Count(xs, x => !keep(x)) == |xs|
    decreases |xs|
  {
    if xs != [] {
      CountSplits(xs[..|xs| - 1], keep);
    }
  }

  predicate NoDuplicates<T(==)>(xs: seq<T>) {
    forall i, j :: 0 <= i < j < |xs| ==> xs[i] != xs[j]
  }

  /** `xs.filter(x => x !== v)`. */
  function Remove<T(==)>(xs: seq<T>, v: T): (r: seq<T>)
    ensures |r| <= |xs|
    ensures forall k :: 0 <= k < |r| ==> r[k] != v && r[k] in xs
    ensures forall k :: 0 <= k < |xs| && xs[k] != v ==> xs[k] in r
  {
    if xs == [] then []
    else Remove(xs[..|xs| - 1], v) + (if xs[|xs| - 1] == v then [] else [xs[|xs| - 1]])
  }

  /** Removing a value that is not there changes nothing. */
  lemma {:induction false} RemoveAbsent<T>(xs: seq<T>, v: T)
    requires v !in xs
    ensures Remove(xs, v) == xs
    decreases |xs|
  {
    if xs != [] {
      assert xs[..|xs| - 1] + [xs[|xs| - 1]] == xs;
      RemoveAbsent(xs[..|xs| - 1], v);
    }
  }

  /** Appending a value and removing it again gives the list back. */
  lemma RemoveAppended<T>(xs: seq<T>, v: T)
    requires v !in xs
    ensures Remove(xs + [v], v) == xs
  {
    assert (xs + [v])[..|xs|] == xs;
    RemoveAbsent(xs, v);
  }

  /** Removing keeps a duplicate-free list duplicate-free. */
  lemma {:induction false} RemoveNoDuplicates<T>(xs: seq<T>, v: T)
    requires NoDuplicates(xs)
    ensures NoDuplicates(Remove(xs, v))
    decreases |xs|
  {
    if xs != [] {
      var init := xs[..|xs| - 1];
      var last := xs[|xs| - 1];
      assert NoDuplicates(init);
      RemoveNoDuplicates(init, v);
      assert last !in init;
    }
  }

  /** Filtering with a condition every element meets keeps the whole list. */
  lemma {:induction false} FilterKeepsAll<T>(xs: seq<T>, keep: T -> bool)
    requires forall k :: 0 <= k < |xs| ==> keep(xs[k])
    ensures Filter(xs, keep) == xs
    decreases |xs|
  {
    if xs != [] {
      FilterKeepsAll(xs[..|xs| - 1], keep);
      assert xs[..|xs| - 1] + [xs[|xs| - 1]] == xs;
    }
  }
}

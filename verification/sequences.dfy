/** Generic facts about sequences used by the stack-merge and unpacking models. */
module Sequences {

  /** The elements of `s` in the opposite order. */
  function Reverse<T>(s: seq<T>): (r: seq<T>)
    ensures |r| == |s|
    ensures forall i :: 0 <= i < |s| ==> r[i] == s[|s| - 1 - i]
  {
    if |s| == 0 then [] else Reverse(s[1..]) + [s[0]]
  }

  /** The elements of `xs` taken in turn and each appended (`keep`) or prepended
      (otherwise) to the result so far. */
  function Stacked<T>(xs: seq<T>, keep: bool): (r: seq<T>)
    ensures |r| == |xs|
  {
    if |xs| == 0 then []
    else
      var rest := Stacked(xs[..|xs| - 1], keep);
      if keep then rest + [xs[|xs| - 1]] else [xs[|xs| - 1]] + rest
  }

  lemma StackedSnoc<T>(xs: seq<T>, x: T, keep: bool)
    ensures Stacked(xs + [x], keep) == if keep then Stacked(xs, keep) + [x] else [x] + Stacked(xs, keep)
  {
    assert (xs + [x])[..|xs|] == xs;
  }

  /** Appending keeps the order; prepending reverses it. */
  lemma {:induction false} StackedOrder<T>(xs: seq<T>, keep: bool)
    ensures Stacked(xs, keep) == if keep then xs else Reverse(xs)
  {
    if |xs| > 0 {
      StackedOrder(xs[..|xs| - 1], keep);
      if keep {
        assert xs[..|xs| - 1] + [xs[|xs| - 1]] == xs;
      }
    }
  }

  lemma AppendAssociative<T>(a: seq<T>, b: seq<T>, c: seq<T>)
    ensures a + (b + c) == (a + b) + c
  {
  }

  /** `a` can be obtained from `b` by deleting elements: every element of `a`
      occurs in `b`, in the same relative order. */
  predicate IsSubsequence<T(==)>(a: seq<T>, b: seq<T>)
  {
    if |a| == 0 then true
    else if |b| == 0 then false
    else (a[0] == b[0] && IsSubsequence(a[1..], b[1..])) || IsSubsequence(a, b[1..])
  }

  lemma {:induction false} SubsequenceReflexive<T>(s: seq<T>)
    ensures IsSubsequence(s, s)
  {
    if |s| > 0 {
      SubsequenceReflexive(s[1..]);
    }
  }

  /** Inserting one element anywhere keeps the old sequence as a subsequence. */
  lemma {:induction false} SubsequenceOfInsertion<T>(p: seq<T>, x: T, q: seq<T>)
    ensures IsSubsequence(p + q, p + [x] + q)
  {
    if |p| == 0 {
      assert p + q == q;
      assert p + [x] + q == [x] + q;
      SubsequenceReflexive(q);
      if |q| > 0 {
        assert ([x] + q)[1..] == q;
      }
    } else {
      SubsequenceOfInsertion(p[1..], x, q);
      assert (p + q)[1..] == p[1..] + q;
      assert (p + [x] + q)[1..] == p[1..] + [x] + q;
    }
  }

  lemma {:induction false} SubsequenceTransitive<T>(a: seq<T>, b: seq<T>, c: seq<T>)
    requires IsSubsequence(a, b) && IsSubsequence(b, c)
    ensures IsSubsequence(a, c)
    decreases |c|
  {
    if |a| == 0 {
    } else if IsSubsequence(b, c[1..]) {
      SubsequenceTransitive(a, b, c[1..]);
    } else if a[0] == b[0] && IsSubsequence(a[1..], b[1..]) {
      SubsequenceTransitive(a[1..], b[1..], c[1..]);
    } else {
      SubsequenceTransitive(a, b[1..], c[1..]);
    }
  }
}

/** Order preservation: one sequence is a subsequence of another. */
module Sequences {

  /** `a` can be obtained from `b` by deleting elements, keeping order. */
  predicate IsSubsequence<T(==)>(a: seq<T>, b: seq<T>)
    decreases |b|
  {
    if a == [] then true
    else if b == [] then false
    else if a[|a| - 1] == b[|b| - 1] then IsSubsequence(a[..|a| - 1], b[..|b| - 1])
    else IsSubsequence(a, b[..|b| - 1])
  }

  /** Appending to the longer sequence keeps a subsequence. */
  lemma {:induction false} SubsequenceExtend<T>(a: seq<T>, b: seq<T>, x: T)
    requires IsSubsequence(a, b)
    ensures IsSubsequence(a, b + [x])
    decreases |b|, 1
  {
    assert (b + [x])[..|b|] == b;
    if a != [] && a[|a| - 1] == x {
      SubsequenceDropLast(a, b);
    }
  }

  /** Dropping the last element of the shorter sequence keeps a subsequence. */
  lemma {:induction false} SubsequenceDropLast<T>(a: seq<T>, b: seq<T>)
    requires a != [] && IsSubsequence(a, b)
    ensures IsSubsequence(a[..|a| - 1], b)
    decreases |b|, 0
  {
    var a', b' := a[..|a| - 1], b[..|b| - 1];
    assert b == b' + [b[|b| - 1]];
    if a[|a| - 1] == b[|b| - 1] {
      SubsequenceExtend(a', b', b[|b| - 1]);
    } else {
      SubsequenceDropLast(a, b');
      SubsequenceExtend(a', b', b[|b| - 1]);
    }
  }

  /** Appending the same element to both keeps a subsequence. */
  lemma SubsequenceAppendBoth<T>(a: seq<T>, b: seq<T>, x: T)
    requires IsSubsequence(a, b)
    ensures IsSubsequence(a + [x], b + [x])
  {
    assert (a + [x])[..|a|] == a;
    assert (b + [x])[..|b|] == b;
  }
}

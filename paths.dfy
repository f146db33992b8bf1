/** Python's `str.split('/')`, `'/'.join` and `os.path.join` (POSIX) on
    strings, as the reconciliation and migration code uses them. */
module Paths {

  const Sep: char := '/'

  /** `s.split('/')`: the segments between separators, never an empty list. */
  function Split(s: string): (segs: seq<string>)
    ensures |segs| >= 1
  {
    if s == [] then [""]
    else
      var rest := Split(s[1..]);
      if s[0] == Sep then [""] + rest else [[s[0]] + rest[0]] + rest[1..]
  }

  /** `'/'.join(segs)` for a non-empty list. */
  function Join(segs: seq<string>): string
    requires |segs| >= 1
  {
    if |segs| == 1 then segs[0] else segs[0] + [Sep] + Join(segs[1..])
  }

  /** `os.path.join(a, b)`: an absolute `b` replaces `a`; no separator is
      added after an empty `a` or one that already ends with `/`. */
  function PathJoin(a: string, b: string): string
  {
    if |b| > 0 && b[0] == Sep then b
    else if a == [] || a[|a| - 1] == Sep then a + b
    else a + [Sep] + b
  }

  /** The last element of `s.split('/')`, i.e. `s.split('/')[-1]`. */
  function LastSegment(s: string): string
  {
    var segs := Split(s);
    segs[|segs| - 1]
  }

  /** A path component that `os.path.join` glues with a single separator. */
  predicate Component(s: string)
  {
    s != [] && Sep !in s
  }

  lemma {:induction false} SplitNoSeparator(s: string)
    requires Sep !in s
    ensures Split(s) == [s]
  {
    if s != [] {
      assert Sep !in s[1..] && s[0] != Sep;
      SplitNoSeparator(s[1..]);
      assert [s[0]] + s[1..] == s;
    }
  }

  /** Splitting distributes over a separator placed between two strings. */
  lemma {:induction false} SplitAround(a: string, b: string)
    ensures Split(a + [Sep] + b) == Split(a) + Split(b)
  {
    if a == [] {
      assert a + [Sep] + b == [Sep] + b;
      assert ([Sep] + b)[1..] == b;
    } else {
      assert (a + [Sep] + b)[1..] == a[1..] + [Sep] + b;
      SplitAround(a[1..], b);
    }
  }

  /** Every segment returned by `split('/')` is free of separators. */
  lemma {:induction false} SplitSegmentsHaveNoSeparator(s: string)
    ensures forall i :: 0 <= i < |Split(s)| ==> Sep !in Split(s)[i]
  {
    if s != [] {
      SplitSegmentsHaveNoSeparator(s[1..]);
    }
  }

  /** `split('/')` yields at least two segments exactly when the string
      contains a separator, so `split('/')[1]` and `split('/')[-2]` raise
      `IndexError` exactly on strings without one. */
  lemma {:induction false} SplitHasTwoSegments(s: string)
    ensures |Split(s)| >= 2 <==> Sep in s
  {
    if s != [] {
      SplitHasTwoSegments(s[1..]);
      if s[0] != Sep {
        assert Sep in s <==> Sep in s[1..];
      }
    }
  }

  /** Joining the segments back gives the original string. */
  lemma {:induction false} JoinSplit(s: string)
    ensures Join(Split(s)) == s
  {
    if s != [] {
      var rest := Split(s[1..]);
      JoinSplit(s[1..]);
      if s[0] == Sep {
        assert Split(s)[1..] == rest;
      } else {
        var segs := Split(s);
        if |rest| == 1 {
          assert segs == [[s[0]] + rest[0]];
        } else {
          assert segs[1..] == rest[1..];
          assert Join(rest) == rest[0] + [Sep] + Join(rest[1..]);
        }
      }
    }
  }

  /** Splitting a join of separator-free segments gives the segments back. */
  lemma {:induction false} SplitJoin(segs: seq<string>)
    requires |segs| >= 1
    requires forall i :: 0 <= i < |segs| ==> Sep !in segs[i]
    ensures Split(Join(segs)) == segs
  {
    if |segs| == 1 {
      SplitNoSeparator(segs[0]);
    } else {
      SplitJoin(segs[1..]);
      SplitNoSeparator(segs[0]);
      SplitAround(segs[0], Join(segs[1..]));
    }
  }

  /** `os.path.join` of two plain components is their concatenation around
      one separator. */
  lemma PathJoinComponents(a: string, b: string)
    requires a != [] && a[|a| - 1] != Sep
    requires b == [] || b[0] != Sep
    ensures PathJoin(a, b) == a + [Sep] + b
  {
  }
}

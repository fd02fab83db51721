/**
 * Order-preserving filtering of sequences: the meaning of a Python list
 * comprehension `[x for x in s if keep(x)]`, with the facts the note
 * operations need about it.
 */
module Seqs {

  /** The elements of `s` that satisfy `keep`, in their original order. */
  function Filter<T>(s: seq<T>, keep: T -> bool): (r: seq<T>)
    ensures |r| <= |s|
    ensures forall i :: 0 <= i < |r| ==> keep(r[i])
  {
    if s == [] then []
    else if keep(s[0]) then [s[0]] + Filter(s[1..], keep)
    else Filter(s[1..], keep)
  }

  /** `r` can be obtained from `s` by deleting elements (greedy matching from the front). */
  predicate IsSubsequence<T(==)>(r: seq<T>, s: seq<T>)
    decreases |s|
  {
    if r == [] then true
    else if s == [] then false
    else if r[0] == s[0] then IsSubsequence(r[1..], s[1..])
    else IsSubsequence(r, s[1..])
  }

  /** Filtering keeps the relative order of what it keeps. */
  lemma {:induction false} FilterIsSubsequence<T>(s: seq<T>, keep: T -> bool)
    ensures IsSubsequence(Filter(s, keep), s)
  {
    if s != [] {
      FilterIsSubsequence(s[1..], keep);
      var tail := Filter(s[1..], keep);
      if keep(s[0]) {
        assert Filter(s, keep) == [s[0]] + tail;
        assert ([s[0]] + tail)[1..] == tail;
      } else {
        SkipHeadKeepsSubsequence(tail, s);
      }
    }
  }

  /** A subsequence of the tail of `s` is a subsequence of `s`. */
  lemma {:induction false} SkipHeadKeepsSubsequence<T>(r: seq<T>, s: seq<T>)
    requires s != [] && IsSubsequence(r, s[1..])
    ensures IsSubsequence(r, s)
    decreases |s|, |r|
  {
    if r != [] && r[0] == s[0] {
      // the greedy match takes s[0], so the rest of r must fit into s[1..]
      SubsequenceDropHead(r, s[1..]);
    }
  }

  /** Dropping the first element of a subsequence keeps it a subsequence. */
  lemma {:induction false} SubsequenceDropHead<T>(r: seq<T>, s: seq<T>)
    requires r != [] && IsSubsequence(r, s)
    ensures IsSubsequence(r[1..], s)
    decreases |s|, |r|
  {
    assert s != [];
    if r[0] != s[0] {
      SubsequenceDropHead(r, s[1..]);
    }
    if r[1..] != [] {
      SkipHeadKeepsSubsequence(r[1..], s);
    }
  }

  /** Filtering keeps every occurrence of a kept value and no occurrence of a dropped one. */
  lemma {:induction false} FilterCounts<T>(s: seq<T>, keep: T -> bool, x: T)
    ensures multiset(Filter(s, keep))[x] == if keep(x) then multiset(s)[x] else 0
  {
    if s != [] {
      FilterCounts(s[1..], keep, x);
      assert s == [s[0]] + s[1..];
    }
  }

  /** Filtering drops something exactly when some element fails the test. */
  lemma {:induction false} FilterShorterIff<T>(s: seq<T>, keep: T -> bool)
    ensures |Filter(s, keep)| < |s| <==> exists i :: 0 <= i < |s| && !keep(s[i])
  {
    if s != [] {
      FilterShorterIff(s[1..], keep);
      if exists i :: 0 <= i < |s| - 1 && !keep(s[1..][i]) {
        var i :| 0 <= i < |s| - 1 && !keep(s[1..][i]);
        assert !keep(s[i + 1]);
      }
      if exists i :: 0 <= i < |s| && !keep(s[i]) {
        var i :| 0 <= i < |s| && !keep(s[i]);
        if i > 0 {
          assert !keep(s[1..][i - 1]);
        }
      }
    }
  }

  /** When every element passes the test, filtering changes nothing. */
  lemma {:induction false} FilterKeepsAll<T>(s: seq<T>, keep: T -> bool)
    requires forall i :: 0 <= i < |s| ==> keep(s[i])
    ensures Filter(s, keep) == s
  {
    if s != [] {
      FilterKeepsAll(s[1..], keep);
    }
  }
}

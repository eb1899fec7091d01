/**
 Ascending sort of a list of widths, as Python's `sorted` produces it. The
 result is characterised independently of the algorithm: it is the one
 non-decreasing rearrangement of its input.
 */
module Sorting {

  predicate NonDecreasing(s: seq<real>)
  {
    forall i, j :: 0 <= i < j < |s| ==> s[i] <= s[j]
  }

  /** Places `x` in front of the first element it does not exceed. */
  function Insert(x: real, s: seq<real>): (r: seq<real>)
    ensures multiset(r) == multiset(s) + multiset{x}
    ensures r[0] == if s == [] || x <= s[0] then x else s[0]
    ensures NonDecreasing(s) ==> NonDecreasing(r)
  {
    if s == [] || x <= s[0] then [x] + s
    else
      assert s == [s[0]] + s[1..];
      [s[0]] + Insert(x, s[1..])
  }

  /** Insertion sort. */
  function Sort(s: seq<real>): (r: seq<real>)
    ensures NonDecreasing(r)
    ensures multiset(r) == multiset(s)
  {
    if s == [] then []
    else
      assert s == [s[0]] + s[1..];
      Insert(s[0], Sort(s[1..]))
  }

  /** The head of a non-decreasing sequence is its least element. */
  lemma HeadIsLeast(a: seq<real>, v: real)
    requires NonDecreasing(a)
    requires v in multiset(a)
    ensures a[0] <= v
  {
    assert v in a;
    var i :| 0 <= i < |a| && a[i] == v;
    assert a[0] <= a[i];
  }

  /** Equal multisets with equal heads have equal tails. */
  lemma SameTails(a: seq<real>, b: seq<real>)
    requires a != [] && b != [] && a[0] == b[0]
    requires multiset(a) == multiset(b)
    ensures multiset(a[1..]) == multiset(b[1..])
  {
    assert a == [a[0]] + a[1..];
    assert b == [b[0]] + b[1..];
    calc {
      multiset(a[1..]);
      multiset(a) - multiset{a[0]};
      multiset(b) - multiset{b[0]};
      multiset(b[1..]);
    }
  }

  lemma SameHeadAndTail(a: seq<real>, b: seq<real>)
    requires a != [] && b != [] && a[0] == b[0] && a[1..] == b[1..]
    ensures a == b
  {
    assert a == [a[0]] + a[1..];
    assert b == [b[0]] + b[1..];
  }

  /** Dropping the head keeps a sequence non-decreasing. */
  lemma TailNonDecreasing(a: seq<real>)
    requires NonDecreasing(a) && a != []
    ensures NonDecreasing(a[1..])
  {
  }

  /** Two non-decreasing sequences with the same elements are equal. */
  lemma {:induction false} SortedPermutationUnique(a: seq<real>, b: seq<real>)
    requires NonDecreasing(a) && NonDecreasing(b)
    requires multiset(a) == multiset(b)
    ensures a == b
  {
    if a == [] {
      assert |b| == |multiset(b)| == 0;
    } else {
      assert b != [] && a[0] == b[0] by {
        assert a[0] in multiset(b);
        HeadIsLeast(b, a[0]);
        HeadIsLeast(a, b[0]);
      }
      SameTails(a, b);
      TailNonDecreasing(a);
      TailNonDecreasing(b);
      SortedPermutationUnique(a[1..], b[1..]);
      SameHeadAndTail(a, b);
    }
  }

  /** `Sort(s)` is exactly the non-decreasing rearrangement of `s`. */
  lemma SortCharacterised(s: seq<real>, t: seq<real>)
    ensures t == Sort(s) <==> NonDecreasing(t) && multiset(t) == multiset(s)
  {
    if NonDecreasing(t) && multiset(t) == multiset(s) {
      SortedPermutationUnique(t, Sort(s));
    }
  }

  /** A list that is already in ascending order is left as it is. */
  lemma SortKeepsSorted(s: seq<real>)
    requires NonDecreasing(s)
    ensures Sort(s) == s
  {
    SortedPermutationUnique(Sort(s), s);
  }

  /** Sorting twice is sorting once. */
  lemma SortIdempotent(s: seq<real>)
    ensures Sort(Sort(s)) == Sort(s)
  {
    SortKeepsSorted(Sort(s));
  }
}

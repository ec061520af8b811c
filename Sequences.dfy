/** Order-preserving containment of one sequence of lines in another, used
    to say that the log file receives every line the panel shows from the
    child process, in the panel's order. */
module Sequences {

  /** `a` is `b` with some elements left out. */
  predicate IsSubsequence<T(==)>(a: seq<T>, b: seq<T>)
    decreases |b|
  {
    if a == [] then true
    else if b == [] then false
    else if a[0] == b[0] then IsSubsequence(a[1..], b[1..])
    else IsSubsequence(a, b[1..])
  }

  lemma {:induction false} SubsequenceOfSelf<T>(a: seq<T>)
    ensures IsSubsequence(a, a)
    decreases |a|
  {
    if a != [] {
      SubsequenceOfSelf(a[1..]);
    }
  }

  /** A subsequence of `b` is one of `x` followed by `b`. */
  lemma {:induction false} SubsequenceExtend<T>(a: seq<T>, b: seq<T>, x: T)
    requires IsSubsequence(a, b)
    ensures IsSubsequence(a, [x] + b)
    decreases |b|, 1
  {
    assert ([x] + b)[1..] == b;
    if a != [] && a[0] == x {
      SubsequenceDrop(a, b);
    }
  }

  /** Dropping the first element of a subsequence leaves a subsequence. */
  lemma {:induction false} SubsequenceDrop<T>(a: seq<T>, b: seq<T>)
    requires a != [] && IsSubsequence(a, b)
    ensures IsSubsequence(a[1..], b)
    decreases |b|, 0
  {
    assert [b[0]] + b[1..] == b;
    if a[0] == b[0] {
      SubsequenceExtend(a[1..], b[1..], b[0]);
    } else {
      SubsequenceDrop(a, b[1..]);
      SubsequenceExtend(a[1..], b[1..], b[0]);
    }
  }

  /** Anything put in front of `b` can be skipped. */
  lemma {:induction false} SubsequenceSkip<T>(a: seq<T>, q: seq<T>, b: seq<T>)
    requires IsSubsequence(a, b)
    ensures IsSubsequence(a, q + b)
    decreases |q|
  {
    if q == [] {
      assert q + b == b;
    } else {
      SubsequenceSkip(a, q[1..], b);
      SubsequenceExtend(a, q[1..] + b, q[0]);
      assert [q[0]] + (q[1..] + b) == q + b;
    }
  }

  /** Subsequences of two parts give a subsequence of the whole. */
  lemma {:induction false} SubsequenceConcat<T>(a1: seq<T>, b1: seq<T>, a2: seq<T>, b2: seq<T>)
    requires IsSubsequence(a1, b1) && IsSubsequence(a2, b2)
    ensures IsSubsequence(a1 + a2, b1 + b2)
    decreases |b1|
  {
    if a1 == [] {
      SubsequenceSkip(a2, b1, b2);
      assert a1 + a2 == a2;
    } else {
      assert (a1 + a2)[0] == a1[0] && (b1 + b2)[0] == b1[0];
      assert (b1 + b2)[1..] == b1[1..] + b2;
      if a1[0] == b1[0] {
        SubsequenceConcat(a1[1..], b1[1..], a2, b2);
        assert (a1 + a2)[1..] == a1[1..] + a2;
      } else {
        SubsequenceConcat(a1, b1[1..], a2, b2);
      }
    }
  }

  /** So in particular `a` is a subsequence of `a` followed by anything. */
  lemma SubsequencePrefix<T>(a: seq<T>, rest: seq<T>)
    ensures IsSubsequence(a, a + rest)
  {
    SubsequenceOfSelf(a);
    SubsequenceConcat(a, a, [], rest);
    assert a + [] == a;
  }
}

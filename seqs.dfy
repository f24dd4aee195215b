/** Facts about sequences shared by the planner's modules. */
module Seqs {

  /** `a` can be obtained from `b` by deleting elements, so it lists a
      selection of `b`'s elements in `b`'s order. */
  predicate IsSubsequence<T(==)>(a: seq<T>, b: seq<T>)
    decreases |b|
  {
    if a == [] then true
    else if b == [] then false
    else
      || (a[|a| - 1] == b[|b| - 1] && IsSubsequence(a[..|a| - 1], b[..|b| - 1]))
      || IsSubsequence(a, b[..|b| - 1])
  }

  lemma SubsequenceExtend<T>(a: seq<T>, b: seq<T>, x: T)
    requires IsSubsequence(a, b)
    ensures IsSubsequence(a + [x], b + [x])
    ensures IsSubsequence(a, b + [x])
  {
    assert (a + [x])[..|a|] == a;
    assert (b + [x])[..|b|] == b;
  }

  /** A subsequence only holds elements of the sequence it is taken from. */
  lemma {:induction false} SubsequenceMembers<T>(a: seq<T>, b: seq<T>)
    requires IsSubsequence(a, b)
    ensures forall x | x in a :: x in b
    decreases |b|
  {
    if a != [] && b != [] {
      if a[|a| - 1] == b[|b| - 1] && IsSubsequence(a[..|a| - 1], b[..|b| - 1]) {
        SubsequenceMembers(a[..|a| - 1], b[..|b| - 1]);
        assert a == a[..|a| - 1] + [a[|a| - 1]];
        assert b == b[..|b| - 1] + [b[|b| - 1]];
      } else {
        SubsequenceMembers(a, b[..|b| - 1]);
        assert b == b[..|b| - 1] + [b[|b| - 1]];
      }
    }
  }

  /** Sum of the lengths of a sequence of sequences. */
  function TotalLength<T>(ss: seq<seq<T>>): nat
  {
    if ss == [] then 0 else TotalLength(ss[..|ss| - 1]) + |ss[|ss| - 1]|
  }

  /** All the elements of a sequence of sequences, in order. */
  function Flatten<T>(ss: seq<seq<T>>): (f: seq<T>)
    ensures |f| == TotalLength(ss)
  {
    if ss == [] then [] else Flatten(ss[..|ss| - 1]) + ss[|ss| - 1]
  }

  lemma FlattenAppend<T>(ss: seq<seq<T>>, s: seq<T>)
    ensures Flatten(ss + [s]) == Flatten(ss) + s
  {
    assert (ss + [s])[..|ss|] == ss;
  }

  lemma TotalLengthAppend<T>(ss: seq<seq<T>>, s: seq<T>)
    ensures TotalLength(ss + [s]) == TotalLength(ss) + |s|
  {
    assert (ss + [s])[..|ss|] == ss;
  }

  /** A sequence of sequences has total length 0 exactly when every member is empty. */
  lemma {:induction false} TotalLengthZero<T>(ss: seq<seq<T>>)
    ensures TotalLength(ss) == 0 <==> forall k | 0 <= k < |ss| :: ss[k] == []
    decreases |ss|
  {
    if ss != [] {
      TotalLengthZero(ss[..|ss| - 1]);
      assert forall k | 0 <= k < |ss| - 1 :: ss[..|ss| - 1][k] == ss[k];
    }
  }

  /** No element occurs twice. */
  predicate NoDup<T(==)>(s: seq<T>)
  {
    s == [] || (NoDup(s[..|s| - 1]) && s[|s| - 1] !in s[..|s| - 1])
  }

  lemma {:induction false} DistinctNoDup<T>(s: seq<T>)
    requires forall j, j' | 0 <= j < j' < |s| :: s[j] != s[j']
    ensures NoDup(s)
    decreases |s|
  {
    if s != [] {
      var init := s[..|s| - 1];
      DistinctNoDup(init);
      forall j | 0 <= j < |init|
        ensures init[j] != s[|s| - 1]
      {
        assert init[j] == s[j];
      }
    }
  }

  /** Every element of a flattened sequence comes from one of its parts. */
  lemma {:induction false} FlattenMember<T>(ss: seq<seq<T>>, x: T)
    requires x in Flatten(ss)
    ensures exists j | 0 <= j < |ss| :: x in ss[j]
    decreases |ss|
  {
    var n := |ss| - 1;
    if x in ss[n] {
    } else {
      FlattenMember(ss[..n], x);
      var j :| 0 <= j < n && x in ss[..n][j];
      assert ss[..n][j] == ss[j];
    }
  }
}

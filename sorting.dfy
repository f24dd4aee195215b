/** Ordering the parts of an emitted range with the part comparator. The
    comparator itself is not part of this model: it is any strict weak order,
    as sorting with it requires. */
module PartOrder {
  import opened MergeParts
  import opened Orders

  /** No element is less than an element before it. */
  ghost predicate Sorted(s: seq<PartId>, less: (PartId, PartId) -> bool)
  {
    forall i, j | 0 <= i < j < |s| :: !less(s[j], s[i])
  }

  /** Inserts `x` before the first element that is not less than it. */
  function Insert(x: PartId, s: seq<PartId>, less: (PartId, PartId) -> bool): (r: seq<PartId>)
    ensures multiset(r) == multiset(s) + multiset{x}
  {
    if s == [] || !less(s[0], x) then [x] + s
    else
      assert s == [s[0]] + s[1..];
      [s[0]] + Insert(x, s[1..], less)
  }

  /** Insertion sort; stands for the library sort the source calls. */
  function SortParts(s: seq<PartId>, less: (PartId, PartId) -> bool): (r: seq<PartId>)
    ensures multiset(r) == multiset(s)
  {
    if s == [] then []
    else
      assert s == [s[0]] + s[1..];
      Insert(s[0], SortParts(s[1..], less), less)
  }

  lemma {:induction false} InsertSorted(x: PartId, s: seq<PartId>, less: (PartId, PartId) -> bool)
    requires StrictWeakOrder(less) && Sorted(s, less)
    ensures Sorted(Insert(x, s, less), less)
    decreases |s|
  {
    if s == [] {
    } else if !less(s[0], x) {
      var r := [x] + s;
      forall i, j | 0 <= i < j < |r|
        ensures !less(r[j], r[i])
      {
        if i == 0 {
          if j > 1 {
            assert !less(s[j - 1], s[0]);
          }
        } else {
          assert r[i] == s[i - 1] && r[j] == s[j - 1];
        }
      }
    } else {
      var t := s[1..];
      assert Sorted(t, less) by {
        forall i, j | 0 <= i < j < |t|
          ensures !less(t[j], t[i])
        {
          assert t[i] == s[i + 1] && t[j] == s[j + 1];
        }
      }
      InsertSorted(x, t, less);
      var u := Insert(x, t, less);
      var r := [s[0]] + u;
      forall i, j | 0 <= i < j < |r|
        ensures !less(r[j], r[i])
      {
        if i == 0 {
          var e := u[j - 1];
          assert e in multiset(u);
          if e != x {
            assert e in multiset(t);
            var k :| 0 <= k < |t| && t[k] == e;
            assert s[k + 1] == e;
          }
        } else {
          assert r[i] == u[i - 1] && r[j] == u[j - 1];
        }
      }
    }
  }

  /** SortParts orders its input: it is a sorted permutation of it. */
  lemma {:induction false} SortPartsSorted(s: seq<PartId>, less: (PartId, PartId) -> bool)
    requires StrictWeakOrder(less)
    ensures Sorted(SortParts(s, less), less)
    ensures multiset(SortParts(s, less)) == multiset(s)
    decreases |s|
  {
    if s != [] {
      SortPartsSorted(s[1..], less);
      InsertSorted(s[0], SortParts(s[1..], less), less);
    }
  }
}

/** Orders shared by the models: strict weak orders (what the standard
    library's sorted algorithms demand of a comparator), the lexicographic
    comparison of `std::lexicographical_compare`, and `std::string`'s `<`. */
module Orders {

  /** `less` is a strict weak order: asymmetric, and "not less" is transitive. */
  ghost predicate StrictWeakOrder<T(!new)>(less: (T, T) -> bool)
  {
    && (forall a: T, b: T :: less(a, b) ==> !less(b, a))
    && (forall a: T, b: T, c: T :: !less(a, b) && !less(b, c) ==> !less(a, c))
  }

  /** Neither element is less than the other. */
  predicate Equivalent<T>(less: (T, T) -> bool, a: T, b: T)
  {
    !less(a, b) && !less(b, a)
  }

  lemma StrictWeakFacts<T(!new)>(less: (T, T) -> bool, a: T, b: T, c: T)
    requires StrictWeakOrder(less)
    ensures !less(a, a)
    ensures less(a, b) && less(b, c) ==> less(a, c)
    ensures less(a, b) && Equivalent(less, b, c) ==> less(a, c)
    ensures Equivalent(less, a, b) && less(b, c) ==> less(a, c)
    ensures Equivalent(less, a, b) && Equivalent(less, b, c) ==> Equivalent(less, a, c)
  {
    assert !less(a, c) && !less(c, b) ==> !less(a, b);
    assert !less(b, a) && !less(a, c) ==> !less(b, c);
    assert !less(c, b) && !less(b, a) ==> !less(c, a);
  }

  /** `std::lexicographical_compare(a, b, less)`: the first position where the
      elements are not equivalent decides; a proper prefix is less. */
  function LexLess<T>(a: seq<T>, b: seq<T>, less: (T, T) -> bool): bool
    decreases |b|
  {
    if b == [] then false
    else if a == [] then true
    else if less(a[0], b[0]) then true
    else if less(b[0], a[0]) then false
    else LexLess(a[1..], b[1..], less)
  }

  lemma {:induction false} LexLessAsymmetric<T(!new)>(a: seq<T>, b: seq<T>, less: (T, T) -> bool)
    requires StrictWeakOrder(less)
    ensures LexLess(a, b, less) ==> !LexLess(b, a, less)
    decreases |b|
  {
    if a != [] && b != [] && Equivalent(less, a[0], b[0]) {
      LexLessAsymmetric(a[1..], b[1..], less);
    }
  }

  lemma {:induction false} LexLessNegTransitive<T(!new)>(a: seq<T>, b: seq<T>, c: seq<T>, less: (T, T) -> bool)
    requires StrictWeakOrder(less)
    requires !LexLess(a, b, less) && !LexLess(b, c, less)
    ensures !LexLess(a, c, less)
    decreases |c|
  {
    if a != [] && c != [] {
      assert b != [];
      StrictWeakFacts(less, a[0], b[0], c[0]);
      StrictWeakFacts(less, b[0], a[0], c[0]);
      StrictWeakFacts(less, b[0], c[0], a[0]);
      if Equivalent(less, a[0], c[0]) {
        assert Equivalent(less, a[0], b[0]) && Equivalent(less, b[0], c[0]);
        LexLessNegTransitive(a[1..], b[1..], c[1..], less);
      }
    }
  }

  /** The lexicographic extension of a strict weak order is one. */
  lemma LexLessStrictWeak<T(!new)>(less: (T, T) -> bool)
    requires StrictWeakOrder(less)
    ensures StrictWeakOrder((a: seq<T>, b: seq<T>) => LexLess(a, b, less))
  {
    forall a: seq<T>, b: seq<T>
      ensures LexLess(a, b, less) ==> !LexLess(b, a, less)
    {
      LexLessAsymmetric(a, b, less);
    }
    forall a: seq<T>, b: seq<T>, c: seq<T> | !LexLess(a, b, less) && !LexLess(b, c, less)
      ensures !LexLess(a, c, less)
    {
      LexLessNegTransitive(a, b, c, less);
    }
  }

  /** Sequences are equivalent under the lexicographic order exactly when they
      have the same length and are equivalent position by position. */
  lemma {:induction false} LexEquivalent<T(!new)>(a: seq<T>, b: seq<T>, less: (T, T) -> bool)
    requires StrictWeakOrder(less)
    ensures Equivalent((x: seq<T>, y: seq<T>) => LexLess(x, y, less), a, b)
        <==> |a| == |b| && forall i | 0 <= i < |a| :: Equivalent(less, a[i], b[i])
    decreases |a|
  {
    if a != [] && b != [] {
      LexEquivalent(a[1..], b[1..], less);
      if Equivalent(less, a[0], b[0]) {
        assert forall i | 1 <= i < |a| && i < |b| :: a[i] == a[1..][i - 1] && b[i] == b[1..][i - 1];
      }
    }
  }

  function CharLess(c: char, d: char): bool
  {
    c < d
  }

  /** `std::string`'s `<`: lexicographic by character. */
  function StrLess(s: string, t: string): bool
  {
    LexLess(s, t, CharLess)
  }

  /** Distinct strings are ordered one way or the other. */
  lemma {:induction false} StrLessTotal(s: string, t: string)
    ensures s != t ==> StrLess(s, t) || StrLess(t, s)
    decreases |s|
  {
    if s != [] && t != [] && s[0] == t[0] {
      StrLessTotal(s[1..], t[1..]);
      if s != t {
        assert s == [s[0]] + s[1..] && t == [t[0]] + t[1..];
      }
    }
  }

  lemma StrLessStrictWeak()
    ensures StrictWeakOrder(CharLess)
    ensures StrictWeakOrder(StrLess)
  {
    forall s: string, t: string
      ensures StrLess(s, t) ==> !StrLess(t, s)
    {
      LexLessAsymmetric(s, t, CharLess);
    }
    forall s: string, t: string, u: string | !StrLess(s, t) && !StrLess(t, u)
      ensures !StrLess(s, u)
    {
      LexLessNegTransitive(s, t, u, CharLess);
    }
  }
}

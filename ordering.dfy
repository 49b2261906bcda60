/**
 Orders and the "deduplicate, then sort" operation that the price table and the
 min-price report rely on.

 `SortUnique(s, less)` is the value-level meaning of a data-frame `unique()`
 followed by a `sort(...)` on every column: when `less` is a strict total order,
 the result is strictly increasing (hence free of duplicates) and holds exactly
 the elements of `s`. A strictly increasing sequence is determined by its
 elements, which gives idempotence and independence from the input order.
 */
module Ordering {

  /** `less` is irreflexive, transitive and total on distinct values. */
  ghost predicate IsStrictTotalOrder<T(!new)>(less: (T, T) -> bool)
  {
    && (forall a :: !less(a, a))
    && (forall a, b, c :: less(a, b) && less(b, c) ==> less(a, c))
    && (forall a, b :: a == b || less(a, b) || less(b, a))
  }

  ghost predicate StrictlySorted<T>(s: seq<T>, less: (T, T) -> bool)
  {
    forall i, j :: 0 <= i < j < |s| ==> less(s[i], s[j])
  }

  ghost predicate SameElements<T(!new)>(a: seq<T>, b: seq<T>)
  {
    forall x :: x in a <==> x in b
  }

  // ---------------------------------------------------------------------------
  // Lexicographic order on strings (code-point order, as a data frame sorts a
  // string column)
  // ---------------------------------------------------------------------------

  predicate StrLess(a: string, b: string)
  {
    if a == [] then b != []
    else if b == [] then false
    else a[0] < b[0] || (a[0] == b[0] && StrLess(a[1..], b[1..]))
  }

  lemma {:induction false} StrLessIrreflexive(a: string)
    ensures !StrLess(a, a)
  {
    if a != [] {
      StrLessIrreflexive(a[1..]);
    }
  }

  lemma {:induction false} StrLessTransitive(a: string, b: string, c: string)
    requires StrLess(a, b) && StrLess(b, c)
    ensures StrLess(a, c)
  {
    if a != [] && b != [] && c != [] && a[0] == b[0] == c[0] {
      StrLessTransitive(a[1..], b[1..], c[1..]);
    }
  }

  lemma {:induction false} StrLessTotal(a: string, b: string)
    ensures a == b || StrLess(a, b) || StrLess(b, a)
  {
    if a != [] && b != [] && a[0] == b[0] {
      StrLessTotal(a[1..], b[1..]);
      if a[1..] == b[1..] {
        assert a == [a[0]] + a[1..] && b == [b[0]] + b[1..];
      }
    }
  }

  lemma StrLessAsymmetric(a: string, b: string)
    requires StrLess(a, b)
    ensures !StrLess(b, a)
  {
    if StrLess(b, a) {
      StrLessTransitive(a, b, a);
      StrLessIrreflexive(a);
    }
  }

  /** A common prefix does not change how two strings compare. */
  lemma {:induction false} StrLessExtend(p: string, a: string, b: string)
    requires StrLess(a, b)
    ensures StrLess(p + a, p + b)
  {
    if p != [] {
      var pa, pb := p + a, p + b;
      assert pa[0] == pb[0] == p[0];
      assert pa[1..] == p[1..] + a && pb[1..] == p[1..] + b;
      StrLessExtend(p[1..], a, b);
    } else {
      assert p + a == a && p + b == b;
    }
  }

  lemma StrLessIsStrictTotalOrder()
    ensures IsStrictTotalOrder(StrLess)
  {
    forall a: string ensures !StrLess(a, a) {
      StrLessIrreflexive(a);
    }
    forall a: string, b: string, c: string | StrLess(a, b) && StrLess(b, c)
      ensures StrLess(a, c)
    {
      StrLessTransitive(a, b, c);
    }
    forall a: string, b: string ensures a == b || StrLess(a, b) || StrLess(b, a) {
      StrLessTotal(a, b);
    }
  }

  // ---------------------------------------------------------------------------
  // Deduplicate and sort
  // ---------------------------------------------------------------------------

  /** Inserts `x` into the strictly sorted `s` unless it is already there. */
  function Insert<T(==)>(s: seq<T>, x: T, less: (T, T) -> bool): seq<T>
  {
    if s == [] then [x]
    else if x == s[0] then s
    else if less(x, s[0]) then [x] + s
    else [s[0]] + Insert(s[1..], x, less)
  }

  /** The elements of `s`, each once, in increasing `less` order. */
  function SortUnique<T(==)>(s: seq<T>, less: (T, T) -> bool): seq<T>
  {
    if s == [] then [] else Insert(SortUnique(s[..|s| - 1], less), s[|s| - 1], less)
  }

  lemma {:induction false} InsertCorrect<T(!new)>(s: seq<T>, x: T, less: (T, T) -> bool)
    requires IsStrictTotalOrder(less) && StrictlySorted(s, less)
    ensures StrictlySorted(Insert(s, x, less), less)
    ensures forall y :: y in Insert(s, x, less) <==> y in s || y == x
  {
    if s != [] && x != s[0] && !less(x, s[0]) {
      InsertCorrect(s[1..], x, less);
      var r := Insert(s[1..], x, less);
      assert Insert(s, x, less) == [s[0]] + r;
      forall j | 0 <= j < |r| ensures less(s[0], r[j]) {
        assert r[j] in r;
        if r[j] != x {
          var k :| 1 <= k < |s| && s[k] == r[j];
        }
      }
    }
  }

  /** Deduplicate-and-sort yields a strictly increasing sequence of the same elements. */
  lemma {:induction false} SortUniqueCorrect<T(!new)>(s: seq<T>, less: (T, T) -> bool)
    requires IsStrictTotalOrder(less)
    ensures StrictlySorted(SortUnique(s, less), less)
    ensures SameElements(SortUnique(s, less), s)
  {
    if s != [] {
      var init := s[..|s| - 1];
      SortUniqueCorrect(init, less);
      InsertCorrect(SortUnique(init, less), s[|s| - 1], less);
      assert s == init + [s[|s| - 1]];
    }
  }

  lemma NonEmptyElements<T(!new)>(a: seq<T>, b: seq<T>)
    requires SameElements(a, b)
    ensures a != [] ==> b != []
  {
    if a != [] {
      assert a[0] in b;
    }
  }

  /** Two strictly increasing sequences with the same elements are equal. */
  lemma {:induction false} StrictlySortedUnique<T(!new)>(a: seq<T>, b: seq<T>, less: (T, T) -> bool)
    requires IsStrictTotalOrder(less)
    requires StrictlySorted(a, less) && StrictlySorted(b, less) && SameElements(a, b)
    ensures a == b
  {
    NonEmptyElements(a, b);
    NonEmptyElements(b, a);
    if a != [] {
      assert b[0] in a && a[0] in b;
      var i0 :| 0 <= i0 < |a| && a[i0] == b[0];
      var j0 :| 0 <= j0 < |b| && b[j0] == a[0];
      assert i0 == 0 || j0 == 0;
      forall x ensures x in a[1..] <==> x in b[1..] {
        if x in a[1..] {
          var i :| 1 <= i < |a| && a[i] == x;
          assert less(a[0], a[i]) && x in a && x in b;
          var j :| 0 <= j < |b| && b[j] == x;
          assert j != 0;
          assert b[1..][j - 1] == x;
        }
        if x in b[1..] {
          var j :| 1 <= j < |b| && b[j] == x;
          assert less(b[0], b[j]) && x in b && x in a;
          var i :| 0 <= i < |a| && a[i] == x;
          assert i != 0;
          assert a[1..][i - 1] == x;
        }
      }
      StrictlySortedUnique(a[1..], b[1..], less);
      assert a == [a[0]] + a[1..] && b == [b[0]] + b[1..];
    }
  }

  /** Deduplicate-and-sort depends only on the elements, not on their order or multiplicity. */
  lemma SortUniqueOnlyElements<T(!new)>(a: seq<T>, b: seq<T>, less: (T, T) -> bool)
    requires IsStrictTotalOrder(less) && SameElements(a, b)
    ensures SortUnique(a, less) == SortUnique(b, less)
  {
    SortUniqueCorrect(a, less);
    SortUniqueCorrect(b, less);
    StrictlySortedUnique(SortUnique(a, less), SortUnique(b, less), less);
  }

  /** A strictly increasing sequence is left unchanged. */
  lemma SortUniqueOfSorted<T(!new)>(s: seq<T>, less: (T, T) -> bool)
    requires IsStrictTotalOrder(less) && StrictlySorted(s, less)
    ensures SortUnique(s, less) == s
  {
    SortUniqueCorrect(s, less);
    StrictlySortedUnique(SortUnique(s, less), s, less);
  }

  /** Deduplicate-and-sort is idempotent. */
  lemma SortUniqueIdempotent<T(!new)>(s: seq<T>, less: (T, T) -> bool)
    requires IsStrictTotalOrder(less)
    ensures SortUnique(SortUnique(s, less), less) == SortUnique(s, less)
  {
    SortUniqueCorrect(s, less);
    SortUniqueOfSorted(SortUnique(s, less), less);
  }
}

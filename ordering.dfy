/**
 * Orders used by the fact tables. The tables keep their row index (variable
 * names) and column index (statement lines) sorted, as pandas' sort_index does:
 * names in code-point order, lines in numeric order.
 */
module Ordering {

  /** Code-point lexicographic order on names, as Python compares str. */
  predicate StrLess(a: string, b: string)
  {
    if |a| == 0 then |b| > 0
    else if |b| == 0 then false
    else if a[0] != b[0] then a[0] < b[0]
    else StrLess(a[1..], b[1..])
  }

  predicate IntLess(a: int, b: int)
  {
    a < b
  }

  ghost predicate StrictTotal<T(!new)>(less: (T, T) -> bool)
  {
    && (forall x :: !less(x, x))
    && (forall x, y, z :: less(x, y) && less(y, z) ==> less(x, z))
    && (forall x, y :: x != y ==> less(x, y) || less(y, x))
  }

  /** Strictly ascending: hence also free of duplicates. */
  predicate Sorted<T>(xs: seq<T>, less: (T, T) -> bool)
  {
    forall i, j :: 0 <= i < j < |xs| ==> less(xs[i], xs[j])
  }

  /**
   * The index after appending `x` and re-sorting: `xs` itself when `x` is
   * already there, otherwise `x` placed before the first larger entry.
   */
  function Insert<T(==)>(xs: seq<T>, x: T, less: (T, T) -> bool): seq<T>
  {
    if xs == [] then [x]
    else if x == xs[0] then xs
    else if less(x, xs[0]) then [x] + xs
    else [xs[0]] + Insert(xs[1..], x, less)
  }

  lemma {:induction false} InsertSorted<T(!new)>(xs: seq<T>, x: T, less: (T, T) -> bool)
    requires StrictTotal(less) && Sorted(xs, less)
    ensures Sorted(Insert(xs, x, less), less)
    ensures forall y :: y in Insert(xs, x, less) <==> y == x || y in xs
  {
    if xs != [] && x != xs[0] && !less(x, xs[0]) {
      InsertSorted(xs[1..], x, less);
      var r := Insert(xs[1..], x, less);
      assert less(xs[0], x);
      forall y | y in r ensures less(xs[0], y) {
        if y != x {
          assert y in xs[1..];
          var k :| 1 <= k < |xs| && xs[k] == y;
        }
      }
    }
  }

  /** Re-inserting a present key changes nothing (the idempotence of set_*). */
  lemma {:induction false} InsertPresent<T(!new)>(xs: seq<T>, x: T, less: (T, T) -> bool)
    requires StrictTotal(less) && Sorted(xs, less) && x in xs
    ensures Insert(xs, x, less) == xs
  {
    if x != xs[0] {
      var k :| 0 <= k < |xs| && xs[k] == x;
      assert less(xs[0], x);
      assert x in xs[1..];
      InsertPresent(xs[1..], x, less);
    }
  }

  lemma {:induction false} InsertIdempotent<T(!new)>(xs: seq<T>, x: T, less: (T, T) -> bool)
    requires StrictTotal(less) && Sorted(xs, less)
    ensures Insert(Insert(xs, x, less), x, less) == Insert(xs, x, less)
  {
    InsertSorted(xs, x, less);
    InsertPresent(Insert(xs, x, less), x, less);
  }

  lemma {:induction false} StrLessIrreflexive(a: string)
    ensures !StrLess(a, a)
  {
    if |a| > 0 {
      StrLessIrreflexive(a[1..]);
    }
  }

  lemma {:induction false} StrLessTransitive(a: string, b: string, c: string)
    requires StrLess(a, b) && StrLess(b, c)
    ensures StrLess(a, c)
  {
    if |a| > 0 && |b| > 0 && |c| > 0 && a[0] == b[0] && b[0] == c[0] {
      StrLessTransitive(a[1..], b[1..], c[1..]);
    }
  }

  lemma {:induction false} StrLessTotal(a: string, b: string)
    requires a != b
    ensures StrLess(a, b) || StrLess(b, a)
  {
    if |a| > 0 && |b| > 0 && a[0] == b[0] {
      assert a == [a[0]] + a[1..] && b == [b[0]] + b[1..];
      StrLessTotal(a[1..], b[1..]);
    }
  }

  lemma StrLessStrictTotal()
    ensures StrictTotal(StrLess)
  {
    forall x: string ensures !StrLess(x, x) {
      StrLessIrreflexive(x);
    }
    forall x: string, y: string, z: string | StrLess(x, y) && StrLess(y, z) ensures StrLess(x, z) {
      StrLessTransitive(x, y, z);
    }
    forall x: string, y: string | x != y ensures StrLess(x, y) || StrLess(y, x) {
      StrLessTotal(x, y);
    }
  }

  lemma IntLessStrictTotal()
    ensures StrictTotal(IntLess)
  {
  }
}

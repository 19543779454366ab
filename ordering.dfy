/**
 * Strict total orders and the "sorted distinct values" operation behind
 * `sorted(column.dropna().unique())` and the sorted keys of a pandas `groupby`.
 */
module Ordering {

  /** `lt` is irreflexive, transitive and relates any two different values. */
  ghost predicate StrictTotalOrder<T(!new)>(lt: (T, T) -> bool) {
    && (forall x :: !lt(x, x))
    && (forall x, y, z :: lt(x, y) && lt(y, z) ==> lt(x, z))
    && (forall x, y :: x != y ==> lt(x, y) || lt(y, x))
  }

  /** Every earlier element is below every later one. */
  ghost predicate StrictlyAscending<T>(s: seq<T>, lt: (T, T) -> bool) {
    forall i, j :: 0 <= i < j < |s| ==> lt(s[i], s[j])
  }

  /** No value occurs twice. */
  ghost predicate Distinct<T>(s: seq<T>) {
    forall i, j :: 0 <= i < j < |s| ==> s[i] != s[j]
  }

  /** Puts `x` into the ascending `s` at its place, unless it is already there. */
  function Insert<T(==)>(x: T, s: seq<T>, lt: (T, T) -> bool): (r: seq<T>)
    ensures x in r && forall y :: y in s ==> y in r
    ensures forall y :: y in r ==> y == x || y in s
  {
    if s == [] then [x]
    else if x == s[0] then s
    else if lt(x, s[0]) then [x] + s
    else [s[0]] + Insert(x, s[1..], lt)
  }

  /** The distinct values of `xs`, in ascending order. */
  function SortedUnique<T(==)>(xs: seq<T>, lt: (T, T) -> bool): (r: seq<T>)
    ensures forall y :: y in xs ==> y in r
    ensures forall y :: y in r ==> y in xs
  {
    if xs == [] then [] else Insert(xs[0], SortedUnique(xs[1..], lt), lt)
  }

  /** Inserting into an ascending sequence keeps it ascending. */
  lemma {:induction false} InsertAscending<T(!new)>(x: T, s: seq<T>, lt: (T, T) -> bool)
    requires StrictTotalOrder(lt) && StrictlyAscending(s, lt)
    ensures StrictlyAscending(Insert(x, s, lt), lt)
  {
    if s != [] && x != s[0] {
      if lt(x, s[0]) {
        var r := [x] + s;
        forall i, j | 0 <= i < j < |r| ensures lt(r[i], r[j]) {
          if i == 0 && j > 1 {
            assert lt(s[0], s[j - 1]);
          }
        }
      } else {
        assert lt(s[0], x);
        var tail := Insert(x, s[1..], lt);
        InsertAscending(x, s[1..], lt);
        var r := [s[0]] + tail;
        forall i, j | 0 <= i < j < |r| ensures lt(r[i], r[j]) {
          if i == 0 {
            assert r[j] in tail;
            assert r[j] == x || r[j] in s[1..];
          }
        }
      }
    }
  }

  /** SortedUnique yields a strictly ascending sequence. */
  lemma {:induction false} SortedUniqueAscending<T(!new)>(xs: seq<T>, lt: (T, T) -> bool)
    requires StrictTotalOrder(lt)
    ensures StrictlyAscending(SortedUnique(xs, lt), lt)
  {
    if xs != [] {
      SortedUniqueAscending(xs[1..], lt);
      InsertAscending(xs[0], SortedUnique(xs[1..], lt), lt);
    }
  }

  /** Under an irreflexive order, an ascending sequence has no duplicates. */
  lemma AscendingDistinct<T(!new)>(s: seq<T>, lt: (T, T) -> bool)
    requires StrictTotalOrder(lt) && StrictlyAscending(s, lt)
    ensures Distinct(s)
  {
  }

  /** Python's string comparison: code point by code point, a proper prefix first. */
  predicate StrLess(a: string, b: string) {
    if a == [] then b != []
    else if b == [] then false
    else if a[0] != b[0] then a[0] < b[0]
    else StrLess(a[1..], b[1..])
  }

  lemma {:induction false} StrLessIrreflexive(a: string)
    ensures !StrLess(a, a)
  {
    if a != [] {
      StrLessIrreflexive(a[1..]);
    }
  }

  lemma {:induction false} StrLessTransitive(a: string, b: string, c: string)
    requires StrLess(a, b) && StrLess(b, c)
    ensures StrLess(a, c)
  {
    if a != [] && a[0] == b[0] && b[0] == c[0] {
      StrLessTransitive(a[1..], b[1..], c[1..]);
    }
  }

  lemma {:induction false} StrLessTotal(a: string, b: string)
    requires a != b
    ensures StrLess(a, b) || StrLess(b, a)
  {
    if a != [] && b != [] && a[0] == b[0] {
      assert a == [a[0]] + a[1..] && b == [b[0]] + b[1..];
      StrLessTotal(a[1..], b[1..]);
    }
  }

  /** StrLess is a strict total order on strings. */
  lemma StrLessIsStrictTotalOrder()
    ensures StrictTotalOrder(StrLess)
  {
    forall x: string ensures !StrLess(x, x) {
      StrLessIrreflexive(x);
    }
    forall x: string, y: string, z: string | StrLess(x, y) && StrLess(y, z) ensures StrLess(x, z) {
      StrLessTransitive(x, y, z);
    }
    forall x: string, y: string | x != y ensures StrLess(x, y) || StrLess(y, x) {
      StrLessTotal(x, y);
    }
  }
}

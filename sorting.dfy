/** sorted(set(xs)): the distinct elements of a sequence in ascending order,
    for any strict total order. pandas' groupby sorts its group keys the same
    way, so one definition serves both. */
module Sorting {
  import opened Text

  ghost predicate IsStrictTotalOrder<T(!new)>(less: (T, T) -> bool) {
    && (forall a :: !less(a, a))
    && (forall a, b, c :: less(a, b) && less(b, c) ==> less(a, c))
    && (forall a, b :: a != b ==> less(a, b) || less(b, a))
  }

  predicate StrictlySorted<T>(s: seq<T>, less: (T, T) -> bool) {
    forall i, j :: 0 <= i < j < |s| ==> less(s[i], s[j])
  }

  /** Inserts x into a strictly sorted sequence unless it is already there. */
  function Insert<T(==)>(x: T, s: seq<T>, less: (T, T) -> bool): seq<T> {
    if s == [] then [x]
    else if x == s[0] then s
    else if less(x, s[0]) then [x] + s
    else [s[0]] + Insert(x, s[1..], less)
  }

  /** The distinct elements of xs in ascending order. */
  function SortedDistinct<T(==)>(xs: seq<T>, less: (T, T) -> bool): seq<T> {
    if xs == [] then [] else Insert(xs[|xs| - 1], SortedDistinct(xs[..|xs| - 1], less), less)
  }

  lemma {:induction false} InsertLength<T>(x: T, s: seq<T>, less: (T, T) -> bool)
    ensures |Insert(x, s, less)| <= |s| + 1
  {
    if s != [] && x != s[0] && !less(x, s[0]) { InsertLength(x, s[1..], less); }
  }

  /** There are never more distinct elements than elements. */
  lemma {:induction false} SortedDistinctLength<T>(xs: seq<T>, less: (T, T) -> bool)
    ensures |SortedDistinct(xs, less)| <= |xs|
  {
    if xs != [] {
      SortedDistinctLength(xs[..|xs| - 1], less);
      InsertLength(xs[|xs| - 1], SortedDistinct(xs[..|xs| - 1], less), less);
    }
  }

  /** A sorted sequence stays sorted under a new first element below all of it. */
  lemma SortedCons<T>(x: T, r: seq<T>, less: (T, T) -> bool)
    requires StrictlySorted(r, less)
    requires forall y :: y in r ==> less(x, y)
    ensures StrictlySorted([x] + r, less)
  {
    var u := [x] + r;
    forall i, j | 0 <= i < j < |u| ensures less(u[i], u[j]) {
      assert u[j] == r[j - 1] && u[j] in r;
      if i > 0 { assert u[i] == r[i - 1]; }
    }
  }

  lemma {:induction false} InsertElements<T>(x: T, s: seq<T>, less: (T, T) -> bool)
    ensures forall y :: y in Insert(x, s, less) <==> y == x || y in s
  {
    if s != [] && x != s[0] && !less(x, s[0]) {
      InsertElements(x, s[1..], less);
      assert s == [s[0]] + s[1..];
    }
  }

  lemma {:induction false} InsertCorrect<T(!new)>(x: T, s: seq<T>, less: (T, T) -> bool)
    requires IsStrictTotalOrder(less) && StrictlySorted(s, less)
    ensures StrictlySorted(Insert(x, s, less), less)
    ensures forall y :: y in Insert(x, s, less) <==> y == x || y in s
  {
    InsertElements(x, s, less);
    if s == [] || x == s[0] {
    } else if less(x, s[0]) {
      forall y | y in s ensures less(x, y) {
        var k :| 0 <= k < |s| && s[k] == y;
        if k > 0 { assert less(s[0], s[k]); }
      }
      SortedCons(x, s, less);
    } else {
      var s0, t := s[0], s[1..];
      assert StrictlySorted(t, less);
      InsertCorrect(x, t, less);
      var r := Insert(x, t, less);
      assert less(s0, x);
      forall y | y in r ensures less(s0, y) {
        if y != x {
          var k :| 0 <= k < |t| && t[k] == y;
          assert s[k + 1] == y;
        }
      }
      SortedCons(s0, r, less);
    }
  }

  /** sorted(set(xs)) is strictly ascending and holds exactly the elements of xs. */
  lemma {:induction false} SortedDistinctCorrect<T(!new)>(xs: seq<T>, less: (T, T) -> bool)
    requires IsStrictTotalOrder(less)
    ensures StrictlySorted(SortedDistinct(xs, less), less)
    ensures forall y :: y in SortedDistinct(xs, less) <==> y in xs
  {
    if xs != [] {
      var init := xs[..|xs| - 1];
      SortedDistinctCorrect(init, less);
      InsertCorrect(xs[|xs| - 1], SortedDistinct(init, less), less);
      assert xs == init + [xs[|xs| - 1]];
    }
  }

  /** Two strictly sorted sequences with the same elements are equal. */
  lemma {:induction false} SortedUnique<T(!new)>(s: seq<T>, t: seq<T>, less: (T, T) -> bool)
    requires IsStrictTotalOrder(less)
    requires StrictlySorted(s, less) && StrictlySorted(t, less)
    requires forall y :: y in s <==> y in t
    ensures s == t
  {
    if s != [] { assert s[0] in t; }
    if t != [] { assert t[0] in s; }
    if s != [] && t != [] {
      var s0, t0 := s[0], t[0];
      var k :| 0 <= k < |t| && t[k] == s0;
      var k' :| 0 <= k' < |s| && s[k'] == t0;
      assert k == 0 || less(t0, s0);
      assert k' == 0 || less(s0, t0);
      assert s0 == t0;
      forall y ensures y in s[1..] <==> y in t[1..] {
        if y in s[1..] {
          var i :| 1 <= i < |s| && s[i] == y;
          assert less(s[0], y);
          assert y in t && y != t[0];
        }
        if y in t[1..] {
          var i :| 1 <= i < |t| && t[i] == y;
          assert less(t[0], y);
          assert y in s && y != s[0];
        }
      }
      SortedUnique(s[1..], t[1..], less);
      assert s == [s[0]] + s[1..] && t == [t[0]] + t[1..];
    }
  }

  /** sorted(set(xs)) depends only on which elements xs holds, not on their order
      or multiplicity. */
  lemma SortedDistinctDependsOnElements<T(!new)>(xs: seq<T>, ys: seq<T>, less: (T, T) -> bool)
    requires IsStrictTotalOrder(less)
    requires forall y :: y in xs <==> y in ys
    ensures SortedDistinct(xs, less) == SortedDistinct(ys, less)
  {
    SortedDistinctCorrect(xs, less);
    SortedDistinctCorrect(ys, less);
    SortedUnique(SortedDistinct(xs, less), SortedDistinct(ys, less), less);
  }

  /** A strictly sorted sequence has no repeated element. */
  lemma SortedDistinctElements<T(!new)>(s: seq<T>, less: (T, T) -> bool)
    requires IsStrictTotalOrder(less) && StrictlySorted(s, less)
    ensures forall i, j :: 0 <= i < j < |s| ==> s[i] != s[j]
  {
  }

  /** Python's code-point order on str is a strict total order. */
  lemma StrLessIsStrictTotalOrder()
    ensures IsStrictTotalOrder(StrLess)
  {
    forall a ensures !StrLess(a, a) { StrLessIrreflexive(a); }
    forall a, b, c | StrLess(a, b) && StrLess(b, c) ensures StrLess(a, c) {
      StrLessTransitive(a, b, c);
    }
    forall a, b | a != b ensures StrLess(a, b) || StrLess(b, a) { StrLessTotal(a, b); }
  }

  /** Tuple order on pairs of strings, as pandas sorts two-column group keys. */
  predicate PairLess(a: (string, string), b: (string, string)) {
    StrLess(a.0, b.0) || (a.0 == b.0 && StrLess(a.1, b.1))
  }

  lemma PairLessIsStrictTotalOrder()
    ensures IsStrictTotalOrder(PairLess)
  {
    StrLessIsStrictTotalOrder();
    forall a, b | a != b ensures PairLess(a, b) || PairLess(b, a) {
      if a.0 == b.0 { StrLessTotal(a.1, b.1); } else { StrLessTotal(a.0, b.0); }
    }
  }
}

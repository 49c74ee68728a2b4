/** Sequence helpers shared by the pipeline stages: sums over a column,
    row filters, pandas' drop_duplicates(keep="first") and concatenation of
    a list of blocks. */
module Seqs {
  import opened Wrappers

  /** The sum of f over the rows of xs (pandas' Series.sum on a derived column). */
  function Sum<T>(xs: seq<T>, f: T -> int): int {
    if xs == [] then 0 else f(xs[0]) + Sum(xs[1..], f)
  }

  lemma {:induction false} SumConcat<T>(a: seq<T>, b: seq<T>, f: T -> int)
    ensures Sum(a + b, f) == Sum(a, f) + Sum(b, f)
  {
    if a != [] {
      assert (a + b)[1..] == a[1..] + b;
      SumConcat(a[1..], b, f);
    } else {
      assert a + b == b;
    }
  }

  /** Removing the row at i takes exactly that row out of the multiset. */
  lemma {:induction false} MultisetRemove<T>(ys: seq<T>, i: nat)
    requires i < |ys|
    ensures multiset(ys[..i] + ys[i + 1..]) == multiset(ys) - multiset{ys[i]}
  {
    assert ys == ys[..i] + [ys[i]] + ys[i + 1..];
  }

  lemma {:induction false} SumRemove<T>(ys: seq<T>, i: nat, f: T -> int)
    requires i < |ys|
    ensures Sum(ys, f) == f(ys[i]) + Sum(ys[..i] + ys[i + 1..], f)
  {
    var a, mid, b := ys[..i], [ys[i]], ys[i + 1..];
    assert ys == (a + mid) + b;
    SumConcat(a + mid, b, f);
    SumConcat(a, mid, f);
    SumConcat(a, b, f);
    assert Sum(mid, f) == f(ys[i]) + Sum(mid[1..], f);
    assert mid[1..] == [];
  }

  lemma PermTail<T>(xs: seq<T>, ys: seq<T>, i: nat)
    requires multiset(xs) == multiset(ys) && xs != [] && i < |ys| && ys[i] == xs[0]
    ensures multiset(xs[1..]) == multiset(ys[..i] + ys[i + 1..])
  {
    MultisetRemove(ys, i);
    assert xs == [xs[0]] + xs[1..];
    assert multiset(xs) == multiset{xs[0]} + multiset(xs[1..]);
  }

  /** A sum does not depend on the order of the rows. */
  lemma {:induction false} SumPerm<T>(xs: seq<T>, ys: seq<T>, f: T -> int)
    requires multiset(xs) == multiset(ys)
    ensures Sum(xs, f) == Sum(ys, f)
  {
    if xs == [] {
      assert |ys| == |multiset(ys)| == 0;
    } else {
      var x := xs[0];
      assert x in multiset(ys);
      var i :| 0 <= i < |ys| && ys[i] == x;
      var rest := ys[..i] + ys[i + 1..];
      PermTail(xs, ys, i);
      SumPerm(xs[1..], rest, f);
      SumRemove(ys, i, f);
    }
  }

  /** Every term bounded by 0 and 1 makes the sum at most the row count. */
  lemma {:induction false} SumAtMostLength<T>(xs: seq<T>, f: T -> int)
    requires forall x :: x in xs ==> 0 <= f(x) <= 1
    ensures 0 <= Sum(xs, f) <= |xs|
  {
    if xs != [] { SumAtMostLength(xs[1..], f); }
  }

  /** df[mask]: the rows satisfying p, in their original order. */
  function Filter<T(!new)>(xs: seq<T>, p: T -> bool): (r: seq<T>)
    ensures |r| <= |xs|
    ensures forall x :: x in r <==> x in xs && p(x)
  {
    if xs == [] then []
    else (if p(xs[0]) then [xs[0]] else []) + Filter(xs[1..], p)
  }

  /** The rows kept and the rows dropped by a mask, as multisets. */
  lemma FilterHead<T(!new)>(xs: seq<T>, p: T -> bool, q: T -> bool)
    requires xs != [] && forall x :: q(x) == !p(x)
    ensures multiset(Filter(xs, p)) + multiset(Filter(xs, q))
      == multiset{xs[0]} + multiset(Filter(xs[1..], p)) + multiset(Filter(xs[1..], q))
  {
    var x := xs[0];
    if p(x) {
      assert Filter(xs, p) == [x] + Filter(xs[1..], p);
      assert Filter(xs, q) == Filter(xs[1..], q);
    } else {
      assert Filter(xs, p) == Filter(xs[1..], p);
      assert Filter(xs, q) == [x] + Filter(xs[1..], q);
    }
  }

  /** df[mask] and df[~mask] split the rows: together they hold every row
      exactly as often as df does. */
  lemma {:induction false} FilterSplit<T(!new)>(xs: seq<T>, p: T -> bool, q: T -> bool)
    requires forall x :: q(x) == !p(x)
    ensures multiset(Filter(xs, p)) + multiset(Filter(xs, q)) == multiset(xs)
    ensures |Filter(xs, p)| + |Filter(xs, q)| == |xs|
  {
    if xs != [] {
      FilterSplit(xs[1..], p, q);
      FilterHead(xs, p, q);
      assert xs == [xs[0]] + xs[1..];
    }
    assert |multiset(Filter(xs, p))| == |Filter(xs, p)|;
    assert |multiset(Filter(xs, q))| == |Filter(xs, q)|;
  }

  predicate NoDuplicates<T(==)>(xs: seq<T>) {
    forall i, j :: 0 <= i < j < |xs| ==> xs[i] != xs[j]
  }

  /** xs.index(x): the position of x's first occurrence. */
  function IndexOf<T(==)>(xs: seq<T>, x: T): (i: nat)
    requires x in xs
    ensures i < |xs| && xs[i] == x && x !in xs[..i]
  {
    if xs[0] == x then 0
    else
      var i := 1 + IndexOf(xs[1..], x);
      assert xs[..i] == [xs[0]] + xs[1..][..i - 1];
      i
  }

  /** An element of a prefix has its first occurrence inside the prefix. */
  lemma IndexOfPrefix<T>(xs: seq<T>, n: nat, x: T)
    requires n <= |xs| && x in xs[..n]
    ensures IndexOf(xs, x) == IndexOf(xs[..n], x)
  {
    var i := IndexOf(xs[..n], x);
    assert xs[..n][..i] == xs[..i];
  }

  /** drop_duplicates(): the first occurrence of every row, in order. */
  function Distinct<T(==,!new)>(xs: seq<T>): (r: seq<T>)
    ensures NoDuplicates(r)
    ensures forall x :: x in r <==> x in xs
    ensures |r| <= |xs|
  {
    if xs == [] then []
    else
      var init := Distinct(xs[..|xs| - 1]);
      var last := xs[|xs| - 1];
      assert xs == xs[..|xs| - 1] + [last];
      if last in init then init else init + [last]
  }

  /** drop_duplicates keeps the rows in the order of their first
      occurrences. */
  lemma {:induction false} DistinctOrder<T(!new)>(xs: seq<T>)
    ensures forall i, j :: 0 <= i < j < |Distinct(xs)| ==> IndexOf(xs, Distinct(xs)[i]) < IndexOf(xs, Distinct(xs)[j])
  {
    if xs != [] {
      var n := |xs| - 1;
      var init := Distinct(xs[..n]);
      var last := xs[n];
      DistinctOrder(xs[..n]);
      assert xs == xs[..n] + [last];
      forall y | y in init ensures IndexOf(xs, y) == IndexOf(xs[..n], y) < n {
        IndexOfPrefix(xs, n, y);
      }
      var r := Distinct(xs);
      assert r == if last in init then init else init + [last];
      forall i, j | 0 <= i < j < |r| ensures IndexOf(xs, r[i]) < IndexOf(xs, r[j]) {
        assert r[i] == init[i] && init[i] in init;
        assert IndexOf(xs, init[i]) == IndexOf(xs[..n], init[i]) < n;
        if j < |init| {
          assert r[j] == init[j] && init[j] in init;
          assert IndexOf(xs, init[j]) == IndexOf(xs[..n], init[j]);
          assert IndexOf(xs[..n], init[i]) < IndexOf(xs[..n], init[j]);
        } else {
          assert IndexOf(xs, last) == n by {
            assert last !in xs[..n];
          }
        }
      }
    }
  }

  /** a is b with some elements left out, the others kept in order. */
  predicate Subsequence<T(==)>(a: seq<T>, b: seq<T>)
    decreases |b|
  {
    if a == [] then true
    else if b == [] then false
    else if a[0] == b[0] then Subsequence(a[1..], b[1..])
    else Subsequence(a, b[1..])
  }

  lemma {:induction false} SubsequenceDropHead<T>(a: seq<T>, c: seq<T>)
    requires a != [] && Subsequence(a, c)
    ensures Subsequence(a[1..], c)
    decreases |a| + |c|
  {
    if a[0] != c[0] {
      SubsequenceDropHead(a, c[1..]);
    }
    SubsequenceCons(a[1..], c);
  }

  /** A subsequence of b's tail is a subsequence of b. */
  lemma {:induction false} SubsequenceCons<T>(a: seq<T>, b: seq<T>)
    requires b != [] && Subsequence(a, b[1..])
    ensures Subsequence(a, b)
    decreases |a| + |b|
  {
    if a != [] && a[0] == b[0] {
      SubsequenceDropHead(a, b[1..]);
    }
  }

  /** pd.concat over a list of blocks. */
  function Flatten<T>(xss: seq<seq<T>>): seq<T> {
    if xss == [] then [] else xss[0] + Flatten(xss[1..])
  }

  lemma {:induction false} FlattenConcat<T>(a: seq<seq<T>>, b: seq<seq<T>>)
    ensures Flatten(a + b) == Flatten(a) + Flatten(b)
  {
    if a != [] {
      assert (a + b)[1..] == a[1..] + b;
      FlattenConcat(a[1..], b);
    } else {
      assert a + b == b;
    }
  }

  lemma {:induction false} FlattenMember<T>(xss: seq<seq<T>>, x: T)
    ensures x in Flatten(xss) <==> exists i :: 0 <= i < |xss| && x in xss[i]
  {
    if xss != [] {
      FlattenMember(xss[1..], x);
      if x in Flatten(xss[1..]) {
        var i :| 0 <= i < |xss[1..]| && x in xss[1..][i];
        assert x in xss[i + 1];
      }
      if exists i :: 0 <= i < |xss| && x in xss[i] {
        var i :| 0 <= i < |xss| && x in xss[i];
        if i > 0 { assert x in xss[1..][i - 1]; }
      }
    }
  }

  /** f restricted to the rows whose key is k: the summand of one group. */
  function Restrict<T, K(==)>(key: T -> K, k: K, f: T -> int): T -> int {
    r => if key(r) == k then f(r) else 0
  }

  /** groupby(key)[f].sum() for the group k. */
  function KeyedSum<T, K(==)>(rows: seq<T>, key: T -> K, k: K, f: T -> int): int {
    Sum(rows, Restrict(key, k, f))
  }

  /** The group sums over a list of keys, added up. */
  function GroupTotal<T, K(==)>(ks: seq<K>, rows: seq<T>, key: T -> K, f: T -> int): int {
    if ks == [] then 0 else KeyedSum(rows, key, ks[0], f) + GroupTotal(ks[1..], rows, key, f)
  }

  /** The number of times k occurs in ks. */
  function Occurrences<K(==)>(ks: seq<K>, k: K): nat {
    if ks == [] then 0 else (if ks[0] == k then 1 else 0) + Occurrences(ks[1..], k)
  }

  lemma {:induction false} OccurrencesOfDistinct<K>(ks: seq<K>, k: K)
    requires NoDuplicates(ks) && k in ks
    ensures Occurrences(ks, k) == 1
  {
    if ks[0] != k {
      OccurrencesOfDistinct(ks[1..], k);
    } else {
      forall j | 0 <= j < |ks| - 1 ensures ks[1..][j] != k {
        assert ks[0] != ks[j + 1];
      }
      OccurrencesAbsent(ks[1..], k);
    }
  }

  lemma {:induction false} OccurrencesAbsent<K>(ks: seq<K>, k: K)
    requires k !in ks
    ensures Occurrences(ks, k) == 0
  {
    if ks != [] { OccurrencesAbsent(ks[1..], k); }
  }

  /** Adding one row to the table adds its value once per occurrence of its key. */
  lemma {:induction false} GroupTotalCons<T, K>(ks: seq<K>, x: T, rows: seq<T>, key: T -> K, f: T -> int)
    ensures GroupTotal(ks, [x] + rows, key, f) == GroupTotal(ks, rows, key, f) + Occurrences(ks, key(x)) * f(x)
  {
    if ks != [] {
      var all := [x] + rows;
      assert all[0] == x && all[1..] == rows;
      GroupTotalCons(ks[1..], x, rows, key, f);
      var here := if ks[0] == key(x) then 1 else 0;
      assert KeyedSum(all, key, ks[0], f) == here * f(x) + KeyedSum(rows, key, ks[0], f);
      assert Occurrences(ks, key(x)) == here + Occurrences(ks[1..], key(x));
      assert Occurrences(ks, key(x)) * f(x) == here * f(x) + Occurrences(ks[1..], key(x)) * f(x);
    }
  }

  /** Splitting the rows into groups over a duplicate-free list of keys that
      covers every row loses and counts twice nothing: the group sums add up
      to the sum over all rows. */
  lemma {:induction false} PartitionSum<T, K>(ks: seq<K>, rows: seq<T>, key: T -> K, f: T -> int)
    requires NoDuplicates(ks)
    requires forall r :: r in rows ==> key(r) in ks
    ensures GroupTotal(ks, rows, key, f) == Sum(rows, f)
  {
    if rows == [] {
      GroupTotalEmpty(ks, key, f);
    } else {
      assert rows == [rows[0]] + rows[1..];
      PartitionSum(ks, rows[1..], key, f);
      GroupTotalCons(ks, rows[0], rows[1..], key, f);
      OccurrencesOfDistinct(ks, key(rows[0]));
    }
  }

  lemma {:induction false} GroupTotalEmpty<T, K>(ks: seq<K>, key: T -> K, f: T -> int)
    ensures GroupTotal(ks, [], key, f) == 0
  {
    if ks != [] { GroupTotalEmpty(ks[1..], key, f); }
  }

  /** The row filter `key(r) == k`. */
  function KeyIs<T, K(==)>(key: T -> K, k: K): T -> bool {
    r => key(r) == k
  }

  /** The summand that counts rows. */
  function One<T>(x: T): int {
    1
  }

  lemma {:induction false} SumOne<T>(xs: seq<T>)
    ensures Sum(xs, One) == |xs|
  {
    if xs != [] { SumOne(xs[1..]); }
  }

  /** Summing f over the rows of the group k is the keyed sum of f. */
  lemma {:induction false} FilterKeyedSum<T(!new), K>(xs: seq<T>, key: T -> K, k: K, f: T -> int)
    ensures Sum(Filter(xs, KeyIs(key, k)), f) == KeyedSum(xs, key, k, f)
  {
    if xs != [] {
      FilterKeyedSum(xs[1..], key, k, f);
      if key(xs[0]) == k {
        assert Filter(xs, KeyIs(key, k)) == [xs[0]] + Filter(xs[1..], KeyIs(key, k));
      } else {
        assert Filter(xs, KeyIs(key, k)) == Filter(xs[1..], KeyIs(key, k));
      }
    }
  }

  /** The size of the group k is the keyed count of k. */
  lemma FilterKeyedCount<T(!new), K>(xs: seq<T>, key: T -> K, k: K)
    ensures |Filter(xs, KeyIs(key, k))| == KeyedSum(xs, key, k, One)
  {
    FilterKeyedSum(xs, key, k, One);
    SumOne(Filter(xs, KeyIs(key, k)));
  }

  lemma OccurrencesAtMostOne<K>(ks: seq<K>, k: K)
    requires NoDuplicates(ks)
    ensures Occurrences(ks, k) <= 1
  {
    if k in ks { OccurrencesOfDistinct(ks, k); } else { OccurrencesAbsent(ks, k); }
  }

  /** Over duplicate-free keys that need not cover every row, the group sums
      of a non-negative f add up to at most the sum over all rows. */
  lemma {:induction false} GroupTotalAtMost<T, K>(ks: seq<K>, rows: seq<T>, key: T -> K, f: T -> int)
    requires NoDuplicates(ks)
    requires forall r :: r in rows ==> f(r) >= 0
    ensures GroupTotal(ks, rows, key, f) <= Sum(rows, f)
  {
    if rows == [] {
      GroupTotalEmpty(ks, key, f);
    } else {
      assert rows == [rows[0]] + rows[1..];
      GroupTotalAtMost(ks, rows[1..], key, f);
      GroupTotalCons(ks, rows[0], rows[1..], key, f);
      OccurrencesAtMostOne(ks, key(rows[0]));
    }
  }

  /** f applied to every element, in order, built from the end as a loop
      appending one result at a time would build it. */
  function MapSeq<A, B>(xs: seq<A>, f: A -> B): (r: seq<B>)
    ensures |r| == |xs|
    ensures forall i :: 0 <= i < |xs| ==> r[i] == f(xs[i])
  {
    if xs == [] then [] else MapSeq(xs[..|xs| - 1], f) + [f(xs[|xs| - 1])]
  }

  lemma MapSeqStep<A, B>(xs: seq<A>, j: nat, f: A -> B)
    requires j < |xs|
    ensures MapSeq(xs[..j + 1], f) == MapSeq(xs[..j], f) + [f(xs[j])]
  {
    assert xs[..j + 1][..j] == xs[..j];
  }

  /** Dropping past the first part of a concatenation drops into the second. */
  lemma ConcatDrop<T>(a: seq<T>, b: seq<T>, j: nat)
    requires j <= |b|
    ensures (a + b)[|a| + j..] == b[j..]
  {
  }

  lemma ConcatAssoc<T>(a: seq<T>, b: seq<T>, c: seq<T>)
    ensures (a + b) + c == a + (b + c)
  {
  }

  /** dict(pairs): later pairs overwrite earlier ones. */
  function DictOf<K(==,!new), V(!new)>(ps: seq<(K, V)>): (lut: map<K, V>)
    ensures forall k :: k in lut <==> exists p :: p in ps && p.0 == k
    ensures forall k :: k in lut ==> (k, lut[k]) in ps
  {
    if ps == [] then map[]
    else
      var init := ps[..|ps| - 1];
      var last := ps[|ps| - 1];
      var m := DictOf(init);
      assert forall p :: p in ps <==> p in init || p == last;
      m[last.0 := last.1]
  }

  /** A pair appended last overwrites its key. */
  lemma DictOfSnoc<K(!new), V(!new)>(ps: seq<(K, V)>, p: (K, V))
    ensures DictOf(ps + [p]) == DictOf(ps)[p.0 := p.1]
  {
    assert (ps + [p])[..|ps|] == ps;
  }

  /** ps[i] is the pair (k, v) and no later pair has the key k. */
  predicate LastPairAt<K(==), V(==)>(ps: seq<(K, V)>, k: K, v: V, i: int) {
    0 <= i < |ps| && ps[i] == (k, v) && forall j :: i < j < |ps| ==> ps[j].0 != k
  }

  /** The value kept for a key is the one of its last pair. */
  lemma {:induction false} DictOfLastWins<K(!new), V(!new)>(ps: seq<(K, V)>, k: K)
    requires k in DictOf(ps)
    ensures exists i :: LastPairAt(ps, k, DictOf(ps)[k], i)
  {
    var init := ps[..|ps| - 1];
    var last := ps[|ps| - 1];
    var v := DictOf(ps)[k];
    assert DictOf(ps) == DictOf(init)[last.0 := last.1];
    if last.0 != k {
      assert k in DictOf(init) && DictOf(init)[k] == v;
      DictOfLastWins(init, k);
      var i :| LastPairAt(init, k, v, i);
      assert ps[i] == init[i];
      forall j | i < j < |ps| ensures ps[j].0 != k {
        if j < |init| { assert ps[j] == init[j]; }
      }
      assert LastPairAt(ps, k, v, i);
    } else {
      assert LastPairAt(ps, k, v, |ps| - 1);
    }
  }

  /** The first index whose element satisfies p: the early return of a
      `for k in keys: if ...: return` loop. */
  function FirstIndex<T>(xs: seq<T>, p: T -> bool): (r: Option<nat>)
    ensures r.Some? ==> r.value < |xs| && p(xs[r.value])
    ensures r.Some? ==> forall j :: 0 <= j < r.value ==> !p(xs[j])
    ensures r.None? <==> forall j :: 0 <= j < |xs| ==> !p(xs[j])
  {
    if xs == [] then None
    else if p(xs[0]) then Some(0)
    else match FirstIndex(xs[1..], p)
      case None => None
      case Some(i) => Some(i + 1)
  }

  lemma {:induction false} FilterConcat<T(!new)>(a: seq<T>, b: seq<T>, p: T -> bool)
    ensures Filter(a + b, p) == Filter(a, p) + Filter(b, p)
  {
    if a != [] {
      assert (a + b)[1..] == a[1..] + b;
      FilterConcat(a[1..], b, p);
    } else {
      assert a + b == b;
    }
  }

  lemma {:induction false} FilterNone<T(!new)>(xs: seq<T>, p: T -> bool)
    requires forall i :: 0 <= i < |xs| ==> !p(xs[i])
    ensures Filter(xs, p) == []
  {
    if xs != [] {
      assert !p(xs[0]);
      assert forall i :: 0 <= i < |xs| - 1 ==> xs[1..][i] == xs[i + 1];
      FilterNone(xs[1..], p);
    }
  }
}

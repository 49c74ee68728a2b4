/** Stage 1 of build_db.py: table B grouped by (owner_org, Request Number),
    with the informal-request metric summed and the unique identifiers
    collected by agg_unique_identifiers. */
module Aggregate {
  import opened Text
  import opened Sorting
  import opened Seqs
  import opened Tables

  // ---------------------------------------------------------------------
  // agg_unique_identifiers
  // ---------------------------------------------------------------------

  /** The stripped identifiers that are not blank, in input order. */
  function TrimmedIds(ids: seq<string>): (r: seq<string>)
    ensures forall y :: y in r ==> y != ""
  {
    if ids == [] then []
    else (if Trim(ids[0]) != "" then [Trim(ids[0])] else []) + TrimmedIds(ids[1..])
  }

  /** y is the stripped form of one of the identifiers. */
  predicate TrimOfSome(y: string, ids: seq<string>) {
    exists x :: x in ids && Trim(x) == y
  }

  /** The kept identifiers are exactly the non-blank stripped ones. */
  lemma {:induction false} TrimmedIdsElements(ids: seq<string>)
    ensures forall y :: y in TrimmedIds(ids) <==> y != "" && TrimOfSome(y, ids)
  {
    if ids != [] {
      var tail := ids[1..];
      TrimmedIdsElements(tail);
      var head := if Trim(ids[0]) != "" then [Trim(ids[0])] else [];
      var rest := TrimmedIds(tail);
      assert TrimmedIds(ids) == head + rest;
      forall y ensures y in head + rest <==> y != "" && TrimOfSome(y, ids) {
        if y != "" && TrimOfSome(y, ids) {
          var x :| x in ids && Trim(x) == y;
          if x != ids[0] {
            assert x in tail;
            assert TrimOfSome(y, tail);
          }
        }
        if y in rest {
          var x :| x in tail && Trim(x) == y;
          assert x in ids;
        }
      }
    }
  }

  /** sorted(set(vals)): the identifiers the group reports, ascending. */
  function IdentifierList(ids: seq<string>): seq<string> {
    SortedDistinct(TrimmedIds(ids), StrLess)
  }

  /** "; ".join(sorted(set(vals))) if vals else "" */
  function AggUniqueIdentifiers(ids: seq<string>): string {
    var vals := TrimmedIds(ids);
    if vals != [] then Join(SortedDistinct(vals, StrLess), "; ") else ""
  }

  lemma {:induction false} JoinStartsWith(xs: seq<string>, sep: string)
    requires xs != []
    ensures |Join(xs, sep)| >= |xs[0]|
  {
  }

  /** The identifier list is strictly ascending (so free of repeats) and holds
      exactly the stripped, non-blank identifiers of the group. */
  lemma IdentifierListSpec(ids: seq<string>)
    ensures StrictlySorted(IdentifierList(ids), StrLess)
    ensures forall y :: y in IdentifierList(ids) <==> y != "" && TrimOfSome(y, ids)
  {
    TrimmedIdsElements(ids);
    StrLessIsStrictTotalOrder();
    SortedDistinctCorrect(TrimmedIds(ids), StrLess);
  }

  /** The column is the "; "-join of that list, and it is "" exactly when
      every identifier of the group is blank. */
  lemma AggUniqueIdentifiersSpec(ids: seq<string>)
    ensures AggUniqueIdentifiers(ids) == "" || AggUniqueIdentifiers(ids) == Join(IdentifierList(ids), "; ")
    ensures AggUniqueIdentifiers(ids) == "" <==> forall x :: x in ids ==> Trim(x) == ""
  {
    var vals := TrimmedIds(ids);
    TrimmedIdsElements(ids);
    forall x | x in ids ensures Trim(x) == "" || Trim(x) in vals {
      assert TrimOfSome(Trim(x), ids);
    }
    if vals != [] {
      StrLessIsStrictTotalOrder();
      SortedDistinctCorrect(vals, StrLess);
      var l := SortedDistinct(vals, StrLess);
      assert vals[0] in l;
      assert l[0] in vals;
      JoinStartsWith(l, "; ");
    }
  }

  /** The column depends only on which identifiers occur, not on their order
      or repetition. */
  lemma AggUniqueIdentifiersOrderFree(ids: seq<string>, ids2: seq<string>)
    requires forall x :: x in ids <==> x in ids2
    ensures AggUniqueIdentifiers(ids) == AggUniqueIdentifiers(ids2)
  {
    var v1, v2 := TrimmedIds(ids), TrimmedIds(ids2);
    TrimmedIdsElements(ids);
    TrimmedIdsElements(ids2);
    assert forall y :: y in v1 <==> y in v2;
    StrLessIsStrictTotalOrder();
    SortedDistinctDependsOnElements(v1, v2, StrLess);
    if v1 != [] { assert v1[0] in v2; }
    if v2 != [] { assert v2[0] in v1; }
  }

  // ---------------------------------------------------------------------
  // groupby(["owner_org", "Request Number"]).agg(...)
  // ---------------------------------------------------------------------

  /** One row of dfB_agg. */
  datatype BAgg = BAgg(owner: string, request: string, informalSum: int, uniqueIdentifiers: string, requestLc: string)

  function Key(r: BRow): (string, string) {
    (r.owner, r.request)
  }

  function Keys(rows: seq<BRow>): (ks: seq<(string, string)>)
    ensures |ks| == |rows|
    ensures forall k :: k in ks <==> exists r :: r in rows && Key(r) == k
  {
    if rows == [] then []
    else
      var rest := Keys(rows[1..]);
      assert forall r :: r in rows ==> r == rows[0] || r in rows[1..];
      [Key(rows[0])] + rest
  }

  /** The group keys in pandas' sorted order. */
  function GroupKeys(rows: seq<BRow>): seq<(string, string)> {
    SortedDistinct(Keys(rows), PairLess)
  }

  function MetricOf(r: BRow): int {
    Metric(r.informal)
  }

  /** The Unique Identifier cells of the group k, in row order. */
  function GroupIds(rows: seq<BRow>, k: (string, string)): (ids: seq<string>)
    ensures forall y :: y in ids <==> exists r :: r in rows && Key(r) == k && r.uid == y
  {
    if rows == [] then []
    else
      var rest := GroupIds(rows[1..], k);
      assert forall r :: r in rows ==> r == rows[0] || r in rows[1..];
      (if Key(rows[0]) == k then [rows[0].uid] else []) + rest
  }

  /** The aggregate row of the group k, with request_number_lc added. */
  function GroupRow(rows: seq<BRow>, k: (string, string)): BAgg {
    BAgg(k.0, k.1, KeyedSum(rows, Key, k, MetricOf), AggUniqueIdentifiers(GroupIds(rows, k)), Lower(k.1))
  }

  function GroupRows(rows: seq<BRow>, ks: seq<(string, string)>): seq<BAgg> {
    seq(|ks|, i requires 0 <= i < |ks| => GroupRow(rows, ks[i]))
  }

  function AggregateB(rows: seq<BRow>): seq<BAgg> {
    GroupRows(rows, GroupKeys(rows))
  }

  function InformalSumOf(a: BAgg): int {
    a.informalSum
  }

  /** The groups are listed in ascending (owner_org, Request Number) order,
      once each, and there is a group exactly for each key that occurs in B. */
  lemma AggregateBGroups(rows: seq<BRow>)
    ensures var aggs := AggregateB(rows);
      && (forall i, j :: 0 <= i < j < |aggs| ==> PairLess((aggs[i].owner, aggs[i].request), (aggs[j].owner, aggs[j].request)))
      && (forall o, q :: (exists i :: 0 <= i < |aggs| && aggs[i].owner == o && aggs[i].request == q)
                       <==> (exists r :: r in rows && Key(r) == (o, q)))
  {
    PairLessIsStrictTotalOrder();
    SortedDistinctCorrect(Keys(rows), PairLess);
    var ks := GroupKeys(rows);
    var aggs := AggregateB(rows);
    forall o, q | exists r :: r in rows && Key(r) == (o, q)
      ensures exists i :: 0 <= i < |aggs| && aggs[i].owner == o && aggs[i].request == q
    {
      assert (o, q) in ks;
      var i :| 0 <= i < |ks| && ks[i] == (o, q);
      assert aggs[i].owner == o && aggs[i].request == q;
    }
    forall o, q | exists i :: 0 <= i < |aggs| && aggs[i].owner == o && aggs[i].request == q
      ensures exists r :: r in rows && Key(r) == (o, q)
    {
      var i :| 0 <= i < |aggs| && aggs[i].owner == o && aggs[i].request == q;
      assert ks[i] == (o, q) && ks[i] in ks;
    }
  }

  /** No request is lost or counted twice: the group sums add up to the
      metric summed over all of B. */
  lemma AggregateBTotal(rows: seq<BRow>)
    ensures Sum(AggregateB(rows), InformalSumOf) == Sum(rows, MetricOf)
  {
    PairLessIsStrictTotalOrder();
    SortedDistinctCorrect(Keys(rows), PairLess);
    var ks := GroupKeys(rows);
    SortedDistinctElements(ks, PairLess);
    forall r | r in rows ensures Key(r) in ks { assert Key(r) in Keys(rows); }
    PartitionSum(ks, rows, Key, MetricOf);
    SumOfAggregates(ks, rows);
  }

  lemma {:induction false} SumOfAggregates(ks: seq<(string, string)>, rows: seq<BRow>)
    ensures Sum(GroupRows(rows, ks), InformalSumOf) == GroupTotal(ks, rows, Key, MetricOf)
  {
    if ks != [] {
      SumOfAggregates(ks[1..], rows);
      assert GroupRows(rows, ks)[1..] == GroupRows(rows, ks[1..]);
    }
  }

  /** The aggregate does not depend on the order of B's rows. */
  lemma AggregateBOrderFree(rows: seq<BRow>, rows2: seq<BRow>)
    requires multiset(rows) == multiset(rows2)
    ensures AggregateB(rows) == AggregateB(rows2)
  {
    assert forall r :: r in rows <==> r in rows2 by {
      forall r ensures r in rows <==> r in rows2 {
        assert r in rows <==> r in multiset(rows);
        assert r in rows2 <==> r in multiset(rows2);
      }
    }
    PairLessIsStrictTotalOrder();
    SortedDistinctDependsOnElements(Keys(rows), Keys(rows2), PairLess);
    var ks := GroupKeys(rows);
    forall i | 0 <= i < |ks|
      ensures KeyedSum(rows, Key, ks[i], MetricOf) == KeyedSum(rows2, Key, ks[i], MetricOf)
      ensures AggUniqueIdentifiers(GroupIds(rows, ks[i])) == AggUniqueIdentifiers(GroupIds(rows2, ks[i]))
    {
      SumPerm(rows, rows2, Restrict(Key, ks[i], MetricOf));
      AggUniqueIdentifiersOrderFree(GroupIds(rows, ks[i]), GroupIds(rows2, ks[i]));
    }
  }
}

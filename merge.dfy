/** Stage 2 of build_db.py: C merged onto the B aggregate with a left join
    on (owner_org, lower-cased request number), and the lower-case search
    haystack built from the two summaries. B was grouped by the original
    Request Number but is joined on its lower-cased form, so one C row can
    meet several aggregate rows and is then repeated once per match. */
module Merge {
  import opened Wrappers
  import opened Text
  import opened Seqs
  import opened Tables
  import opened Aggregate

  /** One row of dfBC. */
  datatype BCRow = BCRow(
    owner: string, request: string, informalSum: int, uniqueIdentifiers: string,
    summaryEn: string, summaryFr: string, haystack: string)

  /** The aggregate rows that the merge pairs with c, in aggregate order. */
  function MatchingAggs(aggs: seq<BAgg>, c: CRow): (ms: seq<BAgg>)
    ensures forall a :: a in ms <==> a in aggs && a.owner == c.owner && a.requestLc == Lower(c.request)
  {
    Filter(aggs, (a: BAgg) => a.owner == c.owner && a.requestLc == Lower(c.request))
  }

  /** (summary_en + " " + summary_fr).str.lower() */
  function Haystack(c: CRow): string {
    Lower(c.summaryEn + " " + c.summaryFr)
  }

  /** A merged row; an unmatched C row gets 0 and "" (the fillna defaults). */
  function JoinRow(c: CRow, a: Option<BAgg>): BCRow {
    match a
    case Some(g) => BCRow(c.owner, c.request, g.informalSum, g.uniqueIdentifiers, c.summaryEn, c.summaryFr, Haystack(c))
    case None => BCRow(c.owner, c.request, 0, "", c.summaryEn, c.summaryFr, Haystack(c))
  }

  function JoinRows(c: CRow, ms: seq<BAgg>): (r: seq<BCRow>)
    ensures |r| == |ms|
    ensures forall i :: 0 <= i < |ms| ==> r[i] == JoinRow(c, Some(ms[i]))
  {
    seq(|ms|, i requires 0 <= i < |ms| => JoinRow(c, Some(ms[i])))
  }

  /** dfC.merge(dfB_agg, on=["owner_org", "request_number_lc"], how="left"):
      C's rows in order, each followed by its matches in aggregate order. */
  function LeftJoin(cs: seq<CRow>, aggs: seq<BAgg>): seq<BCRow> {
    if cs == [] then []
    else
      var ms := MatchingAggs(aggs, cs[0]);
      (if ms == [] then [JoinRow(cs[0], None)] else JoinRows(cs[0], ms)) + LeftJoin(cs[1..], aggs)
  }

  /** The number of rows the merge produces for one C row. */
  function Fanout(aggs: seq<BAgg>, c: CRow): int {
    var n := |MatchingAggs(aggs, c)|;
    if n == 0 then 1 else n
  }

  /** The merge keeps every C row at least once and repeats it once per
      matching aggregate row. */
  lemma {:induction false} LeftJoinSize(cs: seq<CRow>, aggs: seq<BAgg>)
    ensures |LeftJoin(cs, aggs)| == Sum(cs, (c: CRow) => Fanout(aggs, c))
    ensures |LeftJoin(cs, aggs)| >= |cs|
  {
    if cs != [] { LeftJoinSize(cs[1..], aggs); }
  }

  /** r is c's row of the merge: c's key columns, summaries and haystack,
      with the sum and identifiers of an aggregate row matching c, or 0 and
      "" when no aggregate row matches c. */
  predicate JoinedFrom(r: BCRow, c: CRow, aggs: seq<BAgg>) {
    && r.owner == c.owner && r.request == c.request
    && r.summaryEn == c.summaryEn && r.summaryFr == c.summaryFr
    && r.haystack == Lower(c.summaryEn + " " + c.summaryFr)
    && ((exists a :: a in aggs && a.owner == c.owner && a.requestLc == Lower(c.request)
                   && r.informalSum == a.informalSum && r.uniqueIdentifiers == a.uniqueIdentifiers)
        || ((forall a :: a in aggs ==> !(a.owner == c.owner && a.requestLc == Lower(c.request)))
            && r.informalSum == 0 && r.uniqueIdentifiers == ""))
  }

  /** Every merged row is a C row with its summaries and haystack, carrying
      either the sum and identifiers of an aggregate row that matches it or,
      when none does, 0 and "". */
  lemma {:induction false} LeftJoinSound(cs: seq<CRow>, aggs: seq<BAgg>)
    ensures forall r :: r in LeftJoin(cs, aggs) ==> exists c :: c in cs && JoinedFrom(r, c, aggs)
  {
    if cs != [] {
      LeftJoinSound(cs[1..], aggs);
      var c := cs[0];
      var ms := MatchingAggs(aggs, c);
      var head := if ms == [] then [JoinRow(c, None)] else JoinRows(c, ms);
      assert LeftJoin(cs, aggs) == head + LeftJoin(cs[1..], aggs);
      forall r | r in head ensures JoinedFrom(r, c, aggs)
      {
        if ms != [] {
          var i :| 0 <= i < |head| && head[i] == r;
          assert ms[i] in ms;
        }
      }
      forall r | r in LeftJoin(cs[1..], aggs) ensures r in LeftJoin(cs, aggs) { }
    }
  }

  /** Every pairing of a C row with a matching aggregate row is in the merge,
      and every C row without a match appears with the defaults. */
  lemma {:induction false} LeftJoinComplete(cs: seq<CRow>, aggs: seq<BAgg>)
    ensures forall c, a :: (c in cs && a in aggs && a.owner == c.owner && a.requestLc == Lower(c.request))
                           ==> JoinRow(c, Some(a)) in LeftJoin(cs, aggs)
    ensures forall c :: c in cs && MatchingAggs(aggs, c) == [] ==> JoinRow(c, None) in LeftJoin(cs, aggs)
  {
    if cs != [] {
      LeftJoinComplete(cs[1..], aggs);
      var c := cs[0];
      var ms := MatchingAggs(aggs, c);
      var head := if ms == [] then [JoinRow(c, None)] else JoinRows(c, ms);
      assert LeftJoin(cs, aggs) == head + LeftJoin(cs[1..], aggs);
      forall a | a in aggs && a.owner == c.owner && a.requestLc == Lower(c.request)
        ensures JoinRow(c, Some(a)) in head
      {
        var i :| 0 <= i < |ms| && ms[i] == a;
        assert head[i] == JoinRow(c, Some(a));
      }
    }
  }

  /** A C row whose request number matches two B groups that differ only in
      case ("AB-1" and "ab-1") comes out of the merge twice. */
  lemma LeftJoinMultiplies()
    ensures var c := CRow("org", "Ab-1", "en", "fr");
      var g1 := BAgg("org", "AB-1", 2, "x", "ab-1");
      var g2 := BAgg("org", "ab-1", 3, "y", "ab-1");
      LeftJoin([c], [g1, g2]) == [JoinRow(c, Some(g1)), JoinRow(c, Some(g2))]
  {
    var c := CRow("org", "Ab-1", "en", "fr");
    var g1 := BAgg("org", "AB-1", 2, "x", "ab-1");
    var g2 := BAgg("org", "ab-1", 3, "y", "ab-1");
    assert Lower(c.request) == "ab-1";
    assert MatchingAggs([g1, g2], c) == [g1, g2];
  }
}

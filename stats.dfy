/** Stage 6b of build_db.py: the per-organisation roll-ups the page shows,
    org_stats over the strong rows and weak_stats over the weak ones. */
module Stats {
  import opened Text
  import opened Sorting
  import opened Seqs
  import opened Matcher
  import opened Classify
  import opened Enrichment

  // ---------------------------------------------------------------------
  // org_stats
  // ---------------------------------------------------------------------

  /** One row of org_stats. */
  datatype OrgStat = OrgStat(owner: string, strongCount: int, openByDefaultCount: int,
                             informalTotal: int, uniqueTracking: int, uniqueRequest: int)

  function OwnerOf(e: StrongRow): string { e.row.owner }
  function FlagOf(e: StrongRow): int { e.flag }
  function InformalOf(e: StrongRow): int { e.row.informalSum }

  function Owners(rows: seq<StrongRow>): (os: seq<string>)
    ensures forall o :: o in os <==> exists e :: e in rows && OwnerOf(e) == o
  {
    if rows == [] then []
    else
      assert forall e :: e in rows ==> e == rows[0] || e in rows[1..];
      [OwnerOf(rows[0])] + Owners(rows[1..])
  }

  function Trackings(rows: seq<StrongRow>): (ts: seq<string>)
    ensures |ts| == |rows|
  {
    seq(|rows|, i requires 0 <= i < |rows| => rows[i].row.tracking)
  }

  function Requests(rows: seq<StrongRow>): (qs: seq<string>)
    ensures |qs| == |rows|
  {
    seq(|rows|, i requires 0 <= i < |rows| => rows[i].row.request)
  }

  /** The strong rows of one organisation. */
  function OrgRows(rows: seq<StrongRow>, o: string): seq<StrongRow> {
    Filter(rows, KeyIs(OwnerOf, o))
  }

  /** size, sum, sum, nunique, nunique over the organisation's rows. */
  function StatOf(rows: seq<StrongRow>, o: string): OrgStat {
    var g := OrgRows(rows, o);
    OrgStat(o, |g|, Sum(g, FlagOf), Sum(g, InformalOf),
            |SortedDistinct(Trackings(g), StrLess)|, |SortedDistinct(Requests(g), StrLess)|)
  }

  function StatsFor(rows: seq<StrongRow>, os: seq<string>): (r: seq<OrgStat>)
    ensures |r| == |os|
  {
    seq(|os|, i requires 0 <= i < |os| => StatOf(rows, os[i]))
  }

  /** df_strong.groupby("owner_org").agg(...): one row per organisation, in
      ascending order; no rows for an empty df_strong. */
  function OrgStats(rows: seq<StrongRow>): seq<OrgStat> {
    StatsFor(rows, SortedDistinct(Owners(rows), StrLess))
  }

  function StrongCountOf(s: OrgStat): int { s.strongCount }
  function OpenCountOf(s: OrgStat): int { s.openByDefaultCount }
  function InformalTotalOf(s: OrgStat): int { s.informalTotal }

  lemma {:induction false} StatsForTotals(rows: seq<StrongRow>, os: seq<string>)
    ensures Sum(StatsFor(rows, os), StrongCountOf) == GroupTotal(os, rows, OwnerOf, One)
    ensures Sum(StatsFor(rows, os), OpenCountOf) == GroupTotal(os, rows, OwnerOf, FlagOf)
    ensures Sum(StatsFor(rows, os), InformalTotalOf) == GroupTotal(os, rows, OwnerOf, InformalOf)
  {
    if os != [] {
      StatsForTotals(rows, os[1..]);
      assert StatsFor(rows, os)[1..] == StatsFor(rows, os[1..]);
      FilterKeyedCount(rows, OwnerOf, os[0]);
      FilterKeyedSum(rows, OwnerOf, os[0], FlagOf);
      FilterKeyedSum(rows, OwnerOf, os[0], InformalOf);
    }
  }

  /** The organisation rows partition df_strong: the strong counts add up
      to the number of strong rows, and the open-by-default counts and
      informal-request totals add up to the column sums. */
  lemma OrgStatsTotals(rows: seq<StrongRow>)
    ensures Sum(OrgStats(rows), StrongCountOf) == |rows|
    ensures Sum(OrgStats(rows), OpenCountOf) == Sum(rows, FlagOf)
    ensures Sum(OrgStats(rows), InformalTotalOf) == Sum(rows, InformalOf)
  {
    var os := SortedDistinct(Owners(rows), StrLess);
    StrLessIsStrictTotalOrder();
    SortedDistinctCorrect(Owners(rows), StrLess);
    SortedDistinctElements(os, StrLess);
    forall e | e in rows ensures OwnerOf(e) in os { }
    StatsForTotals(rows, os);
    PartitionSum(os, rows, OwnerOf, One);
    PartitionSum(os, rows, OwnerOf, FlagOf);
    PartitionSum(os, rows, OwnerOf, InformalOf);
    SumOne(rows);
  }

  predicate HasStat(st: seq<OrgStat>, o: string) {
    exists i :: 0 <= i < |st| && st[i].owner == o
  }

  predicate HasRows(rows: seq<StrongRow>, o: string) {
    exists e :: e in rows && e.row.owner == o
  }

  /** One row per organisation that has strong rows, in ascending order;
      neither distinct count exceeds the organisation's row count. */
  lemma OrgStatsShape(rows: seq<StrongRow>)
    ensures var st := OrgStats(rows);
      && (forall i, j :: 0 <= i < j < |st| ==> StrLess(st[i].owner, st[j].owner))
      && (forall o :: HasStat(st, o) <==> HasRows(rows, o))
      && (forall s :: s in st ==> s.uniqueTracking <= s.strongCount && s.uniqueRequest <= s.strongCount)
  {
    var os := SortedDistinct(Owners(rows), StrLess);
    var st := OrgStats(rows);
    StrLessIsStrictTotalOrder();
    SortedDistinctCorrect(Owners(rows), StrLess);
    forall o | HasRows(rows, o) ensures HasStat(st, o) {
      assert o in os;
      var i :| 0 <= i < |os| && os[i] == o;
      assert st[i].owner == o;
    }
    forall o | HasStat(st, o) ensures HasRows(rows, o) {
      var i :| 0 <= i < |st| && st[i].owner == o;
      assert os[i] == o && os[i] in os;
    }
    forall s | s in st ensures s.uniqueTracking <= s.strongCount && s.uniqueRequest <= s.strongCount {
      var i :| 0 <= i < |st| && st[i] == s;
      var g := OrgRows(rows, os[i]);
      SortedDistinctLength(Trackings(g), StrLess);
      SortedDistinctLength(Requests(g), StrLess);
    }
  }

  // ---------------------------------------------------------------------
  // weak_stats
  // ---------------------------------------------------------------------

  /** One row of weak_stats: the count of each placeholder, in WeakTokens
      order, and their total. */
  datatype WeakStat = WeakStat(owner: string, counts: seq<int>, total: int)

  function MatchOwner(m: MatchRow): string { m.owner }
  function MatchTracking(m: MatchRow): string { m.tracking }
  function Count(n: int): int { n }

  function MatchOwners(rows: seq<MatchRow>): (os: seq<string>)
    ensures forall o :: o in os <==> exists m :: m in rows && m.owner == o
  {
    if rows == [] then []
    else
      assert forall m :: m in rows ==> m == rows[0] || m in rows[1..];
      [rows[0].owner] + MatchOwners(rows[1..])
  }

  /** value_counts of the exact (original-case) tracking numbers ks. */
  function TokenCounts(rows: seq<MatchRow>, ks: seq<string>): (cs: seq<int>)
    ensures |cs| == |ks|
  {
    seq(|ks|, i requires 0 <= i < |ks| => |Filter(rows, KeyIs(MatchTracking, ks[i]))|)
  }

  function WeakStatOf(weak: seq<MatchRow>, o: string): WeakStat {
    var cs := TokenCounts(Filter(weak, KeyIs(MatchOwner, o)), WeakTokens);
    WeakStat(o, cs, Sum(cs, Count))
  }

  /** df_weak.groupby("owner_org")["tracking_number"].value_counts()
      .unstack(fill_value=0)[weak_tokens] with its "total" column. */
  function WeakStats(weak: seq<MatchRow>): (r: seq<WeakStat>)
  {
    var os := SortedDistinct(MatchOwners(weak), StrLess);
    seq(|os|, i requires 0 <= i < |os| => WeakStatOf(weak, os[i]))
  }

  lemma {:induction false} TokenCountsTotal(rows: seq<MatchRow>, ks: seq<string>)
    ensures Sum(TokenCounts(rows, ks), Count) == GroupTotal(ks, rows, MatchTracking, One)
  {
    if ks != [] {
      TokenCountsTotal(rows, ks[1..]);
      assert TokenCounts(rows, ks)[1..] == TokenCounts(rows, ks[1..]);
      FilterKeyedCount(rows, MatchTracking, ks[0]);
    }
  }

  lemma WeakTokensDistinct()
    ensures NoDuplicates(WeakTokens)
  {
    var w := WeakTokens;
    assert w[0][0] == 'c' && w[1][0] == '1' && w[2][0] == '0' && w[3][0] == 'N';
    assert w[4][0] == 'n' && w[5][0] == '-' && w[6][0] == 'R' && w[7][0] == '[' && w[8][0] == 'T';
  }

  /** The total of an organisation is the sum of its nine token counts, and
      is at most its number of weak rows: a placeholder written in another
      case or with padding (" NA", "Na") is weak but counted in no column. */
  lemma WeakStatTotal(weak: seq<MatchRow>, o: string)
    ensures var s := WeakStatOf(weak, o);
      && |s.counts| == 9
      && s.total == Sum(s.counts, Count)
      && s.total <= |Filter(weak, KeyIs(MatchOwner, o))|
  {
    var g := Filter(weak, KeyIs(MatchOwner, o));
    TokenCountsTotal(g, WeakTokens);
    WeakTokensDistinct();
    GroupTotalAtMost(WeakTokens, g, MatchTracking, One);
    SumOne(g);
  }

  /** "Na" differs from each of the nine column names. */
  lemma NaNotToken()
    ensures "Na" !in WeakTokens
  {
    var t := "Na";
    assert t[0] == 'N' && t[1] == 'a';
    var w := WeakTokens;
    assert w[0][0] == 'c' && w[1][0] == '1' && w[2][0] == '0' && w[5][0] == '-';
    assert w[6][0] == 'R' && w[7][0] == '[' && w[8][0] == 'T';
    assert w[3][1] == 'A' && w[4][0] == 'n';
  }

  /** A row whose tracking number is none of the column names adds nothing
      to any column. */
  lemma {:induction false} TokenCountsOther(m: MatchRow, ks: seq<string>)
    requires m.tracking !in ks
    ensures Sum(TokenCounts([m], ks), Count) == 0
  {
    TokenCountsTotal([m], ks);
    OccurrencesAbsent(ks, m.tracking);
    GroupTotalCons(ks, m, [], MatchTracking, One);
    GroupTotalEmpty(ks, MatchTracking, One);
    assert [m] + [] == [m];
  }

  /** A weak row whose placeholder is written "Na" is counted in none of
      the nine columns. */
  lemma WeakStatExactCase(m: MatchRow)
    requires m.tracking == "Na"
    ensures WeakStatOf([m], m.owner).total == 0
  {
    assert Filter([m], KeyIs(MatchOwner, m.owner)) == [m];
    NaNotToken();
    TokenCountsOther(m, WeakTokens);
  }
}

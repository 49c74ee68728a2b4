/** Stage 6 of build_db.py: the strong matches joined to the DocumentCloud
    table, first on (owner_org, request_number), then, when some row still
    has no URL, on (owner_org, tracking_number) with the second result used
    only for the rows the first left blank. */
module Enrichment {
  import opened Wrappers
  import opened Text
  import opened Seqs
  import opened Matcher
  import opened DocCloud

  /** A DocumentCloud URL and flag as the join carries them. */
  datatype Link = Link(url: string, flag: int)

  /** A strong row during the join, with the link it has so far (None for NaN). */
  datatype Joined = Joined(row: MatchRow, link: Option<Link>)

  /** A strong row after stage 6. */
  datatype StrongRow = StrongRow(row: MatchRow, url: string, flag: int)

  function LinkOf(d: DcRow): Link {
    Link(d.url, d.flag)
  }

  /** The DocumentCloud rows that share the row's owner_org and request_number. */
  function ByRequest(dc: seq<DcRow>, m: MatchRow): (ds: seq<DcRow>)
    ensures forall d :: d in ds <==> d in dc && d.owner == m.owner && d.request == m.request
  {
    Filter(dc, (d: DcRow) => d.owner == m.owner && d.request == m.request)
  }

  /** The DocumentCloud rows that share the row's owner_org and tracking_number. */
  function ByTracking(dc: seq<DcRow>, m: MatchRow): (ds: seq<DcRow>)
    ensures forall d :: d in ds <==> d in dc && d.owner == m.owner && d.tracking == m.tracking
  {
    Filter(dc, (d: DcRow) => d.owner == m.owner && d.tracking == m.tracking)
  }

  /** One left row of a left merge: once per matching right row, or once
      with NaN when none matches. */
  function Attach(m: MatchRow, ds: seq<DcRow>): (js: seq<Joined>)
    ensures |js| == if ds == [] then 1 else |ds|
    ensures ds == [] ==> js == [Joined(m, None)]
    ensures forall i :: 0 <= i < |ds| ==> js[i] == Joined(m, Some(LinkOf(ds[i])))
  {
    if ds == [] then [Joined(m, None)]
    else seq(|ds|, i requires 0 <= i < |ds| => Joined(m, Some(LinkOf(ds[i]))))
  }

  /** df_strong.merge(df_dc[...], on=["owner_org", "request_number"], how="left") */
  function PrimaryJoin(strong: seq<MatchRow>, dc: seq<DcRow>): seq<Joined> {
    if strong == [] then []
    else Attach(strong[0], ByRequest(dc, strong[0])) + PrimaryJoin(strong[1..], dc)
  }

  /** mask_missing: no URL, or one that is blank after stripping. */
  predicate Missing(j: Joined) {
    j.link.None? || Trim(j.link.value.url) == ""
  }

  /** One row of the second merge on (owner_org, tracking_number): the row is
      repeated once per match like any left merge; a row that had a URL
      keeps it, a row without takes the match's URL and flag (NaN when
      there is no match). */
  function Fallback(p: Joined, dc: seq<DcRow>): seq<Joined> {
    var ds := ByTracking(dc, p.row);
    if !Missing(p) then (if ds == [] then [p] else seq(|ds|, i requires 0 <= i < |ds| => p))
    else Attach(p.row, ds)
  }

  function FallbackJoin(ps: seq<Joined>, dc: seq<DcRow>): seq<Joined> {
    if ps == [] then [] else Fallback(ps[0], dc) + FallbackJoin(ps[1..], dc)
  }

  /** fillna("") on the URL and fillna(0).astype(int) on the flag. */
  function Finalize(j: Joined): StrongRow {
    match j.link
    case None => StrongRow(j.row, "", 0)
    case Some(l) => StrongRow(j.row, l.url, l.flag)
  }

  function FinalizeAll(js: seq<Joined>): (r: seq<StrongRow>)
    ensures |r| == |js|
    ensures forall i :: 0 <= i < |js| ==> r[i] == Finalize(js[i])
  {
    seq(|js|, i requires 0 <= i < |js| => Finalize(js[i]))
  }

  predicate AnyMissing(ps: seq<Joined>) {
    exists j :: j in ps && Missing(j)
  }

  /** df_strong after stage 6. With an empty DocumentCloud table every row
      gets "" and 0. */
  function Enrich(strong: seq<MatchRow>, dc: seq<DcRow>): seq<StrongRow> {
    if dc == [] then seq(|strong|, i requires 0 <= i < |strong| => StrongRow(strong[i], "", 0))
    else
      var ps := PrimaryJoin(strong, dc);
      FinalizeAll(if AnyMissing(ps) then FallbackJoin(ps, dc) else ps)
  }

  // ---------------------------------------------------------------------
  // Properties
  // ---------------------------------------------------------------------

  /** An empty DocumentCloud table leaves every strong row unresolved. */
  lemma EnrichEmptyDc(strong: seq<MatchRow>)
    ensures |Enrich(strong, [])| == |strong|
    ensures forall i :: 0 <= i < |strong| ==> Enrich(strong, [])[i] == StrongRow(strong[i], "", 0)
  {
  }

  /** l is the link of a DocumentCloud row with m's owner_org and request_number. */
  predicate LinkByRequest(l: Link, m: MatchRow, dc: seq<DcRow>) {
    exists d :: d in dc && d.owner == m.owner && d.request == m.request && LinkOf(d) == l
  }

  /** l is the link of a DocumentCloud row with m's owner_org and tracking_number. */
  predicate LinkByTracking(l: Link, m: MatchRow, dc: seq<DcRow>) {
    exists d :: d in dc && d.owner == m.owner && d.tracking == m.tracking && LinkOf(d) == l
  }

  /** The primary merge keeps every strong row at least once; each joined
      row is a strong row, with NaN or the link of a DocumentCloud row that
      has its owner_org and request_number. */
  lemma {:induction false} PrimaryJoinSound(strong: seq<MatchRow>, dc: seq<DcRow>)
    ensures |PrimaryJoin(strong, dc)| >= |strong|
    ensures forall j :: j in PrimaryJoin(strong, dc) ==>
      j.row in strong && (j.link.None? || LinkByRequest(j.link.value, j.row, dc))
  {
    if strong != [] {
      PrimaryJoinSound(strong[1..], dc);
      var m := strong[0];
      var ds := ByRequest(dc, m);
      var head := Attach(m, ds);
      forall j | j in head
        ensures j.row in strong
        ensures j.link.None? || LinkByRequest(j.link.value, j.row, dc)
      {
        var i :| 0 <= i < |head| && head[i] == j;
        if ds != [] { assert ds[i] in ds; }
      }
    }
  }

  /** The primary merge loses no strong row and no match: every strong row
      appears, with NaN when no DocumentCloud row shares its owner_org and
      request_number, and once with each such row's link otherwise. */
  lemma {:induction false} PrimaryJoinComplete(strong: seq<MatchRow>, dc: seq<DcRow>)
    ensures forall m :: m in strong ==> exists j :: j in PrimaryJoin(strong, dc) && j.row == m
    ensures forall m :: m in strong && ByRequest(dc, m) == [] ==> Joined(m, None) in PrimaryJoin(strong, dc)
    ensures forall m, d :: m in strong && d in ByRequest(dc, m) ==> Joined(m, Some(LinkOf(d))) in PrimaryJoin(strong, dc)
  {
    if strong != [] {
      var rest := strong[1..];
      PrimaryJoinComplete(rest, dc);
      var m0 := strong[0];
      var head := Attach(m0, ByRequest(dc, m0));
      var all := PrimaryJoin(strong, dc);
      assert all == head + PrimaryJoin(rest, dc);
      forall m | m in strong ensures exists j :: j in all && j.row == m {
        if m == m0 {
          assert head[0] in all;
        } else {
          assert m in rest;
        }
      }
      forall m, d | m in strong && d in ByRequest(dc, m) ensures Joined(m, Some(LinkOf(d))) in all {
        if m == m0 {
          var ds := ByRequest(dc, m0);
          var i :| 0 <= i < |ds| && ds[i] == d;
          assert head[i] in all;
        } else {
          assert m in rest;
        }
      }
    }
  }

  /** A DocumentCloud row whose metadata had no request_number carries ""
      and still joins every strong row of the same owner_org with a blank
      request_number: the merge compares the empty strings as keys. */
  lemma BlankRequestJoins(strong: seq<MatchRow>, dc: seq<DcRow>, m: MatchRow, d: DcRow)
    requires m in strong && d in dc
    requires d.owner == m.owner && d.request == "" && m.request == ""
    ensures Joined(m, Some(LinkOf(d))) in PrimaryJoin(strong, dc)
  {
    PrimaryJoinComplete(strong, dc);
    assert d in ByRequest(dc, m);
  }

  /** q is a row the fallback made from p. */
  predicate FallbackOf(q: Joined, p: Joined, dc: seq<DcRow>) {
    && q.row == p.row
    && (!Missing(p) ==> q == p)
    && (Missing(p) ==> q.link.None? || LinkByTracking(q.link.value, q.row, dc))
  }

  /** Where the value of a fallback row comes from: the row's own primary
      link when it was not missing, otherwise NaN or the link of a
      DocumentCloud row with its owner_org and tracking_number. */
  lemma FallbackHead(p: Joined, dc: seq<DcRow>)
    ensures forall q :: q in Fallback(p, dc) ==> FallbackOf(q, p, dc)
  {
    var ds := ByTracking(dc, p.row);
    var head := Fallback(p, dc);
    forall q | q in head ensures FallbackOf(q, p, dc) {
      var i :| 0 <= i < |head| && head[i] == q;
      if ds != [] { assert ds[i] in ds; }
    }
  }

  lemma {:induction false} FallbackJoinSound(ps: seq<Joined>, dc: seq<DcRow>)
    ensures forall q :: q in FallbackJoin(ps, dc) ==> exists p :: p in ps && FallbackOf(q, p, dc)
  {
    if ps != [] {
      FallbackJoinSound(ps[1..], dc);
      FallbackHead(ps[0], dc);
      var head := Fallback(ps[0], dc);
      var rest := FallbackJoin(ps[1..], dc);
      assert FallbackJoin(ps, dc) == head + rest;
      forall q | q in head + rest ensures exists p :: p in ps && FallbackOf(q, p, dc) {
        if q in head {
          assert ps[0] in ps && FallbackOf(q, ps[0], dc);
        } else {
          var p :| p in ps[1..] && FallbackOf(q, p, dc);
          assert p in ps;
        }
      }
    }
  }

  /** e's URL and flag are those of a DocumentCloud row with the same
      owner_org and request_number and a non-blank URL, or of one with the
      same owner_org and tracking_number, or "" and 0. */
  predicate LinkExplained(e: StrongRow, dc: seq<DcRow>) {
    || (Trim(e.url) != "" && LinkByRequest(Link(e.url, e.flag), e.row, dc))
    || LinkByTracking(Link(e.url, e.flag), e.row, dc)
    || (e.url == "" && e.flag == 0)
  }

  lemma FinalizeExplained(q: Joined, p: Joined, dc: seq<DcRow>)
    requires p.link.None? || LinkByRequest(p.link.value, p.row, dc)
    requires FallbackOf(q, p, dc)
    ensures LinkExplained(Finalize(q), dc)
  {
  }

  /** Every row of stage 6 is a strong row whose URL and flag are
      explained by one of the two joins or are the defaults. */
  lemma EnrichSound(strong: seq<MatchRow>, dc: seq<DcRow>)
    ensures forall e :: e in Enrich(strong, dc) ==> e.row in strong && LinkExplained(e, dc)
  {
    if dc != [] {
      var ps := PrimaryJoin(strong, dc);
      PrimaryJoinSound(strong, dc);
      var qs := if AnyMissing(ps) then FallbackJoin(ps, dc) else ps;
      var out := FinalizeAll(qs);
      FallbackJoinSound(ps, dc);
      forall e | e in out ensures e.row in strong && LinkExplained(e, dc) {
        var i :| 0 <= i < |out| && out[i] == e;
        var q := qs[i];
        assert q in qs;
        if AnyMissing(ps) {
          var p :| p in ps && FallbackOf(q, p, dc);
          FinalizeExplained(q, p, dc);
        } else {
          assert !Missing(q);
          FinalizeExplained(q, q, dc);
        }
      }
    }
  }

  /** The assumption under which the fallback is well defined: no strong
      row meets two DocumentCloud rows on (owner_org, tracking_number). */
  predicate AtMostOneByTracking(strong: seq<MatchRow>, dc: seq<DcRow>) {
    forall m :: m in strong ==> |ByTracking(dc, m)| <= 1
  }

  /** The value a primary row ends with when the fallback adds no rows. */
  function Resolved(p: Joined, dc: seq<DcRow>): Joined {
    var ds := ByTracking(dc, p.row);
    if !Missing(p) then p
    else if ds == [] then Joined(p.row, None)
    else Joined(p.row, Some(LinkOf(ds[0])))
  }

  /** A row with at most one tracking-number match is not repeated. */
  lemma FallbackSingle(p: Joined, dc: seq<DcRow>)
    requires |ByTracking(dc, p.row)| <= 1
    ensures Fallback(p, dc) == [Resolved(p, dc)]
  {
  }

  lemma {:induction false} FallbackJoinAligned(ps: seq<Joined>, dc: seq<DcRow>)
    requires forall p :: p in ps ==> |ByTracking(dc, p.row)| <= 1
    ensures |FallbackJoin(ps, dc)| == |ps|
    ensures forall i :: 0 <= i < |ps| ==> FallbackJoin(ps, dc)[i] == Resolved(ps[i], dc)
  {
    if ps != [] {
      assert ps[0] in ps;
      FallbackSingle(ps[0], dc);
      var rest := FallbackJoin(ps[1..], dc);
      assert forall p :: p in ps[1..] ==> p in ps;
      FallbackJoinAligned(ps[1..], dc);
      var out := FallbackJoin(ps, dc);
      assert out == [Resolved(ps[0], dc)] + rest;
      forall i | 0 <= i < |ps| ensures out[i] == Resolved(ps[i], dc) {
        if i > 0 { assert out[i] == rest[i - 1] && ps[i] == ps[1..][i - 1]; }
      }
    }
  }

  /** e is what stage 6 makes of the primary row p: p's link when it was not
      missing, else the link of its one tracking-number match, else "" and 0. */
  predicate FilledFrom(e: StrongRow, p: Joined, dc: seq<DcRow>) {
    var ds := ByTracking(dc, p.row);
    && e.row == p.row
    && (!Missing(p) ==> e.url == p.link.value.url && e.flag == p.link.value.flag)
    && (Missing(p) && ds != [] ==> e.url == ds[0].url && e.flag == ds[0].flag)
    && (Missing(p) && ds == [] ==> e.url == "" && e.flag == 0)
  }

  /** Under that assumption stage 6 keeps the rows of the primary merge one
      for one: a row whose primary URL is not blank keeps its URL and flag,
      a blank or missing one takes its tracking-number match, and "" and 0
      are left where neither join found anything. */
  lemma EnrichFillsOnlyBlanks(strong: seq<MatchRow>, dc: seq<DcRow>)
    requires dc != [] && AtMostOneByTracking(strong, dc)
    ensures var ps := PrimaryJoin(strong, dc);
      var out := Enrich(strong, dc);
      && |out| == |ps|
      && forall i :: 0 <= i < |ps| ==> FilledFrom(out[i], ps[i], dc)
  {
    var ps := PrimaryJoin(strong, dc);
    var out := Enrich(strong, dc);
    PrimaryJoinSound(strong, dc);
    if AnyMissing(ps) {
      FallbackJoinAligned(ps, dc);
      forall i | 0 <= i < |ps| ensures FilledFrom(out[i], ps[i], dc) {
        assert out[i] == Finalize(Resolved(ps[i], dc));
      }
    } else {
      forall i | 0 <= i < |ps| ensures FilledFrom(out[i], ps[i], dc) {
        assert ps[i] in ps && !Missing(ps[i]);
        assert out[i] == Finalize(ps[i]);
      }
    }
  }
}

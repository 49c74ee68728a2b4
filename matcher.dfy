/** Stage 4 of build_db.py: the grouped fuzzy matcher. For each owner_org
    present in both A and the merged BC table, the organisation's
    lower-cased tracking numbers are searched, 400 at a time, as literal
    substrings of each BC row's haystack. The regular expression built from
    an escaped alternation finds, at the leftmost position where any
    candidate occurs, the first candidate of the chunk that occurs there.
    The hit is mapped back to an original tracking number through `lut`, and
    exact duplicate output rows are dropped. */
module Matcher {
  import opened Wrappers
  import opened Text
  import opened Sorting
  import opened Seqs
  import opened Tables
  import opened Merge

  /** One row of df_out. */
  datatype MatchRow = MatchRow(
    owner: string, tracking: string, request: string, informalSum: int,
    uniqueIdentifiers: string, summaryEn: string, summaryFr: string)

  /** TN_REGEX_CHUNK */
  const TnRegexChunk: nat := 400

  // ---------------------------------------------------------------------
  // iter_chunks
  // ---------------------------------------------------------------------

  /** items[i:i + size] for i in range(0, len(items), size) */
  function Chunks<T>(items: seq<T>, size: nat): (cs: seq<seq<T>>)
    requires size >= 1
    decreases |items|
  {
    if items == [] then []
    else if |items| <= size then [items]
    else [items[..size]] + Chunks(items[size..], size)
  }

  /** The chunks put back together are the input. */
  lemma {:induction false} ChunksFlatten<T>(items: seq<T>, size: nat)
    requires size >= 1
    ensures Flatten(Chunks(items, size)) == items
    decreases |items|
  {
    if items != [] && |items| > size {
      ChunksFlatten(items[size..], size);
      assert items == items[..size] + items[size..];
    }
  }

  /** Every chunk holds between 1 and size items, and only the last may be
      shorter than size. */
  lemma {:induction false} ChunksSizes<T>(items: seq<T>, size: nat)
    requires size >= 1
    ensures var cs := Chunks(items, size);
      && (forall i :: 0 <= i < |cs| ==> 1 <= |cs[i]| <= size)
      && (forall i :: 0 <= i < |cs| - 1 ==> |cs[i]| == size)
    decreases |items|
  {
    if items != [] && |items| > size {
      ChunksSizes(items[size..], size);
      var cs := Chunks(items, size);
      assert cs[1..] == Chunks(items[size..], size);
    }
  }

  // ---------------------------------------------------------------------
  // The candidates of one organisation and the lut
  // ---------------------------------------------------------------------

  /** dfA[["tn_lc", "tracking_number"]] for the rows of one organisation. */
  function PairsOf(aRows: seq<ARow>, org: string): (ps: seq<(string, string)>)
    ensures forall p :: p in ps <==> exists a :: a in aRows && a.owner == org && p == (Lower(a.tracking), a.tracking)
  {
    if aRows == [] then []
    else
      var rest := PairsOf(aRows[1..], org);
      assert forall a :: a in aRows ==> a == aRows[0] || a in aRows[1..];
      (if aRows[0].owner == org then [(Lower(aRows[0].tracking), aRows[0].tracking)] else []) + rest
  }

  /** a_org: the organisation's (tn_lc, tracking_number) pairs after drop_duplicates(). */
  function OrgPairs(aRows: seq<ARow>, org: string): seq<(string, string)> {
    Distinct(PairsOf(aRows, org))
  }

  /** [t for t in a_org["tn_lc"] if t]: the non-empty lower-case candidates. */
  function Candidates(ps: seq<(string, string)>): (ts: seq<string>)
    ensures forall t :: t in ts <==> t != "" && exists p :: p in ps && p.0 == t
  {
    if ps == [] then []
    else
      var rest := Candidates(ps[1..]);
      assert forall p :: p in ps ==> p == ps[0] || p in ps[1..];
      (if ps[0].0 != "" then [ps[0].0] else []) + rest
  }

  // ---------------------------------------------------------------------
  // The alternation search
  // ---------------------------------------------------------------------

  /** The index of the first candidate, from index i on, that occurs at p. */
  function FirstAt(h: string, chunk: seq<string>, p: int, i: nat): (r: Option<nat>)
    requires i <= |chunk|
    ensures r.Some? ==> i <= r.value < |chunk| && OccursAt(h, chunk[r.value], p)
    ensures r.Some? ==> forall j :: i <= j < r.value ==> !OccursAt(h, chunk[j], p)
    ensures r.None? ==> forall j :: i <= j < |chunk| ==> !OccursAt(h, chunk[j], p)
    decreases |chunk| - i
  {
    if i == |chunk| then None
    else if OccursAt(h, chunk[i], p) then Some(i)
    else FirstAt(h, chunk, p, i + 1)
  }

  /** The regular-expression search from position k: the leftmost position
      where some candidate occurs, with the first such candidate in chunk
      order (Python's alternation is ordered, not longest-match). */
  function ScanFrom(h: string, chunk: seq<string>, k: nat): (r: Option<(nat, nat)>)
    ensures r.Some? ==> k <= r.value.0 && r.value.1 < |chunk| && OccursAt(h, chunk[r.value.1], r.value.0)
    ensures r.Some? ==> forall p, j :: k <= p < r.value.0 && 0 <= j < |chunk| ==> !OccursAt(h, chunk[j], p)
    ensures r.Some? ==> forall j :: 0 <= j < r.value.1 ==> !OccursAt(h, chunk[j], r.value.0)
    ensures r.None? ==> forall p, j :: k <= p && 0 <= j < |chunk| ==> !OccursAt(h, chunk[j], p)
    decreases |h| + 1 - k
  {
    if k > |h| then None
    else
      match FirstAt(h, chunk, k, 0)
      case Some(j) => Some((k, j))
      case None => ScanFrom(h, chunk, k + 1)
  }

  /** str.extract("(" + pattern + ")"): the candidate the search hits, or
      None where str.contains(pattern) is false. */
  function Extract(h: string, chunk: seq<string>): (r: Option<string>)
    ensures r.Some? ==> r.value in chunk && Contains(h, r.value)
    ensures r.None? <==> forall t :: t in chunk ==> !Contains(h, t)
  {
    match ScanFrom(h, chunk, 0)
    case Some((p, j)) =>
      ContainsIff(h, chunk[j]);
      Some(chunk[j])
    case None =>
      assert forall t :: t in chunk ==> !Contains(h, t) by {
        forall t | t in chunk ensures !Contains(h, t) { ContainsIff(h, t); }
      }
      None
  }

  /** At the leftmost hit the earlier candidate wins, even when a later,
      longer one occurs at the same place ("ab-1" before "ab-12"). */
  lemma ExtractPrefersEarlierCandidate(h: string, a: string, b: string, p: nat)
    requires OccursAt(h, a, p) && OccursAt(h, b, p)
    requires forall q :: 0 <= q < p ==> !OccursAt(h, a, q) && !OccursAt(h, b, q)
    ensures Extract(h, [a, b]) == Some(a)
  {
    var c := [a, b];
    assert c[0] == a && c[1] == b;
    var r := ScanFrom(h, c, 0);
    assert OccursAt(h, c[0], p);
    assert r.Some?;
    var q, j := r.value.0, r.value.1;
    assert q <= p;
    assert OccursAt(h, c[j], q);
    assert q == p;
    assert j == 0;
  }

  // ---------------------------------------------------------------------
  // Matching one chunk, one organisation, all organisations
  // ---------------------------------------------------------------------

  /** The output row for BC row r hit by candidate t. */
  function MatchFor(r: BCRow, t: string, lut: map<string, string>): MatchRow {
    MatchRow(r.owner, if t in lut then lut[t] else t, r.request, r.informalSum,
             r.uniqueIdentifiers, r.summaryEn, r.summaryFr)
  }

  /** sub[[...]] for one chunk: the masked rows in order, each with its hit. */
  function ChunkMatches(rows: seq<BCRow>, chunk: seq<string>, lut: map<string, string>): seq<MatchRow> {
    if rows == [] then []
    else
      var e := Extract(rows[0].haystack, chunk);
      (if e.Some? then [MatchFor(rows[0], e.value, lut)] else []) + ChunkMatches(rows[1..], chunk, lut)
  }

  /** Every row of a chunk's block is a masked row with a candidate it contains. */
  lemma {:induction false} ChunkMatchesSound(rows: seq<BCRow>, chunk: seq<string>, lut: map<string, string>)
    ensures forall m :: m in ChunkMatches(rows, chunk, lut) ==>
      exists r, t :: r in rows && t in chunk && Contains(r.haystack, t) && m == MatchFor(r, t, lut)
  {
    if rows != [] {
      ChunkMatchesSound(rows[1..], chunk, lut);
      assert forall r :: r in rows[1..] ==> r in rows;
    }
  }

  /** A row containing some candidate of the chunk is in the chunk's block. */
  lemma {:induction false} ChunkMatchesHit(rows: seq<BCRow>, chunk: seq<string>, lut: map<string, string>, r: BCRow, t: string)
    returns (t': string)
    requires r in rows && t in chunk && Contains(r.haystack, t)
    ensures t' in chunk && MatchFor(r, t', lut) in ChunkMatches(rows, chunk, lut)
  {
    var e := Extract(rows[0].haystack, chunk);
    var head := if e.Some? then [MatchFor(rows[0], e.value, lut)] else [];
    assert ChunkMatches(rows, chunk, lut) == head + ChunkMatches(rows[1..], chunk, lut);
    if r == rows[0] {
      t' := e.value;
    } else {
      t' := ChunkMatchesHit(rows[1..], chunk, lut, r, t);
    }
  }

  function OrgRows(bc: seq<BCRow>, org: string): seq<BCRow> {
    Filter(bc, (r: BCRow) => r.owner == org)
  }

  /** pd.concat(matched_blocks) for the chunks given. */
  function BlocksFor(rows: seq<BCRow>, chunks: seq<seq<string>>, lut: map<string, string>): seq<MatchRow> {
    if chunks == [] then []
    else BlocksFor(rows, chunks[..|chunks| - 1], lut) + ChunkMatches(rows, chunks[|chunks| - 1], lut)
  }

  /** The rows one organisation contributes. */
  function OrgMatches(aRows: seq<ARow>, bc: seq<BCRow>, org: string): seq<MatchRow> {
    var ps := OrgPairs(aRows, org);
    var rows := OrgRows(bc, org);
    var tns := Candidates(ps);
    if ps == [] || rows == [] || tns == [] then []
    else BlocksFor(rows, Chunks(tns, TnRegexChunk), DictOf(ps))
  }

  /** The owner_org values of a table. */
  function AOwners(aRows: seq<ARow>): (os: seq<string>)
    ensures forall o :: o in os <==> exists a :: a in aRows && a.owner == o
  {
    if aRows == [] then []
    else
      var rest := AOwners(aRows[1..]);
      assert forall a :: a in aRows ==> a == aRows[0] || a in aRows[1..];
      [aRows[0].owner] + rest
  }

  predicate InBC(bc: seq<BCRow>, o: string) {
    exists r :: r in bc && r.owner == o
  }

  /** sorted(set(dfA["owner_org"]).intersection(set(dfBC["owner_org"]))) */
  function Orgs(aRows: seq<ARow>, bc: seq<BCRow>): seq<string> {
    SortedDistinct(Filter(AOwners(aRows), o => InBC(bc, o)), StrLess)
  }

  function MatchesFor(aRows: seq<ARow>, bc: seq<BCRow>, orgs: seq<string>): seq<MatchRow> {
    if orgs == [] then []
    else MatchesFor(aRows, bc, orgs[..|orgs| - 1]) + OrgMatches(aRows, bc, orgs[|orgs| - 1])
  }

  /** pd.concat(results) before drop_duplicates(). */
  function AllMatches(aRows: seq<ARow>, bc: seq<BCRow>): seq<MatchRow> {
    MatchesFor(aRows, bc, Orgs(aRows, bc))
  }

  // ---------------------------------------------------------------------
  // The loop of main() and what it produces
  // ---------------------------------------------------------------------

  // ---------------------------------------------------------------------
  // Soundness and completeness of the matcher
  // ---------------------------------------------------------------------

  /** m carries BC row r's columns unchanged. */
  predicate CopiedFrom(m: MatchRow, r: BCRow) {
    && m.owner == r.owner && m.request == r.request && m.informalSum == r.informalSum
    && m.uniqueIdentifiers == r.uniqueIdentifiers && m.summaryEn == r.summaryEn && m.summaryFr == r.summaryFr
  }

  /** What justifies an output row: an A row of the same organisation whose
      tracking number it reports, and a BC row of that organisation whose
      columns it copies and whose haystack contains the lower-cased,
      non-empty tracking number. */
  predicate Explained(m: MatchRow, aRows: seq<ARow>, bc: seq<BCRow>) {
    exists a, r :: a in aRows && r in bc && a.owner == m.owner && a.tracking == m.tracking
      && CopiedFrom(m, r) && Lower(m.tracking) != "" && Contains(r.haystack, Lower(m.tracking))
  }

  lemma {:induction false} BlocksForSound(rows: seq<BCRow>, chunks: seq<seq<string>>, lut: map<string, string>, tns: seq<string>)
    requires forall c, t :: c in chunks && t in c ==> t in tns
    ensures forall m :: m in BlocksFor(rows, chunks, lut) ==>
      exists r, t :: r in rows && t in tns && Contains(r.haystack, t) && m == MatchFor(r, t, lut)
  {
    if chunks != [] {
      var init := chunks[..|chunks| - 1];
      assert forall c :: c in init ==> c in chunks;
      BlocksForSound(rows, init, lut, tns);
      ChunkMatchesSound(rows, chunks[|chunks| - 1], lut);
    }
  }

  lemma {:induction false} BlocksForComplete(rows: seq<BCRow>, chunks: seq<seq<string>>, lut: map<string, string>,
                                             r: BCRow, c: seq<string>, t: string) returns (t': string)
    requires r in rows && c in chunks && t in c && Contains(r.haystack, t)
    ensures MatchFor(r, t', lut) in BlocksFor(rows, chunks, lut)
  {
    var init := chunks[..|chunks| - 1];
    var last := chunks[|chunks| - 1];
    assert BlocksFor(rows, chunks, lut) == BlocksFor(rows, init, lut) + ChunkMatches(rows, last, lut);
    if c != last {
      assert c in init;
      t' := BlocksForComplete(rows, init, lut, r, c, t);
    } else {
      t' := ChunkMatchesHit(rows, c, lut, r, t);
    }
  }

  lemma OrgMatchesSound(aRows: seq<ARow>, bc: seq<BCRow>, org: string)
    ensures forall m :: m in OrgMatches(aRows, bc, org) ==> m.owner == org && Explained(m, aRows, bc)
  {
    var ps := OrgPairs(aRows, org);
    var rows := OrgRows(bc, org);
    var tns := Candidates(ps);
    if ps != [] && rows != [] && tns != [] {
      var chunks := Chunks(tns, TnRegexChunk);
      var lut := DictOf(ps);
      ChunksFlatten(tns, TnRegexChunk);
      forall c, t | c in chunks && t in c ensures t in tns {
        var i :| 0 <= i < |chunks| && chunks[i] == c;
        FlattenMember(chunks, t);
      }
      BlocksForSound(rows, chunks, lut, tns);
      forall m | m in OrgMatches(aRows, bc, org) ensures m.owner == org && Explained(m, aRows, bc) {
        var r, t :| r in rows && t in tns && Contains(r.haystack, t) && m == MatchFor(r, t, lut);
        assert t in lut;
        assert (t, lut[t]) in PairsOf(aRows, org);
        var a :| a in aRows && a.owner == org && (t, lut[t]) == (Lower(a.tracking), a.tracking);
        assert r in bc && r.owner == org;
      }
    }
  }

  lemma {:induction false} MatchesForSound(aRows: seq<ARow>, bc: seq<BCRow>, orgs: seq<string>)
    ensures forall m :: m in MatchesFor(aRows, bc, orgs) ==> m.owner in orgs && Explained(m, aRows, bc)
  {
    if orgs != [] {
      var init := orgs[..|orgs| - 1];
      MatchesForSound(aRows, bc, init);
      OrgMatchesSound(aRows, bc, orgs[|orgs| - 1]);
      assert forall o :: o in init ==> o in orgs;
    }
  }

  lemma {:induction false} MatchesForComplete(aRows: seq<ARow>, bc: seq<BCRow>, orgs: seq<string>, o: string, m: MatchRow)
    requires o in orgs && m in OrgMatches(aRows, bc, o)
    ensures m in MatchesFor(aRows, bc, orgs)
  {
    var init := orgs[..|orgs| - 1];
    if o != orgs[|orgs| - 1] {
      assert o in init;
      MatchesForComplete(aRows, bc, init, o, m);
    }
  }

  lemma OrgsMember(aRows: seq<ARow>, bc: seq<BCRow>, o: string)
    ensures o in Orgs(aRows, bc) <==> (exists a :: a in aRows && a.owner == o) && InBC(bc, o)
  {
    StrLessIsStrictTotalOrder();
    SortedDistinctCorrect(Filter(AOwners(aRows), o => InBC(bc, o)), StrLess);
  }

  /** Every row of df_out is explained by an A row and a BC row of one
      organisation present in both tables, and no row occurs twice. */
  lemma FuzzyMatchSound(aRows: seq<ARow>, bc: seq<BCRow>)
    ensures var out := Distinct(AllMatches(aRows, bc));
      && NoDuplicates(out)
      && (forall m :: m in out ==> Explained(m, aRows, bc))
      && (forall m :: m in out ==> (exists a :: a in aRows && a.owner == m.owner) && InBC(bc, m.owner))
  {
    var orgs := Orgs(aRows, bc);
    MatchesForSound(aRows, bc, orgs);
    forall m | m in Distinct(AllMatches(aRows, bc))
      ensures (exists a :: a in aRows && a.owner == m.owner) && InBC(bc, m.owner)
    {
      OrgsMember(aRows, bc, m.owner);
    }
  }

  lemma OrgMatchesComplete(aRows: seq<ARow>, bc: seq<BCRow>, a: ARow, r: BCRow)
    requires a in aRows && r in bc && a.owner == r.owner
    requires Lower(a.tracking) != "" && Contains(r.haystack, Lower(a.tracking))
    ensures exists m :: m in OrgMatches(aRows, bc, a.owner) && CopiedFrom(m, r)
  {
    var org := a.owner;
    var ps := OrgPairs(aRows, org);
    var rows := OrgRows(bc, org);
    var tns := Candidates(ps);
    var t := Lower(a.tracking);
    assert (t, a.tracking) in PairsOf(aRows, org);
    assert (t, a.tracking) in ps;
    assert t in tns;
    assert r in rows;
    var chunks := Chunks(tns, TnRegexChunk);
    var lut := DictOf(ps);
    ChunksFlatten(tns, TnRegexChunk);
    FlattenMember(chunks, t);
    var i :| 0 <= i < |chunks| && t in chunks[i];
    var t' := BlocksForComplete(rows, chunks, lut, r, chunks[i], t);
    assert MatchFor(r, t', lut) in OrgMatches(aRows, bc, org);
  }

  /** No match is missed: whenever a BC row's haystack contains the
      lower-cased, non-empty tracking number of an A row of the same
      organisation, df_out holds a row copied from that BC row. */
  lemma FuzzyMatchComplete(aRows: seq<ARow>, bc: seq<BCRow>, a: ARow, r: BCRow)
    requires a in aRows && r in bc && a.owner == r.owner
    requires Lower(a.tracking) != "" && Contains(r.haystack, Lower(a.tracking))
    ensures exists m :: m in Distinct(AllMatches(aRows, bc)) && CopiedFrom(m, r)
  {
    OrgsMember(aRows, bc, a.owner);
    OrgMatchesComplete(aRows, bc, a, r);
    var m :| m in OrgMatches(aRows, bc, a.owner) && CopiedFrom(m, r);
    MatchesForComplete(aRows, bc, Orgs(aRows, bc), a.owner, m);
  }

  lemma BlocksForStep(rows: seq<BCRow>, chunks: seq<seq<string>>, j: nat, lut: map<string, string>)
    requires j < |chunks|
    ensures BlocksFor(rows, chunks[..j + 1], lut) == BlocksFor(rows, chunks[..j], lut) + ChunkMatches(rows, chunks[j], lut)
  {
    assert chunks[..j + 1][..j] == chunks[..j];
  }

  lemma MatchesForStep(aRows: seq<ARow>, bc: seq<BCRow>, orgs: seq<string>, i: nat)
    requires i < |orgs|
    ensures MatchesFor(aRows, bc, orgs[..i + 1]) == MatchesFor(aRows, bc, orgs[..i]) + OrgMatches(aRows, bc, orgs[i])
  {
    assert orgs[..i + 1][..i] == orgs[..i];
  }

  /** The inner loop for one organisation: the blocks it collects, which
      pd.concat joins into that organisation's rows. */
  method MatchOrganisation(aRows: seq<ARow>, bc: seq<BCRow>, org: string) returns (blocks: seq<seq<MatchRow>>)
    ensures Flatten(blocks) == OrgMatches(aRows, bc, org)
  {
    blocks := [];
    var aOrg := OrgPairs(aRows, org);
    if aOrg == [] { return; }
    var lut := DictOf(aOrg);
    var bcOrg := OrgRows(bc, org);
    if bcOrg == [] { return; }
    var tnList := Candidates(aOrg);
    if tnList == [] { return; }
    var chunks := Chunks(tnList, TnRegexChunk);
    var j := 0;
    while j < |chunks|
      invariant 0 <= j <= |chunks|
      invariant Flatten(blocks) == BlocksFor(bcOrg, chunks[..j], lut)
    {
      var sub := ChunkMatches(bcOrg, chunks[j], lut);
      BlocksForStep(bcOrg, chunks, j, lut);
      if sub != [] {
        FlattenConcat(blocks, [sub]);
        assert Flatten([sub]) == sub;
        blocks := blocks + [sub];
      }
      j := j + 1;
    }
    assert chunks[..j] == chunks;
  }

  /** The outer loop over the organisations in both tables, then
      drop_duplicates() on the concatenated results. */
  method FuzzyMatch(aRows: seq<ARow>, bc: seq<BCRow>) returns (out: seq<MatchRow>)
    ensures out == Distinct(AllMatches(aRows, bc))
  {
    var results: seq<seq<MatchRow>> := [];
    var orgs := Orgs(aRows, bc);
    var i := 0;
    while i < |orgs|
      invariant 0 <= i <= |orgs|
      invariant Flatten(results) == MatchesFor(aRows, bc, orgs[..i])
    {
      var blocks := MatchOrganisation(aRows, bc, orgs[i]);
      MatchesForStep(aRows, bc, orgs, i);
      if blocks != [] {
        FlattenConcat(results, [Flatten(blocks)]);
        assert Flatten([Flatten(blocks)]) == Flatten(blocks);
        results := results + [Flatten(blocks)];
      }
      i := i + 1;
    }
    assert orgs[..i] == orgs;
    out := Distinct(Flatten(results));
  }
}

/** main() of build_db.py: the stages in order, from the three downloaded
    tables and the DocumentCloud inputs to the tables written to SQLite. */
module Pipeline {
  import opened Wrappers
  import opened Text
  import opened Seqs
  import opened Dates
  import opened Tables
  import opened Aggregate
  import opened Merge
  import opened Matcher
  import opened Classify
  import opened DocCloud
  import opened Enrichment
  import opened Stats

  /** The tables written to the database. */
  datatype Db = Db(strongMatches: seq<StrongRow>, weakMatches: seq<MatchRow>,
                   orgStats: seq<OrgStat>, weakStats: seq<WeakStat>, docCache: seq<DcRow>)

  /** The three CKAN dumps. */
  datatype Sources = Sources(b: Csv, c: Csv, a: Csv)

  /** Stages 1-6b given the DocumentCloud table: a ValueError for B is
      raised before C and A are read, one for A after B and C are merged. */
  function Build(src: Sources, dc: seq<DcRow>): Result<Db, SchemaError> {
    match ReadB(src.b)
    case Err(e) => Err(e)
    case Ok(bRows) =>
      var bc := LeftJoin(ReadC(src.c), AggregateB(bRows));
      match ReadA(src.a)
      case Err(e) => Err(e)
      case Ok(aRows) =>
        var out := Distinct(AllMatches(aRows, bc));
        var weak := WeakRows(out);
        var strong := Enrich(StrongRows(out), dc);
        Ok(Db(strong, weak, OrgStats(strong), WeakStats(weak), dc))
  }

  /** A table lacking a needed column stops the build with that table's
      error; B is checked first. */
  lemma BuildSchemaErrors(src: Sources, dc: seq<DcRow>)
    ensures ReadB(src.b).Err? ==> Build(src, dc) == Err(SchemaError("B", MissingColumns(NeedB, src.b.columns)))
    ensures ReadB(src.b).Ok? && ReadA(src.a).Err? ==> Build(src, dc) == Err(SchemaError("A", MissingColumns(NeedA, src.a.columns)))
    ensures Build(src, dc).Ok? <==> ReadB(src.b).Ok? && ReadA(src.a).Ok?
  {
  }

  /** What every written strong match is: an A tracking number found in a
      merged C summary of the same organisation, not a placeholder, with a
      URL and flag explained by the DocumentCloud table; every weak match is
      a placeholder; the strong counts of org_stats add up to the strong
      rows. */
  lemma BuildSound(src: Sources, dc: seq<DcRow>)
    requires Build(src, dc).Ok?
    ensures var db := Build(src, dc).value;
      var bc := LeftJoin(ReadC(src.c), AggregateB(ReadB(src.b).value));
      var aRows := ReadA(src.a).value;
      && (forall e :: e in db.strongMatches ==>
            Explained(e.row, aRows, bc) && !IsWeak(e.row.tracking) && LinkExplained(e, dc))
      && (forall m :: m in db.weakMatches ==> Explained(m, aRows, bc) && IsWeak(m.tracking))
      && Sum(db.orgStats, StrongCountOf) == |db.strongMatches|
  {
    var bc := LeftJoin(ReadC(src.c), AggregateB(ReadB(src.b).value));
    var aRows := ReadA(src.a).value;
    var out := Distinct(AllMatches(aRows, bc));
    FuzzyMatchSound(aRows, bc);
    SplitPartition(out);
    EnrichSound(StrongRows(out), dc);
    OrgStatsTotals(Enrich(StrongRows(out), dc));
  }

  /** main(): the stages as the script runs them, with the DocumentCloud
      fetch (stage 6) after the match; the previous database, the
      environment, the login, the search and today's date are inputs. */
  method BuildDatabase(src: Sources, env: Env, today: Date, previous: CacheSource, loginOk: bool,
                       search: (Date, Date) -> SearchOutcome) returns (r: Result<Db, SchemaError>)
    requires Valid(today)
    ensures r == Build(src, DocCloudTable(env, today, LoadExistingCache(previous), loginOk, search))
  {
    var readB := ReadB(src.b);
    if readB.Err? {
      return Err(readB.error);
    }
    var aggs := AggregateB(readB.value);
    var bc := LeftJoin(ReadC(src.c), aggs);
    var readA := ReadA(src.a);
    if readA.Err? {
      return Err(readA.error);
    }
    var out := FuzzyMatch(readA.value, bc);
    var weak := WeakRows(out);
    var strong := StrongRows(out);
    var dc := FetchDocCloudTable(env, today, LoadExistingCache(previous), loginOk, search);
    var enriched := Enrich(strong, dc);
    r := Ok(Db(enriched, weak, OrgStats(enriched), WeakStats(weak), dc));
  }
}

/** The DocumentCloud side of build_db.py: the column clean-up applied to
    every DocumentCloud frame (sanitize_doccloud_df), the cache read back
    from the previous database, the environment settings, and the
    cache-then-fetch protocol of fetch_doccloud_table. The remote search,
    the login, today's date and the environment are parameters. */
module DocCloud {
  import opened Wrappers
  import opened Text
  import opened Seqs
  import opened Dates
  import opened Tables

  const DocCloudColumns: seq<string> :=
    ["owner_org", "request_number", "tracking_number", "open_by_default_url", "open_by_default_flag"]
  const WindowMonths: int := 3
  const DefaultSince: Date := Date(2021, 1, 1)
  const DefaultIncrementalDays: int := 100

  /** One row of the DocumentCloud table after sanitize_doccloud_df. */
  datatype DcRow = DcRow(owner: string, request: string, tracking: string, url: string, flag: int)

  /** A raw cell: missing (NaN/None), text, or an integer. */
  datatype Value = Null | Str(s: string) | Int(n: int)

  /** The columns a raw frame may carry: the five DocumentCloud ones and any other. */
  datatype Col = OwnerCol | RequestCol | TrackingCol | UrlCol | FlagCol | OtherCol(name: string)

  /** A raw row: its cells in the five DocumentCloud columns (Null where the
      row has no value); cells of other columns are never read. */
  datatype RawRow = RawRow(owner: Value, request: Value, tracking: Value, url: Value, flag: Value)

  /** A raw frame: its column set and its rows. */
  datatype Frame = Frame(columns: set<Col>, rows: seq<RawRow>)

  const AllColumns: set<Col> := {OwnerCol, RequestCol, TrackingCol, UrlCol, FlagCol}

  // ---------------------------------------------------------------------
  // sanitize_doccloud_df
  // ---------------------------------------------------------------------

  /** .fillna("").astype(str), with "" for a column the frame lacks. */
  function TextOf(f: Frame, col: Col, v: Value): string {
    if col !in f.columns then ""
    else match v
      case Null => ""
      case Str(s) => s
      case Int(n) => IntToString(n)
  }

  /** pd.to_numeric(..., errors="coerce").fillna(0).astype(int), with 0 for
      a missing flag column. */
  function FlagOf(f: Frame, v: Value): int {
    if FlagCol !in f.columns then 0
    else match v
      case Null => 0
      case Str(s) => Metric(s)
      case Int(n) => n
  }

  function SanitizeRow(f: Frame, row: RawRow): DcRow {
    DcRow(TextOf(f, OwnerCol, row.owner), TextOf(f, RequestCol, row.request),
          TextOf(f, TrackingCol, row.tracking), TextOf(f, UrlCol, row.url), FlagOf(f, row.flag))
  }

  /** A text column after sanitizing: "" when the column is absent or the
      cell null, the text itself when present, an integer written out. */
  predicate TextCleaned(present: bool, v: Value, out: string) {
    && (!present || v.Null? ==> out == "")
    && (present && v.Str? ==> out == v.s)
    && (present && v.Int? ==> out == IntToString(v.n))
  }

  /** The flag after sanitizing: 0 when absent or null, an integer kept,
      text coerced by pd.to_numeric (0 where it is not a number). */
  predicate FlagCleaned(present: bool, v: Value, out: int) {
    && (!present || v.Null? ==> out == 0)
    && (present && v.Int? ==> out == v.n)
    && (present && v.Str? ==> out == Metric(v.s))
  }

  /** sanitize_doccloud_df: an empty frame (no rows or no columns) becomes
      the empty table; otherwise every row is kept, in order, with its five
      columns cleaned. */
  function Sanitize(f: Frame): (r: seq<DcRow>)
    ensures f.rows == [] || f.columns == {} ==> r == []
    ensures f.rows != [] && f.columns != {} ==> |r| == |f.rows|
    ensures forall i :: 0 <= i < |r| ==>
      && TextCleaned(OwnerCol in f.columns, f.rows[i].owner, r[i].owner)
      && TextCleaned(RequestCol in f.columns, f.rows[i].request, r[i].request)
      && TextCleaned(TrackingCol in f.columns, f.rows[i].tracking, r[i].tracking)
      && TextCleaned(UrlCol in f.columns, f.rows[i].url, r[i].url)
      && FlagCleaned(FlagCol in f.columns, f.rows[i].flag, r[i].flag)
  {
    if f.rows == [] || f.columns == {} then []
    else seq(|f.rows|, i requires 0 <= i < |f.rows| => SanitizeRow(f, f.rows[i]))
  }

  /** A clean table as a frame with the five columns. */
  function RowOf(r: DcRow): RawRow {
    RawRow(Str(r.owner), Str(r.request), Str(r.tracking), Str(r.url), Int(r.flag))
  }

  function ToFrame(rows: seq<DcRow>): Frame {
    Frame(AllColumns, seq(|rows|, i requires 0 <= i < |rows| => RowOf(rows[i])))
  }

  /** Sanitizing a clean table changes nothing (so sanitizing twice is the
      same as sanitizing once). */
  lemma SanitizeToFrame(rows: seq<DcRow>)
    ensures Sanitize(ToFrame(rows)) == rows
  {
    var f := ToFrame(rows);
    if rows != [] {
      assert OwnerCol in f.columns;
      forall i | 0 <= i < |rows| ensures SanitizeRow(f, f.rows[i]) == rows[i] {
        assert f.rows[i] == RowOf(rows[i]);
      }
    }
  }

  // ---------------------------------------------------------------------
  // load_existing_doccloud_cache
  // ---------------------------------------------------------------------

  /** SQLite's TRIM(x): removes spaces (and only spaces) at both ends. The
      result is the slice of s after its i leading spaces, with only
      spaces after it, and it neither starts nor ends with a space. */
  function SqlTrim(s: string): (r: string)
    ensures r == [] || (r[0] != ' ' && r[|r| - 1] != ' ')
    ensures var i := |s| - |StripCharStart(s, ' ')|;
      && i + |r| <= |s| && r == s[i..i + |r|]
      && (forall k :: 0 <= k < i ==> s[k] == ' ')
      && (forall k :: i + |r| <= k < |s| ==> s[k] == ' ')
  {
    var a := StripCharStart(s, ' ');
    var r := StripCharEnd(a, ' ');
    SqlTrimSlice(s, a, r);
    r
  }

  lemma SqlTrimSlice(s: string, a: string, r: string)
    requires |a| <= |s| && a == s[|s| - |a|..]
    requires |r| <= |a| && r == a[..|r|]
    requires forall j :: |r| <= j < |a| ==> a[j] == ' '
    ensures var i := |s| - |a|;
      && r == s[i..i + |r|]
      && (forall k :: i + |r| <= k < |s| ==> s[k] == ' ')
  {
    var i := |s| - |a|;
    forall k | i + |r| <= k < |s| ensures s[k] == ' ' {
      assert s[k] == a[k - i];
    }
  }

  /** WHERE COALESCE(TRIM(open_by_default_url), '') <> '' */
  predicate LegacyKeep(row: RawRow) {
    match row.url
    case Null => false
    case Str(s) => SqlTrim(s) != ""
    case Int(_) => true
  }

  /** What the previous database holds: no file, a file SQLite cannot read,
      or its table names with the doccloud_cache and strong_matches tables. */
  datatype CacheSource = NoFile | Unreadable | Database(tables: set<string>, docCache: Frame, strongMatches: Frame)

  /** SELECT of the five columns: fails when the table lacks one. */
  function SelectColumns(t: Frame): Option<Frame> {
    if AllColumns <= t.columns then Some(Frame(AllColumns, t.rows)) else None
  }

  /** load_existing_doccloud_cache: doccloud_cache when present, else the
      strong_matches rows that have a non-blank URL, else nothing; any
      error gives the empty table. */
  function LoadExistingCache(src: CacheSource): seq<DcRow> {
    match src
    case NoFile => []
    case Unreadable => []
    case Database(tables, docCache, strong) =>
      if "doccloud_cache" in tables then
        (match SelectColumns(docCache) case Some(f) => Sanitize(f) case None => [])
      else if "strong_matches" in tables then
        (match SelectColumns(strong)
         case Some(f) => Sanitize(Frame(f.columns, Filter(f.rows, LegacyKeep)))
         case None => [])
      else []
  }

  /** Rows recovered from an older database's strong_matches all carry a
      non-blank URL. */
  lemma LegacyCacheUrls(src: CacheSource)
    requires src.Database? && "doccloud_cache" !in src.tables
    ensures forall r :: r in LoadExistingCache(src) ==> r.url != ""
  {
    if "strong_matches" in src.tables && SelectColumns(src.strongMatches).Some? {
      var f := SelectColumns(src.strongMatches).value;
      var g := Frame(f.columns, Filter(f.rows, LegacyKeep));
      var out := Sanitize(g);
      forall r | r in out ensures r.url != "" {
        var i :| 0 <= i < |out| && out[i] == r;
        var row := g.rows[i];
        assert row in Filter(f.rows, LegacyKeep);
        assert UrlCol in g.columns;
      }
    }
  }

  // ---------------------------------------------------------------------
  // Settings read from the environment
  // ---------------------------------------------------------------------

  /** read_env_int: the variable's int() value, or the default when it is
      unset or not an integer. */
  function ReadEnvInt(raw: Option<string>, default: int): int {
    match raw
    case None => default
    case Some(s) => ParseInt(s).GetOr(default)
  }

  /** An integer written out is read back; unset and non-numeric settings
      give the default. */
  lemma ReadEnvIntSpec(n: int, default: int)
    ensures ReadEnvInt(Some(IntToString(n)), default) == n
    ensures ReadEnvInt(None, default) == default
    ensures ReadEnvInt(Some(""), default) == default
    ensures forall s :: ParseInt(s).None? ==> ReadEnvInt(Some(s), default) == default
    ensures forall s :: ParseInt(s).Some? ==> ReadEnvInt(Some(s), default) == ParseInt(s).value
  {
    ParseIntOfIntToString(n);
  }

  /** The four environment variables fetch_doccloud_table reads, plus the
      two credentials. */
  datatype Env = Env(mode: Option<string>, days: Option<string>, since: Option<string>,
                     username: Option<string>, password: Option<string>)

  /** DOCCLOUD_MODE, stripped and lower-cased, "incremental" when unset. */
  function Mode(env: Env): string {
    match env.mode
    case None => "incremental"
    case Some(m) => Lower(Trim(m))
  }

  /** Four decimal digits for the year, two for month and day. */
  function PadDigits(n: nat, w: nat): (s: string)
    ensures |s| == w && AllDigits(s)
  {
    if w == 0 then "" else PadDigits(n / 10, w - 1) + [DigitChar(n % 10)]
  }

  function Pow10(w: nat): nat {
    if w == 0 then 1 else 10 * Pow10(w - 1)
  }

  lemma {:induction false} PadDigitsValue(n: nat, w: nat)
    requires n < Pow10(w)
    ensures DigitsValue(PadDigits(n, w)) == n
  {
    if w > 0 {
      PadDigitsValue(n / 10, w - 1);
      var s := PadDigits(n, w);
      assert s[..|s| - 1] == PadDigits(n / 10, w - 1);
    }
  }

  /** date.isoformat() */
  function IsoFormat(d: Date): (s: string)
    requires 0 <= d.year <= 9999 && Valid(d)
    ensures |s| == 10
  {
    PadDigits(d.year, 4) + "-" + PadDigits(d.month, 2) + "-" + PadDigits(d.day, 2)
  }

  /** date.fromisoformat on the YYYY-MM-DD form; None where Python raises
      ValueError (a malformed string, year 0 or a day the month lacks). */
  function ParseIsoDate(s: string): (r: Option<Date>)
    ensures r.Some? ==> Valid(r.value) && 1 <= r.value.year <= 9999
  {
    if |s| == 10 && s[4] == '-' && s[7] == '-' && AllDigits(s[..4]) && AllDigits(s[5..7]) && AllDigits(s[8..]) then
      var d := Date(DigitsValue(s[..4]), DigitsValue(s[5..7]), DigitsValue(s[8..]));
      assert d.year <= 9999 by { PadBound(s[..4]); }
      if d.year >= 1 && Valid(d) then Some(d) else None
    else None
  }

  lemma {:induction false} PadBound(s: string)
    requires AllDigits(s)
    ensures DigitsValue(s) < Pow10(|s|)
  {
    if s != [] { PadBound(s[..|s| - 1]); }
  }

  /** date.fromisoformat(d.isoformat()) == d */
  lemma ParseIsoFormat(d: Date)
    requires 1 <= d.year <= 9999 && Valid(d)
    ensures ParseIsoDate(IsoFormat(d)) == Some(d)
  {
    var s := IsoFormat(d);
    assert s[..4] == PadDigits(d.year, 4);
    assert s[5..7] == PadDigits(d.month, 2);
    assert s[8..] == PadDigits(d.day, 2);
    PadDigitsValue(d.year, 4);
    PadDigitsValue(d.month, 2);
    PadDigitsValue(d.day, 2);
  }

  /** DOCCLOUD_BACKFILL_SINCE, or 2021-01-01 when unset or not a date. */
  function BackfillSince(env: Env): (d: Date)
    ensures Valid(d) && 1 <= d.year <= 9999
    ensures env.since.Some? && ParseIsoDate(env.since.value).Some? ==> d == ParseIsoDate(env.since.value).value
    ensures env.since.None? || ParseIsoDate(env.since.value).None? ==> d == DefaultSince
  {
    match env.since
    case None => DefaultSince
    case Some(s) => ParseIsoDate(s).GetOr(DefaultSince)
  }

  /** The unset setting means the default date, exactly as the source's
      default string DOCCLOUD_SINCE.isoformat() parses back to it. */
  lemma BackfillSinceDefault(env: Env)
    ensures env.since.None? ==> BackfillSince(env) == DefaultSince
    ensures BackfillSince(env.(since := Some(IsoFormat(DefaultSince)))) == DefaultSince
  {
    ParseIsoFormat(DefaultSince);
  }

  /** The lookback of the incremental window: max(1, incremental_days). */
  function Lookback(env: Env): (n: nat)
    ensures n >= 1
    ensures n >= ReadEnvInt(env.days, DefaultIncrementalDays)
    ensures n == 1 || n == ReadEnvInt(env.days, DefaultIncrementalDays)
  {
    var days := ReadEnvInt(env.days, DefaultIncrementalDays);
    if days < 1 then 1 else days
  }

  /** The modes that skip the API. */
  predicate CacheOnly(mode: string) {
    mode == "off" || mode == "none" || mode == "cache-only"
  }

  /** The single window [today - timedelta(days=n), today]; None where the
      start would fall before 0001-01-01 and Python raises OverflowError. */
  function IncrementalWindows(today: Date, n: nat): Option<seq<(Date, Date)>>
    requires Valid(today)
  {
    var start := SubDays(today, n);
    if start.year < 1 then None else Some([(start, today)])
  }

  /** The windows to query; None where fetch_doccloud_table returns the
      cache without querying: in cache-only mode, and when the incremental
      start overflows (the OverflowError is caught by the same handler as
      a failed search). Unknown modes fall back to the incremental window. */
  function Windows(env: Env, today: Date): (ws: Option<seq<(Date, Date)>>)
    requires Valid(today)
  {
    var mode := Mode(env);
    if mode == "backfill" then Some(MonthWindows(BackfillSince(env), today, WindowMonths))
    else if mode == "incremental" then IncrementalWindows(today, Lookback(env))
    else if CacheOnly(mode) then None
    else IncrementalWindows(today, Lookback(env))
  }

  /** Every mode except backfill and the cache-only ones queries the single
      window [today - max(1, days), today]: it ends today, and its start is
      exactly max(1, days) days earlier (by date.toordinal). A start before
      year 1 means no query. */
  lemma IncrementalWindow(env: Env, today: Date)
    requires Valid(today)
    requires Mode(env) != "backfill" && !CacheOnly(Mode(env))
    ensures var start := SubDays(today, Lookback(env));
      && Ordinal(start) == Ordinal(today) - Lookback(env)
      && Before(start, today)
      && (start.year >= 1 ==> Windows(env, today) == Some([(start, today)]))
      && (start.year < 1 ==> Windows(env, today) == None)
  {
    SubDaysOrdinal(today, Lookback(env));
  }

  /** Backfill windows run contiguously from the backfill date to today. */
  lemma BackfillWindows(env: Env, today: Date)
    requires Valid(today) && Mode(env) == "backfill"
    ensures Windows(env, today) == Some(MonthWindows(BackfillSince(env), today, WindowMonths))
    ensures NotAfter(BackfillSince(env), today) ==> Windows(env, today).value[0].0 == BackfillSince(env)
  {
    if NotAfter(BackfillSince(env), today) {
      MonthWindowsStart(BackfillSince(env), today, WindowMonths);
    }
  }

  // ---------------------------------------------------------------------
  // Documents and the search
  // ---------------------------------------------------------------------

  /** A search result: its metadata (`d.data or {}`), whose values are
      Python values, and canonical_url (None when the document has none). */
  datatype Doc = Doc(data: map<string, Value>, canonicalUrl: Option<string>)

  /** str(v): None prints as "None", an integer as its digits. */
  function PyStr(v: Value): string {
    match v
    case Null => "None"
    case Str(s) => s
    case Int(n) => IntToString(n)
  }

  /** str(data.get(key, "")) */
  function MetaText(data: map<string, Value>, key: string): (t: string)
    ensures key !in data ==> t == ""
    ensures key in data && data[key].Null? ==> t == "None"
    ensures key in data && data[key].Str? ==> t == data[key].s
    ensures key in data && data[key].Int? ==> t == IntToString(data[key].n)
  {
    if key in data then PyStr(data[key]) else ""
  }

  /** What one window's search gives: the documents, or a failure (a
      network or API error raised while searching or paging). */
  datatype SearchOutcome = Found(docs: seq<Doc>) | Failed

  /** The record appended for one document. str(None) is "None", so a
      document without a canonical URL gets the URL text "None" and flag 0. */
  function RecordOf(d: Doc): (r: DcRow)
    ensures r.flag == 1 <==> d.canonicalUrl.Some? && d.canonicalUrl.value != ""
    ensures r.flag == 0 || r.flag == 1
    ensures r.owner == Trim(MetaText(d.data, "owner_org"))
    ensures r.request == Trim(MetaText(d.data, "request_number"))
    ensures r.tracking == Trim(MetaText(d.data, "tracking_number"))
    ensures d.canonicalUrl.Some? ==> r.url == Trim(d.canonicalUrl.value)
  {
    var url := match d.canonicalUrl case None => "None" case Some(u) => u;
    DcRow(Trim(MetaText(d.data, "owner_org")), Trim(MetaText(d.data, "request_number")),
          Trim(MetaText(d.data, "tracking_number")), Trim(url),
          if d.canonicalUrl.Some? && d.canonicalUrl.value != "" then 1 else 0)
  }

  /** Every text field of a record is stripped. */
  lemma RecordOfTrimmed(d: Doc)
    ensures var r := RecordOf(d);
      && Trim(r.owner) == r.owner && Trim(r.request) == r.request
      && Trim(r.tracking) == r.tracking && Trim(r.url) == r.url
  {
    TrimIdempotent(MetaText(d.data, "owner_org"));
    TrimIdempotent(MetaText(d.data, "request_number"));
    TrimIdempotent(MetaText(d.data, "tracking_number"));
    TrimIdempotent(match d.canonicalUrl case None => "None" case Some(u) => u);
  }

  /** A document without a canonical URL gets the URL text "None", as
      str(None) writes it, and flag 0. */
  lemma RecordOfNoUrl(d: Doc)
    requires d.canonicalUrl.None?
    ensures RecordOf(d).url == "None" && RecordOf(d).flag == 0
  {
    NoneTrimmed();
  }

  /** "None" has no surrounding blanks. */
  lemma NoneTrimmed()
    ensures Trim("None") == "None"
  {
    var n := "None";
    assert n[0] == 'N' && n[3] == 'e';
    TrimOfTrimmed(n);
  }

  /** The records of the documents, in order. */
  function Records(docs: seq<Doc>): (rs: seq<DcRow>)
    ensures |rs| == |docs|
    ensures forall i :: 0 <= i < |docs| ==> rs[i] == RecordOf(docs[i])
  {
    MapSeq(docs, RecordOf)
  }

  /** The records of all windows in order, or None once a search fails. */
  function FetchAll(ws: seq<(Date, Date)>, search: (Date, Date) -> SearchOutcome): Option<seq<DcRow>> {
    if ws == [] then Some([])
    else
      match FetchAll(ws[..|ws| - 1], search)
      case None => None
      case Some(recs) =>
        match search(ws[|ws| - 1].0, ws[|ws| - 1].1)
        case Failed => None
        case Found(docs) => Some(recs + Records(docs))
  }

  /** A failure in the first k windows is a failure of the whole fetch. */
  lemma {:induction false} FetchAllPrefixFails(ws: seq<(Date, Date)>, k: nat, search: (Date, Date) -> SearchOutcome)
    requires k <= |ws| && FetchAll(ws[..k], search).None?
    ensures FetchAll(ws, search).None?
    decreases |ws| - k
  {
    if k < |ws| {
      assert ws[..k + 1][..k] == ws[..k];
      FetchAllPrefixFails(ws, k + 1, search);
    } else {
      assert ws[..k] == ws;
    }
  }

  /** The records as pd.DataFrame(recs, dtype=str) holds them: every cell
      text, and no columns at all when there are no records. */
  function RecordsFrame(recs: seq<DcRow>): Frame {
    if recs == [] then Frame({}, [])
    else Frame(AllColumns, seq(|recs|, i requires 0 <= i < |recs| => TextRow(recs[i])))
  }

  /** One record with every cell as text. */
  function TextRow(r: DcRow): RawRow {
    RawRow(Str(r.owner), Str(r.request), Str(r.tracking), Str(r.url), Str(IntToString(r.flag)))
  }

  /** Converting the records to text and sanitizing them gives them back. */
  lemma SanitizeRecords(recs: seq<DcRow>)
    ensures Sanitize(RecordsFrame(recs)) == recs
  {
    var f := RecordsFrame(recs);
    if recs != [] {
      assert OwnerCol in f.columns;
      forall i | 0 <= i < |recs| ensures SanitizeRow(f, f.rows[i]) == recs[i] {
        assert f.rows[i] == TextRow(recs[i]);
        MetricOfIntToString(recs[i].flag);
      }
    }
  }

  // ---------------------------------------------------------------------
  // drop_duplicates(subset=[the four text columns], keep="last")
  // ---------------------------------------------------------------------

  function DcKey(r: DcRow): (string, string, string, string) {
    (r.owner, r.request, r.tracking, r.url)
  }

  function DcKeys(rows: seq<DcRow>): (ks: seq<(string, string, string, string)>)
    ensures |ks| == |rows|
    ensures forall i :: 0 <= i < |rows| ==> ks[i] == DcKey(rows[i])
  {
    seq(|rows|, i requires 0 <= i < |rows| => DcKey(rows[i]))
  }

  /** The rows whose key does not occur again later, in their order. */
  function KeepLast(rows: seq<DcRow>): (r: seq<DcRow>)
    ensures |r| <= |rows|
    ensures forall x :: x in r ==> x in rows
    ensures Subsequence(r, rows)
  {
    if rows == [] then []
    else
      var rest := KeepLast(rows[1..]);
      if DcKey(rows[0]) in DcKeys(rows[1..]) then
        SubsequenceCons(rest, rows);
        rest
      else
        assert ([rows[0]] + rest)[1..] == rest;
        [rows[0]] + rest
  }

  lemma DcKeysMember(rows: seq<DcRow>, r: DcRow)
    requires r in rows
    ensures DcKey(r) in DcKeys(rows)
  {
    var i :| 0 <= i < |rows| && rows[i] == r;
    assert DcKeys(rows)[i] == DcKey(r);
  }

  lemma DcKeysConcat(a: seq<DcRow>, b: seq<DcRow>)
    ensures DcKeys(a + b) == DcKeys(a) + DcKeys(b)
  {
  }

  /** No key occurs twice in the result. */
  lemma {:induction false} KeepLastUnique(rows: seq<DcRow>)
    ensures forall i, j :: 0 <= i < j < |KeepLast(rows)| ==> DcKey(KeepLast(rows)[i]) != DcKey(KeepLast(rows)[j])
  {
    if rows != [] {
      var tail := rows[1..];
      KeepLastUnique(tail);
      var rest := KeepLast(tail);
      if DcKey(rows[0]) !in DcKeys(tail) {
        forall x | x in rest ensures DcKey(x) != DcKey(rows[0]) {
          DcKeysMember(tail, x);
        }
        var out := KeepLast(rows);
        assert out == [rows[0]] + rest;
        forall i, j | 0 <= i < j < |out| ensures DcKey(out[i]) != DcKey(out[j]) {
          assert out[j] == rest[j - 1] && rest[j - 1] in rest;
          if i > 0 { assert out[i] == rest[i - 1]; }
        }
      }
    }
  }

  /** A row whose key does not occur again later is kept. */
  lemma {:induction false} KeepLastKeeps(rows: seq<DcRow>)
    ensures forall i :: 0 <= i < |rows| && DcKey(rows[i]) !in DcKeys(rows[i + 1..]) ==> rows[i] in KeepLast(rows)
  {
    if rows != [] {
      var tail := rows[1..];
      KeepLastKeeps(tail);
      var lead := if DcKey(rows[0]) in DcKeys(tail) then [] else [rows[0]];
      assert KeepLast(rows) == lead + KeepLast(tail);
      forall i | 0 <= i < |rows| && DcKey(rows[i]) !in DcKeys(rows[i + 1..]) ensures rows[i] in KeepLast(rows) {
        if i > 0 {
          assert tail[i - 1] == rows[i] && tail[i - 1 + 1..] == rows[i + 1..];
          assert rows[i] in KeepLast(tail);
        } else {
          assert rows[1..] == tail && lead == [rows[0]];
        }
      }
    }
  }

  /** A kept row is one whose key does not occur again later. */
  lemma {:induction false} KeepLastOnlyLast(rows: seq<DcRow>)
    ensures forall x :: x in KeepLast(rows) ==>
      exists i :: 0 <= i < |rows| && rows[i] == x && DcKey(rows[i]) !in DcKeys(rows[i + 1..])
  {
    if rows != [] {
      var tail := rows[1..];
      KeepLastOnlyLast(tail);
      forall x | x in KeepLast(rows)
        ensures exists i :: 0 <= i < |rows| && rows[i] == x && DcKey(rows[i]) !in DcKeys(rows[i + 1..])
      {
        if x in KeepLast(tail) {
          var i :| 0 <= i < |tail| && tail[i] == x && DcKey(tail[i]) !in DcKeys(tail[i + 1..]);
          assert rows[i + 1] == x && rows[i + 2..] == tail[i + 1..];
        } else {
          assert x == rows[0] && rows[1..] == tail;
        }
      }
    }
  }

  /** Every key of the input survives. */
  lemma {:induction false} KeepLastKeys(rows: seq<DcRow>)
    ensures forall r :: r in rows ==> DcKey(r) in DcKeys(KeepLast(rows))
  {
    if rows != [] {
      var tail := rows[1..];
      KeepLastKeys(tail);
      var out := KeepLast(rows);
      var rest := KeepLast(tail);
      var lead := if DcKey(rows[0]) in DcKeys(tail) then [] else [rows[0]];
      assert out == lead + rest;
      DcKeysConcat(lead, rest);
      forall r | r in rows ensures DcKey(r) in DcKeys(out) {
        if r in tail {
          assert DcKey(r) in DcKeys(rest);
        } else if DcKey(r) in DcKeys(tail) {
          var i :| 0 <= i < |tail| && DcKeys(tail)[i] == DcKey(r);
          assert tail[i] in tail;
          assert DcKey(tail[i]) in DcKeys(rest);
        } else {
          assert r == rows[0];
          assert DcKeys(lead) == [DcKey(r)];
        }
      }
    }
  }

  /** Appending the fetched rows after the cache makes them win: a result
      row whose key was fetched is a fetched row. */
  lemma FetchedWins(cache: seq<DcRow>, fetched: seq<DcRow>)
    ensures forall x :: x in KeepLast(cache + fetched) && DcKey(x) in DcKeys(fetched) ==> x in fetched
  {
    var all := cache + fetched;
    KeepLastOnlyLast(all);
    forall x | x in KeepLast(all) && DcKey(x) in DcKeys(fetched) ensures x in fetched {
      var i :| 0 <= i < |all| && all[i] == x && DcKey(all[i]) !in DcKeys(all[i + 1..]);
      var j :| 0 <= j < |fetched| && DcKeys(fetched)[j] == DcKey(x);
      assert all[|cache| + j] == fetched[j];
      forall q | i < q < |all| ensures DcKey(all[q]) != DcKey(x) {
        assert DcKeys(all[i + 1..])[q - i - 1] == DcKey(all[q]);
      }
      assert |cache| + j <= i;
      assert all[i] == fetched[i - |cache|];
    }
  }

  lemma FetchedKeptAt(cache: seq<DcRow>, fetched: seq<DcRow>, j: nat)
    requires j < |fetched| && DcKey(fetched[j]) !in DcKeys(fetched[j + 1..])
    ensures fetched[j] in KeepLast(cache + fetched)
  {
    var all := cache + fetched;
    var i := |cache| + j;
    ConcatDrop(cache, fetched, j + 1);
    assert all[i] == fetched[j] && all[i + 1..] == fetched[j + 1..];
    KeepLastKeeps(all);
  }

  /** The last fetched row of each key is in the result. */
  lemma FetchedKept(cache: seq<DcRow>, fetched: seq<DcRow>)
    ensures forall j :: 0 <= j < |fetched| && DcKey(fetched[j]) !in DcKeys(fetched[j + 1..]) ==> fetched[j] in KeepLast(cache + fetched)
  {
    forall j | 0 <= j < |fetched| && DcKey(fetched[j]) !in DcKeys(fetched[j + 1..])
      ensures fetched[j] in KeepLast(cache + fetched)
    {
      FetchedKeptAt(cache, fetched, j);
    }
  }

  // ---------------------------------------------------------------------
  // fetch_doccloud_table
  // ---------------------------------------------------------------------

  /** A credential is usable when it is set and not empty. */
  predicate Present(v: Option<string>) {
    v.Some? && v.value != ""
  }

  /** The table fetch_doccloud_table returns, given the loaded cache,
      whether the client logs in, the search, and today's date. */
  function DocCloudTable(env: Env, today: Date, cache: seq<DcRow>, loginOk: bool,
                         search: (Date, Date) -> SearchOutcome): seq<DcRow>
    requires Valid(today)
  {
    if !Present(env.username) || !Present(env.password) || !loginOk then cache
    else
      match Windows(env, today)
      case None => cache
      case Some(ws) =>
        match FetchAll(ws, search)
        case None => cache
        case Some(recs) =>
          var fetched := Sanitize(RecordsFrame(recs));
          if fetched == [] then cache else KeepLast(Sanitize(ToFrame(cache + fetched)))
  }

  /** The cache comes back unchanged without credentials, when the login
      fails, in cache-only mode, when any window's search fails, and when
      nothing was fetched. */
  lemma CacheFallbacks(env: Env, today: Date, cache: seq<DcRow>, loginOk: bool,
                       search: (Date, Date) -> SearchOutcome)
    requires Valid(today)
    ensures !Present(env.username) || !Present(env.password) ==> DocCloudTable(env, today, cache, loginOk, search) == cache
    ensures !loginOk ==> DocCloudTable(env, today, cache, loginOk, search) == cache
    ensures CacheOnly(Mode(env)) ==> DocCloudTable(env, today, cache, loginOk, search) == cache
    ensures Windows(env, today).Some? && FetchAll(Windows(env, today).value, search).None? ==>
      DocCloudTable(env, today, cache, loginOk, search) == cache
    ensures Windows(env, today).Some? && FetchAll(Windows(env, today).value, search) == Some([]) ==>
      DocCloudTable(env, today, cache, loginOk, search) == cache
  {
    SanitizeRecords([]);
  }

  /** A look-back reaching before 0001-01-01 makes Python raise
      OverflowError, which the same handler turns into the cache. */
  lemma OverflowFallback(env: Env, today: Date, cache: seq<DcRow>, loginOk: bool,
                         search: (Date, Date) -> SearchOutcome)
    requires Valid(today) && Mode(env) != "backfill" && SubDays(today, Lookback(env)).year < 1
    ensures DocCloudTable(env, today, cache, loginOk, search) == cache
  {
    assert Windows(env, today).None? by {
      WindowsOverflow(env, today);
    }
    NoWindowsCache(env, today, cache, loginOk, search);
  }

  lemma NoWindowsCache(env: Env, today: Date, cache: seq<DcRow>, loginOk: bool,
                       search: (Date, Date) -> SearchOutcome)
    requires Valid(today) && Windows(env, today).None?
    ensures DocCloudTable(env, today, cache, loginOk, search) == cache
  {
  }

  lemma WindowsOverflow(env: Env, today: Date)
    requires Valid(today) && Mode(env) != "backfill" && SubDays(today, Lookback(env)).year < 1
    ensures Windows(env, today) == None
  {
    if !CacheOnly(Mode(env)) {
      IncrementalWindow(env, today);
    }
  }

  /** Otherwise the result is the cache followed by the fetched records,
      de-duplicated on the four text columns keeping the last row: no key
      repeats, no key is lost, a fetched row beats a cached one, and the
      last fetched row of each key is kept. */
  lemma MergedTable(env: Env, today: Date, cache: seq<DcRow>, loginOk: bool,
                    search: (Date, Date) -> SearchOutcome, recs: seq<DcRow>)
    requires Valid(today) && Present(env.username) && Present(env.password) && loginOk
    requires Windows(env, today).Some? && FetchAll(Windows(env, today).value, search) == Some(recs)
    requires recs != []
    ensures var t := DocCloudTable(env, today, cache, loginOk, search);
      && t == KeepLast(cache + recs)
      && (forall i, j :: 0 <= i < j < |t| ==> DcKey(t[i]) != DcKey(t[j]))
      && (forall r :: r in cache + recs ==> DcKey(r) in DcKeys(t))
      && (forall x :: x in t && DcKey(x) in DcKeys(recs) ==> x in recs)
      && (forall j :: 0 <= j < |recs| && DcKey(recs[j]) !in DcKeys(recs[j + 1..]) ==> recs[j] in t)
  {
    SanitizeRecords(recs);
    SanitizeToFrame(cache + recs);
    KeepLastUnique(cache + recs);
    KeepLastKeys(cache + recs);
    FetchedWins(cache, recs);
    FetchedKept(cache, recs);
  }

  lemma RecordsStep(docs: seq<Doc>, j: nat)
    requires j < |docs|
    ensures Records(docs[..j + 1]) == Records(docs[..j]) + [RecordOf(docs[j])]
  {
    MapSeqStep(docs, j, RecordOf);
  }

  lemma FetchAllFound(ws: seq<(Date, Date)>, i: nat, search: (Date, Date) -> SearchOutcome,
                      recs: seq<DcRow>, docs: seq<Doc>)
    requires i < |ws| && FetchAll(ws[..i], search) == Some(recs)
    requires search(ws[i].0, ws[i].1) == Found(docs)
    ensures FetchAll(ws[..i + 1], search) == Some(recs + Records(docs))
  {
    var p := ws[..i + 1];
    assert p[..i] == ws[..i] && p[i] == ws[i];
  }

  lemma FetchAllFailed(ws: seq<(Date, Date)>, i: nat, search: (Date, Date) -> SearchOutcome)
    requires i < |ws| && FetchAll(ws[..i], search).Some?
    requires search(ws[i].0, ws[i].1) == Failed
    ensures FetchAll(ws, search).None?
  {
    var p := ws[..i + 1];
    assert p[..|p| - 1] == ws[..i];
    assert p[|p| - 1] == ws[i];
    FetchAllLastFails(p, search);
    FetchAllPrefixFails(ws, i + 1, search);
  }

  lemma FetchAllLastFails(p: seq<(Date, Date)>, search: (Date, Date) -> SearchOutcome)
    requires p != [] && FetchAll(p[..|p| - 1], search).Some?
    requires search(p[|p| - 1].0, p[|p| - 1].1) == Failed
    ensures FetchAll(p, search).None?
  {
  }

  /** The window list of fetch_doccloud_table's mode switch; None where it
      returns the cache without querying. */
  method ChooseWindows(env: Env, today: Date) returns (windows: Option<seq<(Date, Date)>>)
    requires Valid(today)
    ensures windows == Windows(env, today)
  {
    var mode := Mode(env);
    var lookback := Lookback(env);
    var since := BackfillSince(env);
    if mode == "backfill" {
      var ws := IterMonthWindows(since, today, WindowMonths);
      windows := Some(ws);
    } else if mode == "incremental" {
      var start := SubDays(today, lookback);
      windows := if start.year < 1 then None else Some([(start, today)]);
    } else if CacheOnly(mode) {
      windows := None;
    } else {
      var start := SubDays(today, lookback);
      windows := if start.year < 1 then None else Some([(start, today)]);
    }
  }

  /** The loop over one window's documents. */
  method AppendRecords(recs: seq<DcRow>, docs: seq<Doc>) returns (out: seq<DcRow>)
    ensures out == recs + Records(docs)
  {
    var block: seq<DcRow> := [];
    var j := 0;
    while j < |docs|
      invariant 0 <= j <= |docs|
      invariant block == Records(docs[..j])
    {
      RecordsStep(docs, j);
      block := block + [RecordOf(docs[j])];
      j := j + 1;
    }
    assert docs[..j] == docs;
    out := recs + block;
  }

  /** The loop over the windows: each window's documents are appended as
      records; a failing search ends the fetch. */
  method FetchWindows(windows: seq<(Date, Date)>, search: (Date, Date) -> SearchOutcome)
    returns (fetched: Option<seq<DcRow>>)
    ensures fetched == FetchAll(windows, search)
  {
    var recs: seq<DcRow> := [];
    var i := 0;
    while i < |windows|
      invariant 0 <= i <= |windows|
      invariant FetchAll(windows[..i], search) == Some(recs)
    {
      var outcome := search(windows[i].0, windows[i].1);
      if outcome.Failed? {
        FetchAllFailed(windows, i, search);
        return None;
      }
      FetchAllFound(windows, i, search, recs, outcome.docs);
      recs := AppendRecords(recs, outcome.docs);
      i := i + 1;
    }
    assert windows[..i] == windows;
    fetched := Some(recs);
  }

  /** fetch_doccloud_table, with the cache already loaded. */
  method FetchDocCloudTable(env: Env, today: Date, cache: seq<DcRow>, loginOk: bool,
                            search: (Date, Date) -> SearchOutcome) returns (table: seq<DcRow>)
    requires Valid(today)
    ensures table == DocCloudTable(env, today, cache, loginOk, search)
  {
    if !Present(env.username) || !Present(env.password) {
      return cache;
    }
    if !loginOk {
      return cache;
    }
    var windows := ChooseWindows(env, today);
    if windows.None? {
      return cache;
    }
    var recs := FetchWindows(windows.value, search);
    if recs.None? {
      return cache;
    }
    var fetched := Sanitize(RecordsFrame(recs.value));
    if fetched == [] {
      return cache;
    }
    var combined := Sanitize(ToFrame(cache + fetched));
    table := KeepLast(combined);
  }
}

/** The report-normalisation helpers of the validation site builder
    (VALIDATION/scripts/build_site.py): slug sanitising, unwrapping of
    JSON-encoded report strings, tolerant key lookup, per-language table
    selection and the aggregation of table metrics with a three-valued
    validity verdict. */
module Site {
  import opened Wrappers
  import opened Text
  import opened Seqs
  import opened Json

  // ---------------------------------------------------------------------
  // slugify
  // ---------------------------------------------------------------------

  /** The characters of the class [a-zA-Z0-9_-]. */
  predicate SlugChar(c: char) {
    ('a' <= c <= 'z') || ('A' <= c <= 'Z') || ('0' <= c <= '9') || c == '_' || c == '-'
  }

  /** Letters, digits and '_': the slug characters that always survive. */
  predicate WordChar(c: char) {
    SlugChar(c) && c != '-'
  }

  predicate AllSlugChars(s: string) {
    forall i :: 0 <= i < |s| ==> SlugChar(s[i])
  }

  /** re.sub(r"[^a-zA-Z0-9_-]+", "-", s) scanned left to right: a character
      of the class is copied, and a character outside it yields '-' unless
      it continues a run that already yielded one (inRun). */
  function CollapseFrom(s: string, inRun: bool): (r: string)
    ensures AllSlugChars(r)
  {
    if s == [] then []
    else if SlugChar(s[0]) then [s[0]] + CollapseFrom(s[1..], false)
    else if inRun then CollapseFrom(s[1..], true)
    else ['-'] + CollapseFrom(s[1..], true)
  }

  /** Every maximal run of characters outside the class becomes one '-'. */
  function Collapse(s: string): (r: string)
    ensures AllSlugChars(r)
  {
    CollapseFrom(s, false)
  }

  /** str.strip("-") */
  function StripDash(s: string): string {
    StripCharEnd(StripCharStart(s, '-'), '-')
  }

  lemma {:induction false} StripDashStartSlug(s: string)
    requires AllSlugChars(s)
    ensures AllSlugChars(StripCharStart(s, '-'))
  {
    if s != [] && s[0] == '-' {
      assert AllSlugChars(s[1..]);
      StripDashStartSlug(s[1..]);
    }
  }

  lemma {:induction false} StripDashEndSlug(s: string)
    requires AllSlugChars(s)
    ensures AllSlugChars(StripCharEnd(s, '-'))
  {
    if s != [] && s[|s| - 1] == '-' {
      assert AllSlugChars(s[..|s| - 1]);
      StripDashEndSlug(s[..|s| - 1]);
    }
  }

  lemma StripDashShape(s: string)
    requires AllSlugChars(s)
    ensures AllSlugChars(StripDash(s))
    ensures StripDash(s) == [] || (StripDash(s)[0] != '-' && StripDash(s)[|StripDash(s)| - 1] != '-')
  {
    var a := StripCharStart(s, '-');
    var t := StripCharEnd(a, '-');
    StripDashStartSlug(s);
    StripDashEndSlug(a);
    if t != [] {
      assert t[0] == a[0];
    }
  }

  /** The slug used when nothing of the name survives. */
  const DefaultSlug: string := "report"

  /** slugify(s): never empty, only [A-Za-z0-9_-], no '-' at either end. */
  function Slugify(s: string): (r: string)
    ensures r != [] && AllSlugChars(r)
    ensures r[0] != '-' && r[|r| - 1] != '-'
  {
    var t := StripDash(Collapse(s));
    StripDashShape(Collapse(s));
    if t == [] then
      DefaultSlugShape();
      DefaultSlug
    else
      t
  }

  lemma DefaultSlugShape()
    ensures DefaultSlug != [] && AllSlugChars(DefaultSlug)
    ensures DefaultSlug[0] != '-' && DefaultSlug[|DefaultSlug| - 1] != '-'
  {
    var d := DefaultSlug;
    assert |d| == 6;
    assert d[0] == 'r' && d[1] == 'e' && d[2] == 'p' && d[3] == 'o' && d[4] == 'r' && d[5] == 't';
  }

  /** The letters, digits and underscores of s, in order. */
  function Words(s: string): string {
    Filter(s, WordChar)
  }

  lemma {:induction false} CollapseFromWords(s: string, inRun: bool)
    ensures Words(CollapseFrom(s, inRun)) == Words(s)
  {
    if s != [] {
      var rest := s[1..];
      assert s == [s[0]] + rest;
      FilterConcat([s[0]], rest, WordChar);
      if SlugChar(s[0]) {
        CollapseFromWords(rest, false);
        FilterConcat([s[0]], CollapseFrom(rest, false), WordChar);
      } else {
        CollapseFromWords(rest, true);
        FilterNone([s[0]], WordChar);
        if !inRun {
          FilterConcat(['-'], CollapseFrom(rest, true), WordChar);
          FilterNone(['-'], WordChar);
        }
      }
    }
  }

  lemma {:induction false} StripDashStartWords(s: string)
    ensures Words(StripCharStart(s, '-')) == Words(s)
  {
    if s != [] && s[0] == '-' {
      StripDashStartWords(s[1..]);
    }
  }

  lemma {:induction false} StripDashEndWords(s: string)
    ensures Words(StripCharEnd(s, '-')) == Words(s)
  {
    if s != [] && s[|s| - 1] == '-' {
      var init := s[..|s| - 1];
      StripDashEndWords(init);
      assert s == init + ['-'];
      FilterConcat(init, ['-'], WordChar);
      FilterNone(['-'], WordChar);
    }
  }

  lemma StripDashWords(s: string)
    ensures Words(StripDash(s)) == Words(s)
  {
    StripDashStartWords(s);
    StripDashEndWords(StripCharStart(s, '-'));
  }

  lemma {:induction false} AllDashes(s: string)
    requires forall i :: 0 <= i < |s| ==> s[i] == '-'
    ensures StripCharStart(s, '-') == []
  {
    if s != [] {
      assert forall i :: 0 <= i < |s| - 1 ==> s[1..][i] == s[i + 1];
      AllDashes(s[1..]);
    }
  }

  /** Slug characters with no word character among them are all dashes,
      and strip("-") removes them all. */
  lemma DashesOnly(s: string)
    requires AllSlugChars(s) && Words(s) == []
    ensures StripDash(s) == []
  {
    forall i | 0 <= i < |s| ensures s[i] == '-' {
      assert s[i] in s;
      assert s[i] !in Words(s);
    }
    AllDashes(s);
  }

  /** slugify keeps exactly the letters, digits and underscores of its
      input, in order, and gives "report" when there are none. */
  lemma SlugifyWords(s: string)
    ensures Words(s) == [] ==> Slugify(s) == DefaultSlug
    ensures Words(s) != [] ==> Words(Slugify(s)) == Words(s)
  {
    var c := Collapse(s);
    CollapseFromWords(s, false);
    StripDashWords(c);
    if Words(s) == [] {
      DashesOnly(c);
    } else {
      assert StripDash(c) != [];
    }
  }

  lemma {:induction false} CollapseOfSlug(s: string, inRun: bool)
    requires AllSlugChars(s)
    ensures CollapseFrom(s, inRun) == s
  {
    if s != [] {
      assert AllSlugChars(s[1..]);
      CollapseOfSlug(s[1..], false);
    }
  }

  /** A slug is its own slug. */
  lemma SlugifyOfSlug(t: string)
    requires t != [] && AllSlugChars(t) && t[0] != '-' && t[|t| - 1] != '-'
    ensures Slugify(t) == t
  {
    CollapseOfSlug(t, false);
    assert StripCharStart(t, '-') == t;
    assert StripCharEnd(t, '-') == t;
  }

  lemma SlugifyIdempotent(s: string)
    ensures Slugify(Slugify(s)) == Slugify(s)
  {
    SlugifyOfSlug(Slugify(s));
  }

  // ---------------------------------------------------------------------
  // parse_reports
  // ---------------------------------------------------------------------

  /** The number of JSON layers parse_reports unwraps at most. */
  const MaxLayers: nat := 3

  /** The value after at most n rounds of decoding while it is a string,
      stopping at the first string the decoder rejects (None stands for
      ujson's ValueError). */
  function Unwrap(val: Json, decode: string -> Option<Json>, n: nat): Json
    decreases n
  {
    if n == 0 || !val.JStr? then val
    else
      match decode(val.s)
      case None => val
      case Some(v) => Unwrap(v, decode, n - 1)
  }

  /** The strings handed to the decoder, in order. Every call but the last
      succeeded, and there are at most n of them. */
  function Decoded(val: Json, decode: string -> Option<Json>, n: nat): (r: seq<string>)
    ensures |r| <= n
    ensures forall i :: 0 <= i < |r| - 1 ==> decode(r[i]).Some?
    decreases n
  {
    if n == 0 || !val.JStr? then []
    else
      match decode(val.s)
      case None => [val.s]
      case Some(v) =>
        var rest := Decoded(v, decode, n - 1);
        assert forall i :: 1 <= i < |rest| + 1 ==> ([val.s] + rest)[i] == rest[i - 1];
        [val.s] + rest
  }

  /** parse_reports(val): the unwrapped value when it is a dict, else {}. */
  function ParseReports(val: Json, decode: string -> Option<Json>): map<string, Json> {
    match Unwrap(val, decode, MaxLayers)
    case JDict(m) => m
    case _ => map[]
  }

  /** The while loop of parse_reports. */
  method UnwrapReports(val: Json, decode: string -> Option<Json>) returns (r: map<string, Json>)
    ensures r == ParseReports(val, decode)
  {
    var v := val;
    var seen := 0;
    while v.JStr? && seen < MaxLayers
      invariant 0 <= seen <= MaxLayers
      invariant Unwrap(v, decode, MaxLayers - seen) == Unwrap(val, decode, MaxLayers)
      decreases MaxLayers - seen
    {
      var d := decode(v.s);
      if d.None? {
        break;
      }
      v := d.value;
      seen := seen + 1;
    }
    assert Unwrap(v, decode, MaxLayers - seen) == v;
    if v.JDict? {
      r := v.fields;
    } else {
      r := map[];
    }
  }

  /** The result depends on the decoder only through the strings it was
      handed: two decoders that agree on them give the same report. */
  lemma {:induction false} UnwrapUsesDecoded(val: Json, d1: string -> Option<Json>, d2: string -> Option<Json>, n: nat)
    requires forall s :: s in Decoded(val, d1, n) ==> d1(s) == d2(s)
    ensures Unwrap(val, d1, n) == Unwrap(val, d2, n)
    ensures Decoded(val, d1, n) == Decoded(val, d2, n)
    decreases n
  {
    if n > 0 && val.JStr? {
      assert val.s in Decoded(val, d1, n);
      match d1(val.s)
      case None =>
      case Some(v) =>
        forall s | s in Decoded(v, d1, n - 1) ensures d1(s) == d2(s) {
          assert s in Decoded(val, d1, n);
        }
        UnwrapUsesDecoded(v, d1, d2, n - 1);
    }
  }

  /** parse_reports performs at most three decodes and stops at the first
      failure: its result is fixed by the decoder's answers on at most three
      strings, all but the last of which decoded. */
  lemma ParseReportsDecodes(val: Json, d1: string -> Option<Json>, d2: string -> Option<Json>)
    requires forall s :: s in Decoded(val, d1, MaxLayers) ==> d1(s) == d2(s)
    ensures |Decoded(val, d1, MaxLayers)| <= 3
    ensures ParseReports(val, d1) == ParseReports(val, d2)
  {
    UnwrapUsesDecoded(val, d1, d2, MaxLayers);
  }

  /** A dict is returned as it is, without decoding. */
  lemma ParseReportsOfDict(m: map<string, Json>, decode: string -> Option<Json>)
    ensures ParseReports(JDict(m), decode) == m
    ensures Decoded(JDict(m), decode, MaxLayers) == []
  {
  }

  /** A string the decoder rejects yields {}. */
  lemma ParseReportsRejected(s: string, decode: string -> Option<Json>)
    requires decode(s).None?
    ensures ParseReports(JStr(s), decode) == map[]
    ensures Decoded(JStr(s), decode, MaxLayers) == [s]
  {
  }

  // ---------------------------------------------------------------------
  // first_existing, get_tables, norm_get
  // ---------------------------------------------------------------------

  function IsDictAt(d: map<string, Json>): string -> bool {
    k => Get(d, k).JDict?
  }

  /** first_existing(d, keys): the first key whose value is a dict, with that
      dict; None stands for (None, default). */
  function FirstExisting(d: map<string, Json>, keys: seq<string>): (r: Option<(string, map<string, Json>)>)
    ensures r.Some? ==> r.value.0 in keys && Get(d, r.value.0) == JDict(r.value.1)
    ensures r.Some? ==> forall j :: 0 <= j < |keys| && keys[j] != r.value.0 && Get(d, keys[j]).JDict?
                          ==> exists i :: 0 <= i < j && keys[i] == r.value.0
    ensures r.None? <==> forall k :: k in keys ==> !Get(d, k).JDict?
  {
    match FirstIndex(keys, IsDictAt(d))
    case None => None
    case Some(i) => Some((keys[i], Get(d, keys[i]).fields))
  }

  /** get_tables(rep, lang): the "tables" list of the language block when it
      is a dict, else the top-level "tables" list; [] when not a list. The
      empty string stands for a missing language key. */
  function GetTables(rep: map<string, Json>, lang: string): (r: seq<Json>)
    ensures lang != "" && Get(rep, lang).JDict? ==> r == ListOrEmpty(Get(Get(rep, lang).fields, "tables"))
    ensures !(lang != "" && Get(rep, lang).JDict?) ==> r == ListOrEmpty(Get(rep, "tables"))
  {
    if lang != "" && Get(rep, lang).JDict? then ListOrEmpty(Get(rep[lang].fields, "tables"))
    else ListOrEmpty(Get(rep, "tables"))
  }

  /** With a dict language block, only that block is read: the rest of the
      report, top-level "tables" included, does not matter. */
  lemma GetTablesBlockOnly(rep: map<string, Json>, other: map<string, Json>, lang: string)
    requires lang != "" && Get(rep, lang).JDict? && Get(other, lang) == Get(rep, lang)
    ensures GetTables(rep, lang) == GetTables(other, lang)
  {
  }

  /** The single-character replace k.replace(a, b). */
  function ReplaceChar(s: string, a: char, b: char): (r: string)
    ensures |r| == |s|
    ensures forall i :: 0 <= i < |s| ==> r[i] == (if s[i] == a then b else s[i])
  {
    seq(|s|, i requires 0 <= i < |s| => if s[i] == a then b else s[i])
  }

  /** norm_get's alternative spelling: hyphens become underscores when the
      key has a hyphen, otherwise underscores become hyphens. */
  function Swapped(k: string): string {
    if '-' in k then ReplaceChar(k, '-', '_') else ReplaceChar(k, '_', '-')
  }

  /** A key that does not mix both separators is recovered by swapping twice. */
  lemma SwappedTwice(k: string)
    requires !('-' in k && '_' in k)
    ensures Swapped(Swapped(k)) == k
  {
    var s := Swapped(k);
    if '-' in k {
      assert '-' !in s by {
        forall i | 0 <= i < |s| ensures s[i] != '-' { }
      }
    } else {
      assert forall i :: 0 <= i < |k| ==> k[i] != '-';
      assert s == ReplaceChar(k, '_', '-');
      if '-' !in s {
        assert forall i :: 0 <= i < |k| ==> k[i] != '_';
        assert s == k;
      }
    }
  }

  function InTable(table: map<string, Json>): string -> bool {
    k => k in table
  }

  function SwappedInTable(table: map<string, Json>): string -> bool {
    k => Swapped(k) in table
  }

  /** norm_get(table, *keys): None stands for the default. Every exact key,
      in order, is tried before any swapped spelling. */
  function NormGet(table: map<string, Json>, keys: seq<string>): (r: Option<Json>)
    ensures forall i :: 0 <= i < |keys| && keys[i] in table && (forall j :: 0 <= j < i ==> keys[j] !in table)
              ==> r == Some(table[keys[i]])
    ensures (forall j :: 0 <= j < |keys| ==> keys[j] !in table) ==>
              forall i :: 0 <= i < |keys| && Swapped(keys[i]) in table && (forall j :: 0 <= j < i ==> Swapped(keys[j]) !in table)
                ==> r == Some(table[Swapped(keys[i])])
    ensures r.None? <==> forall j :: 0 <= j < |keys| ==> keys[j] !in table && Swapped(keys[j]) !in table
  {
    match FirstIndex(keys, InTable(table))
    case Some(i) => Some(table[keys[i]])
    case None =>
      match FirstIndex(keys, SwappedInTable(table))
      case Some(i) => Some(table[Swapped(keys[i])])
      case None => None
  }

  // ---------------------------------------------------------------------
  // aggregate_table_metrics
  // ---------------------------------------------------------------------

  const ErrorKeys: seq<string> := ["error-count", "error_count"]
  const RowKeys: seq<string> := ["row-count", "row_count"]

  /** int(v or 0) for a count read from a table; None where int() raises. */
  function CountValue(v: Json): (r: Option<int>)
    ensures !Truthy(v) ==> r == Some(0)
    ensures v.JInt? ==> r == Some(v.i)
    ensures v == JBool(true) ==> r == Some(1)
    ensures v.JStr? && v.s != "" ==> r == ParseInt(v.s)
    ensures Truthy(v) && (v.JList? || v.JDict?) ==> r == None
  {
    if !Truthy(v) then Some(0)
    else
      match v
      case JBool(_) => Some(1)
      case JInt(i) => Some(i)
      case JStr(s) => ParseInt(s)
      case _ => None
  }

  /** The error and row counts a table adds (a missing count is 0); None
      where the table is not a dict or a count does not convert. */
  function TableCounts(t: Json): Option<(int, int)> {
    if !t.JDict? then None
    else
      var e := CountValue(NormGet(t.fields, ErrorKeys).GetOr(JInt(0)));
      var w := CountValue(NormGet(t.fields, RowKeys).GetOr(JInt(0)));
      if e.Some? && w.Some? then Some((e.value, w.value)) else None
  }

  /** A table's `valid` when it is a bool. */
  function ValidOf(t: Json): Option<bool> {
    if t.JDict? && "valid" in t.fields && t.fields["valid"].JBool? then Some(t.fields["valid"].b) else None
  }

  /** The aggregate: summed counts and a verdict that is None ("unknown")
      when no table has a boolean `valid`. */
  datatype Metrics = Metrics(errorCount: int, rowCount: int, validAll: Option<bool>)

  function AndValid(acc: Option<bool>, v: Option<bool>): Option<bool> {
    match v
    case None => acc
    case Some(b) => Some(acc.GetOr(true) && b)
  }

  /** The loop of aggregate_table_metrics over the tables, with the
      per-table counts as a parameter; None where the loop raises. */
  function AggregateWith(tables: seq<Json>, counts: Json -> Option<(int, int)>): Option<Metrics>
    decreases |tables|
  {
    if tables == [] then Some(Metrics(0, 0, None))
    else
      var last := tables[|tables| - 1];
      match AggregateWith(tables[..|tables| - 1], counts)
      case None => None
      case Some(m) =>
        match counts(last)
        case None => None
        case Some(c) => Some(Metrics(m.errorCount + c.0, m.rowCount + c.1, AndValid(m.validAll, ValidOf(last))))
  }

  /** aggregate_table_metrics(tables) */
  function Aggregate(tables: seq<Json>): Option<Metrics> {
    AggregateWith(tables, TableCounts)
  }

  /** aggregate_table_metrics(tables) */
  method AggregateTableMetrics(tables: seq<Json>) returns (r: Option<Metrics>)
    ensures r == Aggregate(tables)
    ensures tables == [] ==> r == Some(Metrics(0, 0, None))
  {
    r := AggregateLoop(tables, TableCounts);
  }

  /** The accumulation loop of aggregate_table_metrics, for the per-table
      counts `counts`: running totals, a running AND of the boolean `valid`
      values and a flag recording whether any was seen. */
  method AggregateLoop(tables: seq<Json>, counts: Json -> Option<(int, int)>) returns (r: Option<Metrics>)
    ensures r == AggregateWith(tables, counts)
  {
    if tables == [] {
      return Some(Metrics(0, 0, None));
    }
    var errorTotal := 0;
    var rowTotal := 0;
    var validAll := true;
    var sawValid := false;
    for i := 0 to |tables|
      invariant AggregateWith(tables[..i], counts) == Some(Metrics(errorTotal, rowTotal, if sawValid then Some(validAll) else None))
      invariant !sawValid ==> validAll
    {
      var t := tables[i];
      assert tables[..i + 1][..i] == tables[..i];
      var c := counts(t);
      if c.None? {
        AggregateFailsLater(tables, i + 1, counts);
        return None;
      }
      errorTotal := errorTotal + c.value.0;
      rowTotal := rowTotal + c.value.1;
      var v := ValidOf(t);
      if v.Some? {
        sawValid := true;
        validAll := validAll && v.value;
      }
    }
    assert tables[..|tables|] == tables;
    if !sawValid {
      r := Some(Metrics(errorTotal, rowTotal, None));
    } else {
      r := Some(Metrics(errorTotal, rowTotal, Some(validAll)));
    }
  }

  /** A table that raises makes the whole aggregation raise. */
  lemma {:induction false} AggregateFailsLater(tables: seq<Json>, k: nat, counts: Json -> Option<(int, int)>)
    requires k <= |tables| && AggregateWith(tables[..k], counts).None?
    ensures AggregateWith(tables, counts).None?
    decreases |tables| - k
  {
    if k < |tables| {
      assert tables[..k + 1][..k] == tables[..k];
      AggregateFailsLater(tables, k + 1, counts);
    } else {
      assert tables[..k] == tables;
    }
  }

  /** The aggregation raises exactly when some table's counts raise. */
  lemma {:induction false} AggregateFails(tables: seq<Json>, counts: Json -> Option<(int, int)>)
    ensures AggregateWith(tables, counts).None? <==> exists i :: 0 <= i < |tables| && counts(tables[i]).None?
    decreases |tables|
  {
    if tables != [] {
      var init := tables[..|tables| - 1];
      AggregateFails(init, counts);
      assert forall i :: 0 <= i < |init| ==> init[i] == tables[i];
      if AggregateWith(init, counts).None? {
        var i :| 0 <= i < |init| && counts(init[i]).None?;
        assert counts(tables[i]).None?;
      }
    }
  }

  /** The error count a table adds, 0 where it raises. */
  function ErrorsOf(counts: Json -> Option<(int, int)>): Json -> int {
    t => match counts(t) case Some(c) => c.0 case None => 0
  }

  /** The row count a table adds, 0 where it raises. */
  function RowsOf(counts: Json -> Option<(int, int)>): Json -> int {
    t => match counts(t) case Some(c) => c.1 case None => 0
  }

  /** The totals are the sums of the per-table counts. */
  lemma {:induction false} AggregateSums(tables: seq<Json>, counts: Json -> Option<(int, int)>)
    requires AggregateWith(tables, counts).Some?
    ensures AggregateWith(tables, counts).value.errorCount == Sum(tables, ErrorsOf(counts))
    ensures AggregateWith(tables, counts).value.rowCount == Sum(tables, RowsOf(counts))
    decreases |tables|
  {
    if tables != [] {
      var init := tables[..|tables| - 1];
      var last := tables[|tables| - 1];
      assert tables == init + [last];
      AggregateSums(init, counts);
      SumConcat(init, [last], ErrorsOf(counts));
      SumConcat(init, [last], RowsOf(counts));
    }
  }

  /** The verdict is unknown exactly when no table has a boolean `valid`,
      and otherwise true exactly when none of them is False. */
  lemma {:induction false} AggregateValidity(tables: seq<Json>, counts: Json -> Option<(int, int)>)
    requires AggregateWith(tables, counts).Some?
    ensures AggregateWith(tables, counts).value.validAll.None? <==> forall i :: 0 <= i < |tables| ==> ValidOf(tables[i]).None?
    ensures AggregateWith(tables, counts).value.validAll.Some? ==>
              (AggregateWith(tables, counts).value.validAll.value <==> forall i :: 0 <= i < |tables| ==> ValidOf(tables[i]) != Some(false))
    decreases |tables|
  {
    if tables != [] {
      var init := tables[..|tables| - 1];
      AggregateValidity(init, counts);
      assert forall i :: 0 <= i < |init| ==> init[i] == tables[i];
    }
  }

  // ---------------------------------------------------------------------
  // language_blocks
  // ---------------------------------------------------------------------

  const GenericKeys: seq<string> := ["report", "data"]

  /** The tables of the legacy 'report'/'data' block, used only when it is
      a non-empty dict. */
  function GenericTables(rep: map<string, Json>): seq<Json> {
    match FirstExisting(rep, GenericKeys)
    case Some(kv) => if kv.1 != map[] then ListOrEmpty(Get(kv.1, "tables")) else []
    case None => []
  }

  /** language_blocks(rep): the 'en' and 'fr' table lists. */
  function LanguageBlocks(rep: map<string, Json>): (r: map<string, seq<Json>>)
    ensures r.Keys == {"en", "fr"}
  {
    var en := Get(rep, "en").JDict?;
    var fr := Get(rep, "fr").JDict?;
    if en || fr then
      map["en" := if en then GetTables(rep, "en") else [], "fr" := if fr then GetTables(rep, "fr") else []]
    else
      map["en" := GenericTables(rep), "fr" := []]
  }

  method BuildLanguageBlocks(rep: map<string, Json>) returns (langs: map<string, seq<Json>>)
    ensures langs == LanguageBlocks(rep)
  {
    langs := map[];
    if Get(rep, "en").JDict? {
      langs := langs["en" := GetTables(rep, "en")];
    }
    if Get(rep, "fr").JDict? {
      langs := langs["fr" := GetTables(rep, "fr")];
    }
    if langs == map[] {
      var generic := FirstExisting(rep, GenericKeys);
      if generic.Some? && generic.value.1 != map[] {
        var g := generic.value.1;
        langs := langs["en" := ListOrEmpty(Get(g, "tables"))];
      }
    }
    if "en" !in langs {
      langs := langs["en" := []];
    }
    if "fr" !in langs {
      langs := langs["fr" := []];
    }
  }

  /** When 'en' or 'fr' is a dict, the result is read from those two blocks
      alone: the legacy block and the top level are never consulted. */
  lemma LanguageBlocksExplicit(rep: map<string, Json>, other: map<string, Json>)
    requires Get(rep, "en").JDict? || Get(rep, "fr").JDict?
    requires Get(other, "en") == Get(rep, "en") && Get(other, "fr") == Get(rep, "fr")
    ensures LanguageBlocks(rep) == LanguageBlocks(other)
  {
    if Get(rep, "en").JDict? {
      GetTablesBlockOnly(rep, other, "en");
    }
    if Get(rep, "fr").JDict? {
      GetTablesBlockOnly(rep, other, "fr");
    }
  }

  /** Without an 'en' or 'fr' dict, 'fr' is empty and 'en' holds the
      tables of the first legacy block, which must be a non-empty dict. */
  lemma LanguageBlocksGeneric(rep: map<string, Json>)
    requires !Get(rep, "en").JDict? && !Get(rep, "fr").JDict?
    ensures LanguageBlocks(rep)["fr"] == []
    ensures LanguageBlocks(rep)["en"] != [] ==>
              exists k :: k in GenericKeys && Get(rep, k).JDict? && Get(rep, k).fields != map[]
                && LanguageBlocks(rep)["en"] == ListOrEmpty(Get(Get(rep, k).fields, "tables"))
  {
    var r := LanguageBlocks(rep);
    if r["en"] != [] {
      var kv := FirstExisting(rep, GenericKeys).value;
      assert kv.0 in GenericKeys && Get(rep, kv.0).fields == kv.1;
    }
  }
}

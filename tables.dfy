/** The three open-data tables as build_db.py reads them: every cell is a
    string (read_csv with dtype=str and blanks for missing values), and
    tables A and B must carry the columns the pipeline needs. */
module Tables {
  import opened Wrappers
  import opened Text

  /** A CSV dump: its header and one map from column name to cell per row. */
  datatype Csv = Csv(columns: seq<string>, rows: seq<map<string, string>>)

  /** A cell, "" where the row has no value for the column (C's missing
      columns are filled with "" the same way). */
  function Cell(row: map<string, string>, col: string): string {
    if col in row then row[col] else ""
  }

  /** [c for c in need if c not in df.columns], in the order of `need`. */
  function MissingColumns(need: seq<string>, columns: seq<string>): (miss: seq<string>)
    ensures forall c :: c in miss <==> c in need && c !in columns
    ensures |miss| <= |need|
  {
    if need == [] then []
    else (if need[0] in columns then [] else [need[0]]) + MissingColumns(need[1..], columns)
  }

  datatype SchemaError = SchemaError(table: string, missing: seq<string>)

  /** Table B: one row per informal request. */
  datatype BRow = BRow(owner: string, request: string, informal: string, uid: string)

  /** Table C: request summaries. */
  datatype CRow = CRow(owner: string, request: string, summaryEn: string, summaryFr: string)

  /** Table A: the tracking numbers each organisation published. */
  datatype ARow = ARow(owner: string, tracking: string)

  const NeedB: seq<string> := ["owner_org", "Request Number", "Number of Informal Requests", "Unique Identifier"]
  const NeedA: seq<string> := ["owner_org", "tracking_number"]

  /** Reads B; a ValueError naming the missing columns when any needed column is absent. */
  function ReadB(csv: Csv): (r: Result<seq<BRow>, SchemaError>)
    ensures r.Err? <==> exists c :: c in NeedB && c !in csv.columns
    ensures r.Err? ==> r.error == SchemaError("B", MissingColumns(NeedB, csv.columns))
    ensures r.Ok? ==> |r.value| == |csv.rows|
    ensures r.Ok? ==> forall i :: 0 <= i < |csv.rows| ==>
      r.value[i] == BRow(Cell(csv.rows[i], "owner_org"), Cell(csv.rows[i], "Request Number"),
                         Cell(csv.rows[i], "Number of Informal Requests"), Cell(csv.rows[i], "Unique Identifier"))
  {
    var miss := MissingColumns(NeedB, csv.columns);
    if miss != [] then assert miss[0] in miss; Err(SchemaError("B", miss))
    else
      Ok(seq(|csv.rows|, i requires 0 <= i < |csv.rows| =>
        var row := csv.rows[i];
        BRow(Cell(row, "owner_org"), Cell(row, "Request Number"),
             Cell(row, "Number of Informal Requests"), Cell(row, "Unique Identifier"))))
  }

  /** Reads C; columns C lacks are added as "" rather than rejected. */
  function ReadC(csv: Csv): (r: seq<CRow>)
    ensures |r| == |csv.rows|
    ensures forall i :: 0 <= i < |r| ==> ("summary_en" !in csv.rows[i] ==> r[i].summaryEn == "")
    ensures forall i :: 0 <= i < |r| ==>
      r[i].owner == Cell(csv.rows[i], "owner_org") && r[i].request == Cell(csv.rows[i], "request_number") &&
      r[i].summaryEn == Cell(csv.rows[i], "summary_en") && r[i].summaryFr == Cell(csv.rows[i], "summary_fr")
  {
    seq(|csv.rows|, i requires 0 <= i < |csv.rows| =>
      var row := csv.rows[i];
      CRow(Cell(row, "owner_org"), Cell(row, "request_number"), Cell(row, "summary_en"), Cell(row, "summary_fr")))
  }

  /** Reads A; a ValueError when owner_org or tracking_number is absent. */
  function ReadA(csv: Csv): (r: Result<seq<ARow>, SchemaError>)
    ensures r.Err? <==> exists c :: c in NeedA && c !in csv.columns
    ensures r.Err? ==> r.error == SchemaError("A", MissingColumns(NeedA, csv.columns))
    ensures r.Ok? ==> |r.value| == |csv.rows|
    ensures r.Ok? ==> forall i :: 0 <= i < |csv.rows| ==>
      r.value[i].owner == Cell(csv.rows[i], "owner_org") && r.value[i].tracking == Cell(csv.rows[i], "tracking_number")
  {
    var miss := MissingColumns(NeedA, csv.columns);
    if miss != [] then assert miss[0] in miss; Err(SchemaError("A", miss))
    else
      Ok(seq(|csv.rows|, i requires 0 <= i < |csv.rows| =>
        ARow(Cell(csv.rows[i], "owner_org"), Cell(csv.rows[i], "tracking_number"))))
  }

  /** pd.to_numeric(s, errors="coerce") on integer text: surrounding
      whitespace, an optional sign and at least one digit; None where pandas
      yields NaN. */
  function ToNumeric(s: string): (r: Option<int>)
    ensures r.Some? ==> Trim(s) != []
  {
    var t := Trim(s);
    if t == [] then None
    else
      var body := if t[0] == '-' || t[0] == '+' then t[1..] else t;
      if body == [] || !AllDigits(body) then None
      else
        var v: int := DigitsValue(body);
        Some(if t[0] == '-' then -v else v)
  }

  /** ....fillna(0): the metric a row contributes. */
  function Metric(s: string): int {
    ToNumeric(s).GetOr(0)
  }

  /** The metric read back from its own decimal rendering is the number itself. */
  lemma MetricOfIntToString(n: int)
    ensures ToNumeric(IntToString(n)) == Some(n)
    ensures Metric(IntToString(n)) == n
  {
    var s := IntToString(n);
    var digits := if n < 0 then NatToString(-n) else NatToString(n);
    assert s[|s| - 1] == digits[|digits| - 1];
    TrimOfTrimmed(s);
    var body := if s[0] == '-' || s[0] == '+' then s[1..] else s;
    assert body == digits;
    NatToStringValue(if n < 0 then -n else n);
  }

  /** Text without a single digit ("", "n/a", "-") is not a number and
      contributes 0. */
  lemma MetricOfText(s: string)
    requires forall i :: 0 <= i < |s| ==> !IsDigit(s[i])
    ensures ToNumeric(s) == None && Metric(s) == 0
  {
    var u := TrimStart(s);
    var t := Trim(s);
    assert t == u[..|t|] && u == s[|s| - |u|..];
    if t != [] {
      var body := if t[0] == '-' || t[0] == '+' then t[1..] else t;
      if body != [] {
        assert body[0] == s[|s| - |u| + |t| - |body|];
        assert !AllDigits(body);
      }
    }
  }

  /** pd.to_numeric reads the digits inside surrounding spaces. */
  lemma MetricOfPadded(core: string)
    requires core != [] && AllDigits(core)
    ensures Metric([' '] + core + [' ']) == DigitsValue(core)
  {
    assert IsDigit(core[0]) && IsDigit(core[|core| - 1]);
    TrimPadded(core);
    var s := [' '] + core + [' '];
    assert Trim(s) == core;
    assert core[0] != '-' && core[0] != '+';
    assert ToNumeric(s) == Some(DigitsValue(core));
  }
}

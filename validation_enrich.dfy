/** The metadata normalisers and the active-resource filter of the
    validation enricher (VALIDATION/scripts/enrich_validation.py): every
    resource of the open-data dump is indexed by its id, and a validation
    row is kept, updated with that metadata, only when its resource is in
    the index with status "active". */
module ValidationEnrich {
  import opened Wrappers
  import opened Text
  import opened Seqs
  import opened Json

  type Object = map<string, Json>

  // ---------------------------------------------------------------------
  // norm_translated
  // ---------------------------------------------------------------------

  /** One side before the plain value is consulted: the `<base>_<lang>`
      key when present (whatever its value), else the truthy `lang` entry
      of the `<base>_translated` / `<base>-translated` dict, else None. */
  function ExplicitSide(d: Object, base: string, lang: string): Json {
    var td := Or(Get(d, base + "_translated"), Get(d, base + "-translated"));
    var fromTd := if td.JDict? then Or(Get(td.fields, lang), JNull) else JNull;
    var key := base + "_" + lang;
    if key in d then d[key] else fromTd
  }

  /** One side of norm_translated(d, base): the plain `<base>` value fills
      it only while it is falsy, and a side still falsy becomes "". */
  function Side(d: Object, base: string, lang: string): (r: Json)
    ensures Truthy(r) || r == JStr("")
  {
    var v := ExplicitSide(d, base, lang);
    var single := Get(d, base);
    var filled := if Truthy(single) && !Truthy(v) then single else v;
    Or(filled, JStr(""))
  }

  /** norm_translated(d, base): the (en, fr) pair. */
  function NormTranslated(d: Object, base: string): (Json, Json) {
    (Side(d, base, "en"), Side(d, base, "fr"))
  }

  /** The order of precedence of one side: a present `<base>_<lang>` key
      wins over the translated dict even when its value is empty, the
      translated dict comes next, and the plain value fills only a side that
      is still falsy. */
  lemma SidePrecedence(d: Object, base: string, lang: string)
    ensures (base + "_" + lang in d && Truthy(d[base + "_" + lang])) ==>
              Side(d, base, lang) == d[base + "_" + lang]
    ensures (base + "_" + lang in d && !Truthy(d[base + "_" + lang])) ==>
              Side(d, base, lang) == Or(Get(d, base), JStr(""))
    ensures (base + "_" + lang !in d && Truthy(ExplicitSide(d, base, lang))) ==>
              Side(d, base, lang) == ExplicitSide(d, base, lang)
    ensures !Truthy(ExplicitSide(d, base, lang)) ==> Side(d, base, lang) == Or(Get(d, base), JStr(""))
  {
  }

  // ---------------------------------------------------------------------
  // best_org_name
  // ---------------------------------------------------------------------

  /** The organisation block: `dataset.get("organization") or {}`. */
  function OrgOf(ds: Object): Json {
    Or(Get(ds, "organization"), JDict(map[]))
  }

  /** The name found inside an organisation dict, if any: its English
      title, else a string title (even an empty one), else a string name,
      else a string id. */
  function NameInOrg(org: Object): Option<Json> {
    var tEn := NormTranslated(org, "title").0;
    if Truthy(tEn) then Some(tEn)
    else if Get(org, "title").JStr? then Some(Get(org, "title"))
    else if Get(org, "name").JStr? then Some(Get(org, "name"))
    else if Get(org, "id").JStr? then Some(Get(org, "id"))
    else None
  }

  /** best_org_name(dataset) */
  function BestOrgName(ds: Object): (r: Json)
    ensures r.JStr? || Truthy(r)
  {
    var org := OrgOf(ds);
    var inOrg := if org.JDict? then NameInOrg(org.fields) else None;
    match inOrg
    case Some(v) => v
    case None =>
      var owner := Get(ds, "owner_org");
      if owner.JStr? then owner else JStr("")
  }

  /** The fallbacks of best_org_name, in order: the organisation's English
      title, a string title (an empty one stops the search), a string name,
      a string id, a string owner_org, and "". */
  lemma BestOrgNameOrder(ds: Object)
    ensures var org := OrgOf(ds);
      var tEn := if org.JDict? then NormTranslated(org.fields, "title").0 else JNull;
      && ((org.JDict? && Truthy(tEn)) ==>
            BestOrgName(ds) == tEn)
      && ((org.JDict? && !Truthy(tEn) && Get(org.fields, "title").JStr?) ==>
            BestOrgName(ds) == Get(org.fields, "title"))
      && ((org.JDict? && !Truthy(tEn) && !Get(org.fields, "title").JStr? && Get(org.fields, "name").JStr?) ==>
            BestOrgName(ds) == Get(org.fields, "name"))
      && ((org.JDict? && !Truthy(tEn) && !Get(org.fields, "title").JStr? && !Get(org.fields, "name").JStr?
           && Get(org.fields, "id").JStr?) ==>
            BestOrgName(ds) == Get(org.fields, "id"))
      && ((!org.JDict? || NameInOrg(org.fields).None?) ==>
            BestOrgName(ds) == (if Get(ds, "owner_org").JStr? then Get(ds, "owner_org") else JStr("")))
  {
  }

  // ---------------------------------------------------------------------
  // get_resource_status, normalize_url_type
  // ---------------------------------------------------------------------

  const StatusKeys: seq<string> := ["state", "status", "resource_status", "resource-status", "state_en", "status_en"]

  function TruthyIn(d: Object): string -> bool {
    k => Truthy(Get(d, k))
  }

  /** `d.get(k1) or d.get(k2) or ... or ""` */
  function FirstTruthy(d: Object, keys: seq<string>): (v: Json)
    ensures forall i :: 0 <= i < |keys| && Truthy(Get(d, keys[i])) && (forall j :: 0 <= j < i ==> !Truthy(Get(d, keys[j])))
              ==> v == Get(d, keys[i])
    ensures (forall j :: 0 <= j < |keys| ==> !Truthy(Get(d, keys[j]))) ==> v == JStr("")
  {
    match FirstIndex(keys, TruthyIn(d))
    case Some(i) => Get(d, keys[i])
    case None => JStr("")
  }

  lemma LowerKeepsSpace(s: string)
    ensures forall i :: 0 <= i < |s| ==> (IsSpace(Lower(s)[i]) <==> IsSpace(s[i]))
  {
  }

  /** A stripped text stays stripped when lower-cased. */
  lemma LowerTrimmed(s: string)
    ensures Trim(Lower(Trim(s))) == Lower(Trim(s))
    ensures Lower(Lower(Trim(s))) == Lower(Trim(s))
  {
    var t := Trim(s);
    LowerKeepsSpace(t);
    TrimOfTrimmed(Lower(t));
    LowerIdempotent(t);
  }

  /** get_resource_status(r): the first truthy status field, stripped and
      lower-cased; "" when there is none or it is not a string. */
  function ResourceStatus(r: Object): (s: string)
    ensures Trim(s) == s && Lower(s) == s
    ensures FirstTruthy(r, StatusKeys).JStr? ==> s == Lower(Trim(FirstTruthy(r, StatusKeys).s))
    ensures !FirstTruthy(r, StatusKeys).JStr? ==> s == ""
  {
    var v := FirstTruthy(r, StatusKeys);
    if v.JStr? then LowerTrimmed(v.s); Lower(Trim(v.s)) else ""
  }

  /** A truthy value that is not a string hides every later status field. */
  lemma StatusNonString(r: Object, i: nat)
    requires i < |StatusKeys| && Truthy(Get(r, StatusKeys[i])) && !Get(r, StatusKeys[i]).JStr?
    requires forall j :: 0 <= j < i ==> !Truthy(Get(r, StatusKeys[j]))
    ensures ResourceStatus(r) == ""
  {
  }

  const Upload: string := "upload"
  const Remote: string := "remote"

  lemma UploadShape()
    ensures Lower(Trim(Upload)) == Upload
  {
    var u := Upload;
    assert |u| == 6 && u[0] == 'u' && u[1] == 'p' && u[2] == 'l' && u[3] == 'o' && u[4] == 'a' && u[5] == 'd';
    TrimOfTrimmed(u);
    LowerNoUpper(u);
  }

  lemma RemoteShape()
    ensures Lower(Trim(Remote)) == Remote
    ensures Remote != Upload
  {
    var m := Remote;
    assert |m| == 6 && m[0] == 'r' && m[1] == 'e' && m[2] == 'm' && m[3] == 'o' && m[4] == 't' && m[5] == 'e';
    TrimOfTrimmed(m);
    LowerNoUpper(m);
    assert Upload[0] == 'u';
  }

  /** normalize_url_type(value): 'upload' exactly when the value is a
      string that strips and lower-cases to 'upload', else 'remote'. */
  function NormalizeUrlType(v: Json): (r: string)
    ensures r == Upload || r == Remote
    ensures r == Upload <==> v.JStr? && Lower(Trim(v.s)) == Upload
  {
    RemoteShape();
    if v.JStr? && Lower(Trim(v.s)) == Upload then Upload else Remote
  }

  lemma NormalizeUrlTypeIdempotent(v: Json)
    ensures NormalizeUrlType(JStr(NormalizeUrlType(v))) == NormalizeUrlType(v)
  {
    UploadShape();
    RemoteShape();
  }

  // ---------------------------------------------------------------------
  // build_resource_index
  // ---------------------------------------------------------------------

  /** The eight fields a resource's index entry carries. */
  datatype Meta = Meta(nameEn: Json, nameFr: Json, datasetId: Json, titleEn: Json, titleFr: Json,
                       orgName: Json, urlType: string, status: string)

  /** What a dataset line contributes to each of its resources. */
  datatype DatasetInfo = DatasetInfo(id: Json, titleEn: Json, titleFr: Json, orgName: Json)

  function InfoOf(ds: Object): DatasetInfo {
    var t := NormTranslated(ds, "title");
    DatasetInfo(Or(Get(ds, "id"), Or(Get(ds, "dataset_id"), JStr(""))), t.0, t.1, BestOrgName(ds))
  }

  /** A resource's name pair; its title pair only when both name sides are empty. */
  function ResourceNames(r: Object): (p: (Json, Json))
    ensures var n := NormTranslated(r, "name");
      && ((Truthy(n.0) || Truthy(n.1)) ==> p == n)
      && ((!Truthy(n.0) && !Truthy(n.1)) ==> p == NormTranslated(r, "title"))
  {
    var n := NormTranslated(r, "name");
    if !Truthy(n.0) && !Truthy(n.1) then NormTranslated(r, "title") else n
  }

  /** The entry idx[rid] of a resource. */
  function MetaOf(info: DatasetInfo, r: Object): Meta {
    var names := ResourceNames(r);
    var urlType := NormalizeUrlType(Or(Get(r, "url_type"), Or(Get(r, "url-type"), JStr(""))));
    Meta(names.0, names.1, info.id, info.titleEn, info.titleFr, info.orgName, urlType, ResourceStatus(r))
  }

  /** The entry of resource r of dataset ds. */
  function EntryOf(ds: Object, r: Object): Meta {
    MetaOf(InfoOf(ds), r)
  }

  /** The entries of the resources of dataset ds. */
  function EntryIn(entry: (Object, Object) -> Meta, ds: Object): Object -> Meta {
    r => entry(ds, r)
  }

  /** The (id, entry) pairs of one dataset's resources, in order; resources
      whose id is not a string are skipped; None where a resource is not a
      dict (r.get raises). The entry of a resource is given by `meta`. */
  function ResourceEntries(rs: seq<Json>, meta: Object -> Meta): Option<seq<(string, Meta)>>
    decreases |rs|
  {
    if rs == [] then Some([])
    else
      var r := rs[|rs| - 1];
      match ResourceEntries(rs[..|rs| - 1], meta)
      case None => None
      case Some(es) =>
        if !r.JDict? then None
        else if !Get(r.fields, "id").JStr? then Some(es)
        else Some(es + [(Get(r.fields, "id").s, meta(r.fields))])
  }

  /** One more resource: a dict adds its entry when its id is a string. */
  lemma ResourceEntriesStep(rs: seq<Json>, meta: Object -> Meta, j: nat, es: seq<(string, Meta)>)
    requires j < |rs| && ResourceEntries(rs[..j], meta) == Some(es) && rs[j].JDict?
    ensures var r := rs[j];
      ResourceEntries(rs[..j + 1], meta) ==
        if Get(r.fields, "id").JStr? then Some(es + [(Get(r.fields, "id").s, meta(r.fields))]) else Some(es)
  {
    assert rs[..j + 1][..j] == rs[..j];
  }

  /** The resources of a dataset line: `ds.get("resources") or []`. */
  function ResourcesOf(ds: Object): Json {
    Or(Get(ds, "resources"), JList([]))
  }

  /** The pairs one line of the dump contributes: none when it does not
      decode or its resources are not a list; None where the decoded value
      is not a dict (ds.get raises) or a resource raises. */
  function LineEntries(d: Option<Json>, entry: (Object, Object) -> Meta): Option<seq<(string, Meta)>> {
    match d
    case None => Some([])
    case Some(ds) =>
      if !ds.JDict? then None
      else if !ResourcesOf(ds.fields).JList? then Some([])
      else ResourceEntries(ResourcesOf(ds.fields).items, EntryIn(entry, ds.fields))
  }

  /** The pairs of all lines, in order; None where a line raises. */
  function IndexEntries(lines: seq<string>, decode: string -> Option<Json>, entry: (Object, Object) -> Meta)
    : Option<seq<(string, Meta)>>
    decreases |lines|
  {
    if lines == [] then Some([])
    else
      match IndexEntries(lines[..|lines| - 1], decode, entry)
      case None => None
      case Some(es) =>
        match LineEntries(decode(lines[|lines| - 1]), entry)
        case None => None
        case Some(more) => Some(es + more)
  }

  /** The pairs as a dict, later ones overwriting. */
  function IndexWith(lines: seq<string>, decode: string -> Option<Json>, entry: (Object, Object) -> Meta)
    : Option<map<string, Meta>>
  {
    match IndexEntries(lines, decode, entry)
    case None => None
    case Some(es) => Some(DictOf(es))
  }

  /** build_resource_index(path) over the lines of the dump. */
  function ResourceIndex(lines: seq<string>, decode: string -> Option<Json>): Option<map<string, Meta>> {
    IndexWith(lines, decode, EntryOf)
  }

  lemma {:induction false} ResourceEntriesFailLater(rs: seq<Json>, meta: Object -> Meta, k: nat)
    requires k <= |rs| && ResourceEntries(rs[..k], meta).None?
    ensures ResourceEntries(rs, meta).None?
    decreases |rs| - k
  {
    if k < |rs| {
      assert rs[..k + 1][..k] == rs[..k];
      ResourceEntriesFailLater(rs, meta, k + 1);
    } else {
      assert rs[..k] == rs;
    }
  }

  lemma {:induction false} IndexEntriesFailLater(lines: seq<string>, decode: string -> Option<Json>,
                                                 entry: (Object, Object) -> Meta, k: nat)
    requires k <= |lines| && IndexEntries(lines[..k], decode, entry).None?
    ensures IndexEntries(lines, decode, entry).None?
    decreases |lines| - k
  {
    if k < |lines| {
      assert lines[..k + 1][..k] == lines[..k];
      IndexEntriesFailLater(lines, decode, entry, k + 1);
    } else {
      assert lines[..k] == lines;
    }
  }

  /** The inner loop of build_resource_index: idx[rid] is assigned in place
      for every resource of one dataset. */
  method AddResources(ghost es: seq<(string, Meta)>, idx: map<string, Meta>, rs: seq<Json>, meta: Object -> Meta)
    returns (r: Option<map<string, Meta>>)
    requires idx == DictOf(es)
    ensures ResourceEntries(rs, meta).None? ==> r.None?
    ensures ResourceEntries(rs, meta).Some? ==> r == Some(DictOf(es + ResourceEntries(rs, meta).value))
  {
    var cur := idx;
    ghost var local: seq<(string, Meta)> := [];
    assert es + local == es;
    for j := 0 to |rs|
      invariant ResourceEntries(rs[..j], meta) == Some(local)
      invariant cur == DictOf(es + local)
    {
      var res := rs[j];
      if !res.JDict? {
        assert rs[..j + 1][..j] == rs[..j];
        ResourceEntriesFailLater(rs, meta, j + 1);
        return None;
      }
      ResourceEntriesStep(rs, meta, j, local);
      var rid := Get(res.fields, "id");
      if !rid.JStr? {
        continue;
      }
      var m := meta(res.fields);
      cur := cur[rid.s := m];
      DictOfSnoc(es + local, (rid.s, m));
      assert es + (local + [(rid.s, m)]) == (es + local) + [(rid.s, m)];
      local := local + [(rid.s, m)];
    }
    assert rs[..|rs|] == rs;
    r := Some(cur);
  }

  /** The outer loop of build_resource_index over the lines of the dump. */
  method IndexLoop(lines: seq<string>, decode: string -> Option<Json>, entry: (Object, Object) -> Meta)
    returns (r: Option<map<string, Meta>>)
    ensures r == IndexWith(lines, decode, entry)
  {
    var idx: map<string, Meta> := map[];
    ghost var es: seq<(string, Meta)> := [];
    for i := 0 to |lines|
      invariant IndexEntries(lines[..i], decode, entry) == Some(es)
      invariant idx == DictOf(es)
    {
      assert lines[..i + 1][..i] == lines[..i];
      var d := decode(lines[i]);
      if d.None? {
        assert es + [] == es;
        continue;
      }
      var ds := d.value;
      if !ds.JDict? {
        IndexEntriesFailLater(lines, decode, entry, i + 1);
        return None;
      }
      var resources := ResourcesOf(ds.fields);
      if !resources.JList? {
        assert es + [] == es;
        continue;
      }
      var next := AddResources(es, idx, resources.items, EntryIn(entry, ds.fields));
      if next.None? {
        IndexEntriesFailLater(lines, decode, entry, i + 1);
        return None;
      }
      es := es + ResourceEntries(resources.items, EntryIn(entry, ds.fields)).value;
      idx := next.value;
    }
    assert lines[..|lines|] == lines;
    r := Some(idx);
  }

  /** build_resource_index(path) */
  method BuildResourceIndex(lines: seq<string>, decode: string -> Option<Json>) returns (r: Option<map<string, Meta>>)
    ensures r == ResourceIndex(lines, decode)
  {
    r := IndexLoop(lines, decode, EntryOf);
  }

  /** The j-th resource yields the pair e. */
  predicate EntryFrom(rs: seq<Json>, meta: Object -> Meta, j: int, e: (string, Meta)) {
    0 <= j < |rs| && rs[j].JDict? && Get(rs[j].fields, "id") == JStr(e.0) && e.1 == meta(rs[j].fields)
  }

  /** Every pair comes from a dict resource with that string id, and every
      resource with a string id yields its pair. */
  lemma {:induction false} ResourceEntriesExact(rs: seq<Json>, meta: Object -> Meta)
    requires ResourceEntries(rs, meta).Some?
    ensures forall e :: e in ResourceEntries(rs, meta).value ==> exists j :: EntryFrom(rs, meta, j, e)
    ensures forall j :: 0 <= j < |rs| ==> rs[j].JDict?
    ensures forall j :: 0 <= j < |rs| && Get(rs[j].fields, "id").JStr? ==>
              (Get(rs[j].fields, "id").s, meta(rs[j].fields)) in ResourceEntries(rs, meta).value
    decreases |rs|
  {
    if rs != [] {
      var init := rs[..|rs| - 1];
      ResourceEntriesExact(init, meta);
      var es := ResourceEntries(init, meta).value;
      assert forall j :: 0 <= j < |init| ==> rs[j] == init[j];
      forall e | e in ResourceEntries(rs, meta).value
        ensures exists j :: EntryFrom(rs, meta, j, e)
      {
        if e in es {
          var j :| EntryFrom(init, meta, j, e);
          assert EntryFrom(rs, meta, j, e);
        } else {
          assert EntryFrom(rs, meta, |rs| - 1, e);
        }
      }
    }
  }

  /** A property every entry function value has holds of every indexed entry. */
  lemma {:induction false} IndexEntriesAll(lines: seq<string>, decode: string -> Option<Json>,
                                           entry: (Object, Object) -> Meta, p: Meta -> bool)
    requires IndexEntries(lines, decode, entry).Some?
    requires forall ds, r :: p(entry(ds, r))
    ensures forall e :: e in IndexEntries(lines, decode, entry).value ==> p(e.1)
    decreases |lines|
  {
    if lines != [] {
      IndexEntriesAll(lines[..|lines| - 1], decode, entry, p);
      var d := decode(lines[|lines| - 1]);
      var more := LineEntries(d, entry).value;
      if d.Some? && d.value.JDict? && ResourcesOf(d.value.fields).JList? {
        var rs := ResourcesOf(d.value.fields).items;
        var meta := EntryIn(entry, d.value.fields);
        ResourceEntriesExact(rs, meta);
        forall e | e in more ensures p(e.1) {
          var j :| EntryFrom(rs, meta, j, e);
          assert e.1 == entry(d.value.fields, rs[j].fields);
        }
      }
    }
  }

  /** A later resource with the same id overwrites the earlier one: the
      entry of an id is the last pair with that id. */
  lemma ResourceIndexLastWins(lines: seq<string>, decode: string -> Option<Json>, k: string)
    requires ResourceIndex(lines, decode).Some? && k in ResourceIndex(lines, decode).value
    ensures exists i :: LastPairAt(IndexEntries(lines, decode, EntryOf).value, k, ResourceIndex(lines, decode).value[k], i)
  {
    DictOfLastWins(IndexEntries(lines, decode, EntryOf).value, k);
  }

  predicate StatusLower(m: Meta) {
    Lower(m.status) == m.status
  }

  /** Every entry of the index has a stripped, lower-case status. */
  lemma IndexStatusLower(lines: seq<string>, decode: string -> Option<Json>)
    requires ResourceIndex(lines, decode).Some?
    ensures forall k :: k in ResourceIndex(lines, decode).value ==> StatusLower(ResourceIndex(lines, decode).value[k])
  {
    var es := IndexEntries(lines, decode, EntryOf).value;
    IndexEntriesAll(lines, decode, EntryOf, StatusLower);
    forall k | k in DictOf(es) ensures StatusLower(DictOf(es)[k]) {
      assert (k, DictOf(es)[k]) in es;
    }
  }

  // ---------------------------------------------------------------------
  // The keep/drop loop of main
  // ---------------------------------------------------------------------

  /** The entry as the dict obj.update(meta) reads. */
  function MetaFields(m: Meta): Object {
    map["resource_name_en" := m.nameEn, "resource_name_fr" := m.nameFr, "dataset_id" := m.datasetId,
        "dataset_title_en" := m.titleEn, "dataset_title_fr" := m.titleFr, "organization_name" := m.orgName,
        "url_type" := JStr(m.urlType), "resource_status" := JStr(m.status)]
  }

  /** obj.update(meta): meta's keys win, every other key of obj is kept. */
  function Update(obj: Object, meta: Object): (r: Object)
    ensures r.Keys == obj.Keys + meta.Keys
    ensures forall k :: k in meta ==> r[k] == meta[k]
    ensures forall k :: k in obj && k !in meta ==> r[k] == obj[k]
  {
    obj + meta
  }

  /** The fate of one input line. */
  datatype Decision = Unreadable | Crash | Drop | Keep(row: Object)

  const Active: string := "active"

  /** One iteration of main's loop: an undecodable line is skipped; a value
      that is not a dict, or an unhashable resource_id, raises; a row whose
      resource is missing or not active is dropped; otherwise the row
      updated with its metadata is written. */
  function Decide(idx: map<string, Meta>, d: Option<Json>): Decision {
    match d
    case None => Unreadable
    case Some(obj) =>
      if !obj.JDict? then Crash
      else
        var rid := Get(obj.fields, "resource_id");
        if rid.JList? || rid.JDict? then Crash
        else if !rid.JStr? || rid.s !in idx then Drop
        else if Lower(idx[rid.s].status) != Active then Drop
        else Keep(Update(obj.fields, MetaFields(idx[rid.s])))
  }

  function LineDecision(idx: map<string, Meta>, decode: string -> Option<Json>): string -> Decision {
    l => Decide(idx, decode(l))
  }

  /** The rows written and main's counters; `crashed` records an exception,
      which ends the loop with the rows written so far. */
  datatype Outcome = Outcome(written: seq<Object>, added: nat, kept: nat, dropped: nat, total: nat, crashed: bool)

  /** The counters after one more line has been read and decided. */
  function Step(o: Outcome, d: Decision): Outcome {
    var o1 := o.(total := o.total + 1);
    match d
    case Unreadable => o1
    case Crash => o1.(crashed := true)
    case Drop => o1.(dropped := o1.dropped + 1)
    case Keep(row) => o1.(written := o1.written + [row], added := o1.added + 1, kept := o1.kept + 1)
  }

  /** The loop over the lines, each decided by `decide`, stopping at the first exception. */
  function RunWith(lines: seq<string>, decide: string -> Decision): Outcome
    decreases |lines|
  {
    if lines == [] then Outcome([], 0, 0, 0, 0, false)
    else
      var o := RunWith(lines[..|lines| - 1], decide);
      if o.crashed then o else Step(o, decide(lines[|lines| - 1]))
  }

  /** main's loop over the validation rows. */
  function Run(idx: map<string, Meta>, lines: seq<string>, decode: string -> Option<Json>): Outcome {
    RunWith(lines, LineDecision(idx, decode))
  }

  lemma {:induction false} RunCrashedStays(lines: seq<string>, decide: string -> Decision, k: nat)
    requires k <= |lines| && RunWith(lines[..k], decide).crashed
    ensures RunWith(lines, decide) == RunWith(lines[..k], decide)
    decreases |lines| - k
  {
    if k < |lines| {
      assert lines[..k + 1][..k] == lines[..k];
      RunCrashedStays(lines, decide, k + 1);
    } else {
      assert lines[..k] == lines;
    }
  }

  /** The loop of main: counters and the written rows. */
  method KeepActive(idx: map<string, Meta>, lines: seq<string>, decode: string -> Option<Json>) returns (o: Outcome)
    ensures o == Run(idx, lines, decode)
  {
    var written: seq<Object> := [];
    var added, kept, dropped, total := 0, 0, 0, 0;
    for i := 0 to |lines|
      invariant RunWith(lines[..i], LineDecision(idx, decode)) == Outcome(written, added, kept, dropped, total, false)
    {
      assert lines[..i + 1][..i] == lines[..i];
      ghost var decision := LineDecision(idx, decode)(lines[i]);
      total := total + 1;
      var d := decode(lines[i]);
      if d.None? {
        assert decision == Unreadable;
        continue;
      }
      var obj := d.value;
      if !obj.JDict? {
        assert decision == Crash;
        o := Outcome(written, added, kept, dropped, total, true);
        RunCrashedStays(lines, LineDecision(idx, decode), i + 1);
        return;
      }
      var rid := Get(obj.fields, "resource_id");
      if rid.JList? || rid.JDict? {
        assert decision == Crash;
        o := Outcome(written, added, kept, dropped, total, true);
        RunCrashedStays(lines, LineDecision(idx, decode), i + 1);
        return;
      }
      if !rid.JStr? || rid.s !in idx {
        assert decision == Drop;
        dropped := dropped + 1;
        continue;
      }
      var meta := idx[rid.s];
      var status := Lower(meta.status);
      if status != Active {
        assert decision == Drop;
        dropped := dropped + 1;
        continue;
      }
      var row := Update(obj.fields, MetaFields(meta));
      assert decision == Keep(row);
      added := added + 1;
      kept := kept + 1;
      written := written + [row];
    }
    assert lines[..|lines|] == lines;
    o := Outcome(written, added, kept, dropped, total, false);
  }

  /** added == kept == the number of rows written, kept + dropped <= total,
      and total counts every line read. */
  lemma {:induction false} RunCounts(lines: seq<string>, decide: string -> Decision)
    ensures var o := RunWith(lines, decide);
      && o.added == o.kept == |o.written|
      && o.kept + o.dropped <= o.total <= |lines|
      && (!o.crashed ==> o.total == |lines|)
    decreases |lines|
  {
    if lines != [] {
      RunCounts(lines[..|lines| - 1], decide);
    }
  }

  /** The rows of the Keep decisions, in order. */
  function Kept(ds: seq<Decision>): seq<Object> {
    if ds == [] then []
    else (if ds[0].Keep? then [ds[0].row] else []) + Kept(ds[1..])
  }

  lemma {:induction false} KeptSnoc(ds: seq<Decision>, d: Decision)
    ensures Kept(ds + [d]) == Kept(ds) + Kept([d])
    decreases |ds|
  {
    if ds != [] {
      assert (ds + [d])[1..] == ds[1..] + [d];
      KeptSnoc(ds[1..], d);
    } else {
      assert ds + [d] == [d];
    }
  }

  /** Without an exception, exactly the rows of the Keep decisions are
      written, in input order. */
  lemma {:induction false} RunWritesKept(lines: seq<string>, decide: string -> Decision)
    requires !RunWith(lines, decide).crashed
    ensures RunWith(lines, decide).written == Kept(MapSeq(lines, decide))
    decreases |lines|
  {
    if lines != [] {
      var init := lines[..|lines| - 1];
      var last := decide(lines[|lines| - 1]);
      RunWritesKept(init, decide);
      KeptSnoc(MapSeq(init, decide), last);
      assert Kept([last]) == (if last.Keep? then [last.row] else []);
    }
  }

  /** Rows are written only where `decide` keeps them. */
  lemma {:induction false} RunWritesOnlyKept(lines: seq<string>, decide: string -> Decision, p: Object -> bool)
    requires forall l :: decide(l).Keep? ==> p(decide(l).row)
    ensures forall w :: w in RunWith(lines, decide).written ==> p(w)
    decreases |lines|
  {
    if lines != [] {
      RunWritesOnlyKept(lines[..|lines| - 1], decide, p);
    }
  }

  /** A row is kept exactly when its resource_id names an indexed resource
      whose status lower-cases to "active"; the written row is the input
      updated with the entry, the entry winning on shared keys. */
  lemma DecideKeep(idx: map<string, Meta>, obj: Object)
    ensures Decide(idx, Some(JDict(obj))).Keep? <==>
              Get(obj, "resource_id").JStr? && Get(obj, "resource_id").s in idx
              && Lower(idx[Get(obj, "resource_id").s].status) == Active
    ensures Decide(idx, Some(JDict(obj))).Keep? ==>
              var m := MetaFields(idx[Get(obj, "resource_id").s]);
              var row := Decide(idx, Some(JDict(obj))).row;
              && row.Keys == obj.Keys + m.Keys
              && (forall k :: k in m ==> row[k] == m[k])
              && (forall k :: k in obj && k !in m ==> row[k] == obj[k])
  {
  }

  predicate ActiveRow(w: Object) {
    "resource_status" in w && w["resource_status"] == JStr(Active)
  }

  lemma DecideActive(idx: map<string, Meta>, d: Option<Json>)
    requires forall k :: k in idx ==> StatusLower(idx[k])
    ensures Decide(idx, d).Keep? ==> ActiveRow(Decide(idx, d).row)
  {
    if Decide(idx, d).Keep? {
      var m := idx[Get(d.value.fields, "resource_id").s];
      assert "resource_status" in MetaFields(m) && MetaFields(m)["resource_status"] == JStr(m.status);
    }
  }

  /** With an index built by build_resource_index, every written row
      carries resource_status "active". */
  lemma WrittenRowsActive(lines: seq<string>, decode: string -> Option<Json>, rows: seq<string>, decodeRow: string -> Option<Json>)
    requires ResourceIndex(lines, decode).Some?
    ensures forall w :: w in Run(ResourceIndex(lines, decode).value, rows, decodeRow).written ==> ActiveRow(w)
  {
    var idx := ResourceIndex(lines, decode).value;
    IndexStatusLower(lines, decode);
    forall l ensures LineDecision(idx, decodeRow)(l).Keep? ==> ActiveRow(LineDecision(idx, decodeRow)(l).row) {
      DecideActive(idx, decodeRow(l));
    }
    RunWritesOnlyKept(rows, LineDecision(idx, decodeRow), ActiveRow);
  }
}

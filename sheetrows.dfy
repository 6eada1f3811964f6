/**
 * How a service's `mapping` (`{ [primaryId]: { enabled, tags } }`) is written to
 * and read back from the services sheet. The `primary_categories` column holds
 * the enabled primary ids joined by `,`. Each primary has a `<id>_tags` column
 * holding its tags joined by `,`, or `-` when the primary is disabled or has no
 * tags. The primaries are taken in the order given, already sorted.
 */
module SheetRows {
  import opened Text
  import opened Slug
  import opened JsValues
  import opened Config
  import opened Csv
  import opened Records
  import opened Normalize

  // ---- export: computePrimaryCategories and the tag cells of buildServicesCsv ----

  /** `mapping?.[id]?.enabled` is truthy. */
  predicate Enabled(mapping: Json, id: string)
  {
    Truthy(Get(Get(mapping, id), "enabled"))
  }

  /** `mapping?.[id]?.tags` (read only when the primary is enabled). */
  function TagsOf(mapping: Json, id: string): Json
  {
    Get(Get(mapping, id), "tags")
  }

  /** `primaries.map(p => p.id)`. */
  function PrimaryIds(ps: seq<Category>): (r: seq<string>)
    ensures |r| == |ps| && forall k :: 0 <= k < |ps| ==> r[k] == ps[k].id
  {
    seq(|ps|, k requires 0 <= k < |ps| => ps[k].id)
  }

  /** The ids of the enabled primaries, in order. */
  function EnabledIds(ps: seq<Category>, mapping: Json): (r: seq<string>)
    ensures |r| <= |ps|
    ensures forall k :: 0 <= k < |r| ==> Enabled(mapping, r[k])
  {
    if ps == [] then []
    else (if Enabled(mapping, ps[0].id) then [ps[0].id] else []) + EnabledIds(ps[1..], mapping)
  }

  /** `computePrimaryCategories(service)`. */
  function PrimaryCategoriesCell(ps: seq<Category>, mapping: Json): string
  {
    Join(EnabledIds(ps, mapping), ',')
  }

  /** `.filter(Boolean)`: the truthy elements, in order. */
  function KeptTags(items: seq<Json>): (r: seq<Json>)
    ensures |r| <= |items|
    ensures forall v :: v in r <==> v in items && Truthy(v)
  {
    if items == [] then []
    else (if Truthy(items[0]) then [items[0]] else []) + KeptTags(items[1..])
  }

  /** The tag cell of one primary, or `None` where `(m.tags || []).filter` throws a
      TypeError because the tags are truthy but not an array. */
  function TagCell(mapping: Json, id: string): (r: Option<string>)
    ensures r.None? <==> Enabled(mapping, id) && Truthy(TagsOf(mapping, id)) && !TagsOf(mapping, id).JArray?
    ensures !Enabled(mapping, id) ==> r == Some("-")
  {
    var t := TagsOf(mapping, id);
    if !Enabled(mapping, id) then Some("-")
    else if !Truthy(t) then Some("-")
    else if !t.JArray? then None
    else
      var kept := KeptTags(t.items);
      if kept == [] then Some("-") else Some(StringOf(JArray(kept)))
  }

  /** `primaries.map(...)` over the tag cells; `None` when one of them throws. */
  function TagCells(ps: seq<Category>, mapping: Json): (r: Option<seq<string>>)
    ensures r.Some? <==> forall k :: 0 <= k < |ps| ==> TagCell(mapping, ps[k].id).Some?
    ensures r.Some? ==> |r.value| == |ps| && forall k :: 0 <= k < |ps| ==> TagCell(mapping, ps[k].id) == Some(r.value[k])
  {
    if ps == [] then Some([])
    else
      match (TagCell(mapping, ps[0].id), TagCells(ps[1..], mapping))
      case (Some(c), Some(cs)) =>
        assert forall k :: 1 <= k < |ps| ==> ps[k] == ps[1..][k - 1];
        Some([c] + cs)
      case (None, _) => None
      case (_, None) =>
        assert forall k :: 0 <= k < |ps| - 1 ==> ps[1..][k] == ps[k + 1];
        None
  }

  // ---- import: the mapping importFromGoogleSheetsCSV builds from one record ----

  /** `String(r[key] || "")` on a record of the sheet. */
  function Field(r: Record, key: string): string
  {
    if key in r then r[key] else ""
  }

  function TagColumn(id: string): string
  {
    id + "_tags"
  }

  /** `pieces.map(slugifyId).filter(Boolean)`. */
  function SlugsOf(pieces: seq<string>): (r: seq<string>)
    ensures forall k :: 0 <= k < |r| ==> r[k] != "" && IsSlug(r[k])
  {
    if pieces == [] then []
    else
      var s := Slugify(pieces[0]);
      (if s == "" then [] else [s]) + SlugsOf(pieces[1..])
  }

  /** `String(text).split(",").map(slugifyId).filter(Boolean)`. */
  function SlugList(text: string): seq<string>
  {
    SlugsOf(Split(text, ','))
  }

  /** The tags read from a tag cell: none when the cell is blank or `-`. */
  function TagsFromCell(cell: string): (r: seq<string>)
    ensures Trim(cell) == "" || Trim(cell) == "-" ==> r == []
  {
    var raw := Trim(cell);
    if raw != "" && raw != "-" then SlugList(raw) else []
  }

  /** The tags read from the `<id>_tags` column. */
  function ImportedTags(r: Record, id: string): seq<string>
  {
    TagsFromCell(Field(r, TagColumn(id)))
  }

  function JStrings(ss: seq<string>): (r: seq<Json>)
    ensures |r| == |ss| && forall k :: 0 <= k < |ss| ==> r[k] == JString(ss[k])
  {
    seq(|ss|, k requires 0 <= k < |ss| => JString(ss[k]))
  }

  /** `{ enabled, tags }`. */
  function EntryJson(enabled: bool, tags: seq<string>): Json
  {
    JObject([("enabled", JBool(enabled)), ("tags", JArray(JStrings(tags)))])
  }

  /** The entry the import writes for one primary. */
  function ImportEntry(r: Record, id: string): Json
  {
    EntryJson(id in SlugList(Field(r, "primary_categories")), ImportedTags(r, id))
  }

  /** The members of `mapping` after `primaryIds.forEach` has visited the first
      `n` ids, `mapping[pid] = entry(pid)` at each. */
  function MappingFields(ids: seq<string>, entry: string -> Json, n: nat): seq<(string, Json)>
    requires n <= |ids|
  {
    if n == 0 then [] else SetField(MappingFields(ids, entry, n - 1), ids[n - 1], entry(ids[n - 1]))
  }

  /** The `mapping` object built for one services record. */
  function ImportMapping(ids: seq<string>, r: Record): Json
  {
    JObject(MappingFields(ids, id => ImportEntry(r, id), |ids|))
  }

  // ---- what survives the sheet ----

  /** The tags an enabled primary writes out, as text. */
  function TagTexts(mapping: Json, id: string): seq<string>
  {
    var t := TagsOf(mapping, id);
    if Enabled(mapping, id) && t.JArray? then
      var kept := KeptTags(t.items);
      seq(|kept|, k requires 0 <= k < |kept| => StringOf(kept[k]))
    else []
  }

  /** What the sheet keeps of one primary's entry: whether it is enabled and, when
      it is, its truthy tags. */
  function SheetEntry(mapping: Json, id: string): Json
  {
    EntryJson(Enabled(mapping, id), TagTexts(mapping, id))
  }

  predicate SlugTag(v: Json)
  {
    v.JString? && IsSlug(v.s)
  }

  /** The tags of an enabled primary can be written to the sheet and read back:
      they are an array (or falsy) and every truthy tag is a slug string. */
  predicate TagsFit(mapping: Json, id: string)
  {
    var t := TagsOf(mapping, id);
    Enabled(mapping, id) && Truthy(t) ==> t.JArray? && forall v :: v in t.items && Truthy(v) ==> SlugTag(v)
  }

  /** Characters a cell built from slugs can hold. */
  predicate SheetChars(s: string)
  {
    forall k :: 0 <= k < |s| ==> IsSlugChar(s[k]) || s[k] == ','
  }

  predicate NonEmptySlugs(ids: seq<string>)
  {
    forall k :: 0 <= k < |ids| ==> ids[k] != "" && IsSlug(ids[k])
  }

  // ---- lemmas ----

  /** Slugs joined by `,` hold only slug characters and commas. */
  lemma {:induction false} JoinSheetChars(parts: seq<string>)
    requires forall k :: 0 <= k < |parts| ==> IsSlug(parts[k])
    ensures SheetChars(Join(parts, ','))
  {
    if |parts| > 1 {
      JoinSheetChars(parts[1..]);
      var rest := Join(parts[1..], ',');
      var s := parts[0] + [','] + rest;
      assert IsSlug(parts[0]);
      forall k | 0 <= k < |s|
        ensures IsSlugChar(s[k]) || s[k] == ','
      {
        if k > |parts[0]| {
          assert s[k] == rest[k - |parts[0]| - 1];
        }
      }
    }
  }

  /** Such a cell is already trimmed. */
  lemma SheetCharsTrimmed(s: string)
    requires SheetChars(s)
    ensures Trim(s) == s
  {
    if s != [] {
      assert IsSlugChar(s[0]) || s[0] == ',';
      assert IsSlugChar(s[|s| - 1]) || s[|s| - 1] == ',';
    }
    TrimmedTrim(s);
  }

  /** Non-empty slugs pass through `map(slugifyId).filter(Boolean)` unchanged. */
  lemma {:induction false} SlugsOfSlugs(ids: seq<string>)
    requires NonEmptySlugs(ids)
    ensures SlugsOf(ids) == ids
  {
    if ids != [] {
      SlugifyOfSlug(ids[0]);
      SlugsOfSlugs(ids[1..]);
      assert [ids[0]] + ids[1..] == ids;
    }
  }

  /** Reading back a list of non-empty slugs joined by `,` gives the list. */
  lemma SlugListJoin(ids: seq<string>)
    requires NonEmptySlugs(ids)
    ensures SlugList(Join(ids, ',')) == ids
  {
    if ids == [] {
      assert Split("", ',') == [""];
      TrimmedTrim("");
      assert Slugify("") == "";
    } else {
      SplitJoin(ids, ',');
      SlugsOfSlugs(ids);
    }
  }

  /** A primary is listed in `primary_categories` exactly when it is enabled. */
  lemma {:induction false} EnabledIdsMember(ps: seq<Category>, mapping: Json, id: string)
    ensures id in EnabledIds(ps, mapping) <==> id in PrimaryIds(ps) && Enabled(mapping, id)
  {
    if ps != [] {
      EnabledIdsMember(ps[1..], mapping, id);
      assert PrimaryIds(ps) == [ps[0].id] + PrimaryIds(ps[1..]);
    }
  }

  lemma EnabledIdsSlugs(ps: seq<Category>, mapping: Json)
    requires NonEmptySlugs(PrimaryIds(ps))
    ensures NonEmptySlugs(EnabledIds(ps, mapping))
  {
    var e := EnabledIds(ps, mapping);
    forall k | 0 <= k < |e|
      ensures e[k] != "" && IsSlug(e[k])
    {
      EnabledIdsMember(ps, mapping, e[k]);
    }
  }

  /** The `primary_categories` cell reads back as the enabled primaries. */
  lemma PrimaryCellRoundTrip(ps: seq<Category>, mapping: Json, r: Record, id: string)
    requires NonEmptySlugs(PrimaryIds(ps))
    requires Field(r, "primary_categories") == PrimaryCategoriesCell(ps, mapping)
    requires id in PrimaryIds(ps)
    ensures id in SlugList(Field(r, "primary_categories")) <==> Enabled(mapping, id)
  {
    EnabledIdsSlugs(ps, mapping);
    SlugListJoin(EnabledIds(ps, mapping));
    EnabledIdsMember(ps, mapping, id);
  }

  /** The tag cell of a primary whose tags fit is `-` with no tags, or its tag
      texts, non-empty slugs, joined by `,`. */
  lemma TagCellShape(mapping: Json, id: string)
    requires TagsFit(mapping, id) && TagCell(mapping, id).Some?
    ensures var c, texts := TagCell(mapping, id).value, TagTexts(mapping, id);
      (c == "-" && texts == []) || (c == Join(texts, ',') && texts != [] && NonEmptySlugs(texts))
  {
    var t := TagsOf(mapping, id);
    if Enabled(mapping, id) && Truthy(t) && KeptTags(t.items) != [] {
      var kept := KeptTags(t.items);
      var texts := seq(|kept|, k requires 0 <= k < |kept| => StringOf(kept[k]));
      forall k | 0 <= k < |kept|
        ensures SlugTag(kept[k]) && kept[k].s != ""
      {
        assert kept[k] in kept;
      }
      assert seq(|kept|, k requires 0 <= k < |kept| => ElementString(kept[k])) == texts;
    }
  }

  /** The cell of a primary whose tags fit is already trimmed and reads back as
      its tag texts. */
  lemma TagCellRoundTrip(mapping: Json, id: string)
    requires TagsFit(mapping, id) && TagCell(mapping, id).Some?
    ensures Trim(TagCell(mapping, id).value) == TagCell(mapping, id).value
    ensures TagsFromCell(TagCell(mapping, id).value) == TagTexts(mapping, id)
  {
    TagCellShape(mapping, id);
    var c, texts := TagCell(mapping, id).value, TagTexts(mapping, id);
    if c == "-" && texts == [] {
      TrimmedTrim("-");
    } else {
      JoinSheetChars(texts);
      SheetCharsTrimmed(c);
      JoinFirst(texts);
      SlugListJoin(texts);
    }
  }

  /** A join of a non-empty first piece starts with that piece's first character. */
  lemma JoinFirst(parts: seq<string>)
    requires |parts| >= 1 && parts[0] != ""
    ensures Join(parts, ',') != [] && Join(parts, ',')[0] == parts[0][0]
  {
  }

  /** After the loop, each primary's member is the entry built for it and no other
      member exists. */
  lemma {:induction false} MappingFieldsLookup(ids: seq<string>, entry: string -> Json, n: nat, key: string)
    requires n <= |ids|
    ensures Lookup(MappingFields(ids, entry, n), key) == if key in ids[..n] then entry(key) else JNull
  {
    if n > 0 {
      MappingFieldsLookup(ids, entry, n - 1, key);
      LookupSetField(MappingFields(ids, entry, n - 1), ids[n - 1], entry(ids[n - 1]), key);
      assert ids[..n] == ids[..n - 1] + [ids[n - 1]];
    }
  }

  /** The loop depends on the entries of the listed ids only. */
  lemma {:induction false} MappingFieldsSame(ids: seq<string>, f: string -> Json, g: string -> Json, n: nat)
    requires n <= |ids|
    requires forall k :: 0 <= k < n ==> f(ids[k]) == g(ids[k])
    ensures MappingFields(ids, f, n) == MappingFields(ids, g, n)
  {
    if n > 0 {
      MappingFieldsSame(ids, f, g, n - 1);
    }
  }

  /** The record's cells under `primary_categories` and `<id>_tags` are the
      exported cells of `mapping`. */
  predicate CellsOf(ps: seq<Category>, mapping: Json, r: Record)
  {
    && Field(r, "primary_categories") == PrimaryCategoriesCell(ps, mapping)
    && forall k :: 0 <= k < |ps| ==>
         TagCell(mapping, ps[k].id).Some? && Field(r, TagColumn(ps[k].id)) == TagCell(mapping, ps[k].id).value
  }

  /** Writing a mapping's cells and importing them gives, for every primary, the
      entry the sheet keeps of it, and nothing for any other key. */
  lemma MappingRoundTrip(ps: seq<Category>, mapping: Json, r: Record, key: string)
    requires NonEmptySlugs(PrimaryIds(ps))
    requires forall k :: 0 <= k < |ps| ==> TagsFit(mapping, ps[k].id)
    requires CellsOf(ps, mapping, r)
    ensures Get(ImportMapping(PrimaryIds(ps), r), key) ==
      if key in PrimaryIds(ps) then SheetEntry(mapping, key) else JNull
  {
    var ids := PrimaryIds(ps);
    assert ids[..|ids|] == ids;
    MappingFieldsLookup(ids, id => ImportEntry(r, id), |ids|, key);
    if key in ids {
      EntryRoundTrip(ps, mapping, r, key);
    }
  }

  lemma EntryRoundTrip(ps: seq<Category>, mapping: Json, r: Record, id: string)
    requires NonEmptySlugs(PrimaryIds(ps))
    requires forall k :: 0 <= k < |ps| ==> TagsFit(mapping, ps[k].id)
    requires CellsOf(ps, mapping, r)
    requires id in PrimaryIds(ps)
    ensures ImportEntry(r, id) == SheetEntry(mapping, id)
  {
    var k :| 0 <= k < |ps| && ps[k].id == id;
    PrimaryCellRoundTrip(ps, mapping, r, id);
    TagCellRoundTrip(mapping, id);
  }

  // ---- whole rows: buildServicesCsv and the services part of the import ----

  const FrontColumns: seq<string> := ["service_id", "service_name", "description", "price", "primary_categories"]
  const BackColumns: seq<string> := ["image_url", "cta_text", "cta_url"]

  function TagColumns(ps: seq<Category>): (r: seq<string>)
    ensures |r| == |ps| && forall k :: 0 <= k < |ps| ==> r[k] == TagColumn(ps[k].id)
  {
    seq(|ps|, k requires 0 <= k < |ps| => TagColumn(ps[k].id))
  }

  /** The header row of the services sheet. */
  function ServicesHeader(ps: seq<Category>): seq<string>
  {
    FrontColumns + TagColumns(ps) + BackColumns
  }

  /** The row of one service, or `None` when one of its tag cells throws. */
  function ServiceRow(ps: seq<Category>, s: Service): Option<seq<string>>
  {
    match TagCells(ps, s.mapping)
    case None => None
    case Some(tags) => Some(RowCells(ps, s, tags))
  }

  /** The rows of all services, in order, or `None` when one of them throws. */
  function ServiceRows(ps: seq<Category>, ss: seq<Service>): (r: Option<seq<seq<string>>>)
    ensures r.Some? <==> forall k :: 0 <= k < |ss| ==> ServiceRow(ps, ss[k]).Some?
    ensures r.Some? ==> |r.value| == |ss| && forall k :: 0 <= k < |ss| ==> ServiceRow(ps, ss[k]) == Some(r.value[k])
  {
    if ss == [] then Some([])
    else
      match (ServiceRow(ps, ss[0]), ServiceRows(ps, ss[1..]))
      case (Some(row), Some(rows)) =>
        assert forall k :: 1 <= k < |ss| ==> ss[k] == ss[1..][k - 1];
        Some([row] + rows)
      case (None, _) => None
      case (_, None) =>
        assert forall k :: 0 <= k < |ss| - 1 ==> ss[1..][k] == ss[k + 1];
        None
  }

  /** `buildServicesCsv()` over services already in export order. */
  function ServicesCsv(ps: seq<Category>, ss: seq<Service>): Option<string>
  {
    match ServiceRows(ps, ss)
    case None => None
    case Some(rows) => Some(CsvText([ServicesHeader(ps)] + rows))
  }

  /** One services record as the import maps it: every text field trimmed, the
      mapping built over the primaries, and nothing when the id or the name is
      blank. */
  function ImportService(ids: seq<string>, r: Record): (s: Option<Service>)
    ensures s.Some? ==> GoodService(s.value)
    ensures s.Some? <==> Trim(Field(r, "service_id")) != "" && Trim(Field(r, "service_name")) != ""
  {
    var id, name := Trim(Field(r, "service_id")), Trim(Field(r, "service_name"));
    var desc, price := Trim(Field(r, "description")), Trim(Field(r, "price"));
    var image, ctaText, ctaUrl := Trim(Field(r, "image_url")), Trim(Field(r, "cta_text")), Trim(Field(r, "cta_url"));
    TrimIsTrimmed(Field(r, "service_id")); TrimIsTrimmed(Field(r, "service_name"));
    TrimIsTrimmed(Field(r, "description")); TrimIsTrimmed(Field(r, "price"));
    TrimIsTrimmed(Field(r, "image_url")); TrimIsTrimmed(Field(r, "cta_text")); TrimIsTrimmed(Field(r, "cta_url"));
    if id == "" || name == "" then None
    else Some(Service(id, name, desc, price, image, ctaText, ctaUrl, ImportMapping(ids, r)))
  }

  /** The services the import builds from the records, in order. */
  function ImportServices(ids: seq<string>, recs: seq<Record>): (r: seq<Service>)
    ensures |r| <= |recs|
    ensures forall k :: 0 <= k < |r| ==> GoodService(r[k])
  {
    if recs == [] then []
    else
      var rest := ImportServices(ids, recs[1..]);
      match ImportService(ids, recs[0])
      case None => rest
      case Some(s) => [s] + rest
  }

  /** Both `a + b` and `a` start with the record `a[0]`, imported or skipped alike. */
  lemma ImportServicesHead(ids: seq<string>, a: seq<Record>, b: seq<Record>)
    requires a != []
    ensures var h := match ImportService(ids, a[0]) case None => [] case Some(s) => [s];
      ImportServices(ids, a + b) == h + ImportServices(ids, a[1..] + b) && ImportServices(ids, a) == h + ImportServices(ids, a[1..])
  {
    assert (a + b)[0] == a[0] && (a + b)[1..] == a[1..] + b;
  }

  /** The import works record by record, so the services keep the order of their rows. */
  lemma {:induction false} ImportServicesAppend(ids: seq<string>, a: seq<Record>, b: seq<Record>)
    ensures ImportServices(ids, a + b) == ImportServices(ids, a) + ImportServices(ids, b)
  {
    if a == [] {
      assert a + b == b;
    } else {
      var h := match ImportService(ids, a[0]) case None => [] case Some(s) => [s];
      ImportServicesAppend(ids, a[1..], b);
      ImportServicesHead(ids, a, b);
      RegroupHead(ImportServices(ids, a + b), ImportServices(ids, a), h, ImportServices(ids, a[1..]), ImportServices(ids, b));
    }
  }

  /** Every record that imports gives a service the import keeps. */
  lemma {:induction false} ImportServicesKeeps(ids: seq<string>, recs: seq<Record>)
    ensures forall i :: 0 <= i < |recs| && ImportService(ids, recs[i]).Some? ==>
      ImportService(ids, recs[i]).value in ImportServices(ids, recs)
  {
    if recs != [] {
      ImportServicesKeeps(ids, recs[1..]);
      var rest, r := ImportServices(ids, recs[1..]), ImportServices(ids, recs);
      forall i | 0 <= i < |recs| && ImportService(ids, recs[i]).Some?
        ensures ImportService(ids, recs[i]).value in r
      {
        var t := ImportService(ids, recs[i]).value;
        if i == 0 {
          assert r == [t] + rest;
        } else {
          assert recs[i] == recs[1..][i - 1];
          assert t in rest;
          assert r[|r| - |rest|..] == rest;
        }
      }
    }
  }

  /** The mapping the sheet keeps: one `{ enabled, tags }` per primary, in order. */
  function SheetMapping(ids: seq<string>, mapping: Json): Json
  {
    JObject(MappingFields(ids, id => SheetEntry(mapping, id), |ids|))
  }

  /** A service as it comes back from the sheet. */
  function SheetService(ps: seq<Category>, s: Service): Service
  {
    s.(mapping := SheetMapping(PrimaryIds(ps), s.mapping))
  }

  function SheetServices(ps: seq<Category>, ss: seq<Service>): (r: seq<Service>)
    ensures |r| == |ss| && forall k :: 0 <= k < |ss| ==> r[k] == SheetService(ps, ss[k])
  {
    seq(|ss|, k requires 0 <= k < |ss| => SheetService(ps, ss[k]))
  }

  predicate DistinctTexts(s: seq<string>)
  {
    forall a, b :: 0 <= a < b < |s| ==> s[a] != s[b]
  }

  /** The primaries a sheet can carry: distinct non-empty slug ids. */
  predicate SheetPrimaries(ps: seq<Category>)
  {
    NonEmptySlugs(PrimaryIds(ps)) && DistinctTexts(PrimaryIds(ps))
  }

  /** The services a sheet can carry: well shaped, with tags that fit. */
  predicate Exportable(ps: seq<Category>, s: Service)
  {
    GoodService(s) && forall k :: 0 <= k < |ps| ==> TagsFit(s.mapping, ps[k].id)
  }

  // ---- row lemmas ----

  lemma FixedColumnsSlugs()
    ensures NonEmptySlugs(FrontColumns + BackColumns)
  {
    FrontColumnsSlugs();
    BackColumnsSlugs();
    var f := FrontColumns + BackColumns;
    assert forall k :: 0 <= k < |f| ==> f[k] == if k < 5 then FrontColumns[k] else BackColumns[k - 5];
  }

  lemma FrontColumnsSlugs()
    ensures NonEmptySlugs(FrontColumns)
  {
  }

  lemma BackColumnsSlugs()
    ensures NonEmptySlugs(BackColumns)
  {
  }

  lemma FixedColumnsDistinct()
    ensures DistinctTexts(FrontColumns + BackColumns)
  {
  }

  /** No tag column has the name of a fixed column: those do not end in `_tags`. */
  lemma TagColumnNotFixed(id: string)
    ensures TagColumn(id) !in FrontColumns + BackColumns
  {
    var t := TagColumn(id);
    assert t[|t| - 2] == 'g';
  }

  lemma TagColumnInjective(a: string, b: string)
    requires TagColumn(a) == TagColumn(b)
    ensures a == b
  {
    assert TagColumn(a)[..|a|] == a;
    assert TagColumn(b)[..|b|] == b;
  }

  /** Every header is a non-empty slug, so it is its own trimmed form. */
  lemma HeaderSlugs(ps: seq<Category>)
    requires NonEmptySlugs(PrimaryIds(ps))
    ensures NonEmptySlugs(ServicesHeader(ps))
    ensures Headers(ServicesHeader(ps)) == ServicesHeader(ps)
  {
    var h := ServicesHeader(ps);
    var m := |ps|;
    FixedColumnsSlugs();
    forall k | 0 <= k < |h|
      ensures h[k] != "" && IsSlug(h[k])
    {
      if 5 <= k < 5 + m {
        var id := ps[k - 5].id;
        assert PrimaryIds(ps)[k - 5] == id;
        assert h[k] == id + "_tags";
      } else {
        assert h[k] == (FrontColumns + BackColumns)[if k < 5 then k else k - m];
      }
    }
    forall k | 0 <= k < |h|
      ensures Trim(h[k]) == h[k]
    {
      JoinSheetChars([h[k]]);
      SheetCharsTrimmed(h[k]);
    }
  }

  /** The headers of the services sheet are distinct when the primary ids are. */
  lemma HeaderDistinct(ps: seq<Category>)
    requires SheetPrimaries(ps)
    ensures DistinctTexts(ServicesHeader(ps))
  {
    var h := ServicesHeader(ps);
    var fixed := FrontColumns + BackColumns;
    var m := |ps|;
    FixedColumnsSlugs();
    FixedColumnsDistinct();
    forall a, b | 0 <= a < b < |h|
      ensures h[a] != h[b]
    {
      if 5 <= a < 5 + m && 5 <= b < 5 + m {
        assert PrimaryIds(ps)[a - 5] != PrimaryIds(ps)[b - 5];
        if h[a] == h[b] {
          TagColumnInjective(ps[a - 5].id, ps[b - 5].id);
        }
      } else if 5 <= a < 5 + m {
        TagColumnNotFixed(ps[a - 5].id);
        assert h[b] == fixed[b - m];
      } else if 5 <= b < 5 + m {
        TagColumnNotFixed(ps[b - 5].id);
        assert h[a] == fixed[a];
      } else {
        var i, j := if a < 5 then a else a - m, if b < 5 then b else b - m;
        assert h[a] == fixed[i] && h[b] == fixed[j];
      }
    }
  }

  /** Under distinct headers, a record holds each column's trimmed cell. */
  lemma RecordField(headers: seq<string>, row: seq<string>, i: nat)
    requires DistinctTexts(headers)
    requires i < |headers| && i < |row| && headers[i] != ""
    ensures Field(RecordOf(headers, row), headers[i]) == Trim(row[i])
  {
    FillValue(headers, row, |headers|, i);
  }

  /** The `primary_categories` cell is already trimmed. */
  lemma PrimaryCellTrimmed(ps: seq<Category>, mapping: Json)
    requires NonEmptySlugs(PrimaryIds(ps))
    ensures Trim(PrimaryCategoriesCell(ps, mapping)) == PrimaryCategoriesCell(ps, mapping)
  {
    EnabledIdsSlugs(ps, mapping);
    JoinSheetChars(EnabledIds(ps, mapping));
    SheetCharsTrimmed(PrimaryCategoriesCell(ps, mapping));
  }

  /** The cells of a row laid out after the header: fixed columns, tag columns,
      fixed columns. */
  function RowCells(ps: seq<Category>, s: Service, tags: seq<string>): seq<string>
  {
    [s.serviceId, s.serviceName, s.description, s.price, PrimaryCategoriesCell(ps, s.mapping)]
    + tags + [s.imageUrl, s.ctaText, s.ctaUrl]
  }

  lemma Concat3<T>(a: seq<T>, b: seq<T>, c: seq<T>)
    ensures |a + b + c| == |a| + |b| + |c|
    ensures forall k :: 0 <= k < |a| ==> (a + b + c)[k] == a[k]
    ensures forall k :: 0 <= k < |b| ==> (a + b + c)[|a| + k] == b[k]
    ensures forall k :: 0 <= k < |c| ==> (a + b + c)[|a| + |b| + k] == c[k]
  {
  }

  /** The shape of a service's row: its text fields, the `primary_categories`
      cell and the tag cells, in the columns of the header. */
  lemma ServiceRowShape(ps: seq<Category>, s: Service, row: seq<string>)
    requires ServiceRow(ps, s) == Some(row)
    ensures |row| == |ServicesHeader(ps)| == 8 + |ps|
    ensures row[0] == s.serviceId && row[1] == s.serviceName && row[2] == s.description && row[3] == s.price
    ensures row[4] == PrimaryCategoriesCell(ps, s.mapping)
    ensures forall k :: 0 <= k < |ps| ==> Some(row[5 + k]) == TagCell(s.mapping, ps[k].id)
    ensures row[5 + |ps|] == s.imageUrl && row[6 + |ps|] == s.ctaText && row[7 + |ps|] == s.ctaUrl
  {
    var tags := TagCells(ps, s.mapping).value;
    RowIsCells(ps, s, row, tags);
    Concat3([s.serviceId, s.serviceName, s.description, s.price, PrimaryCategoriesCell(ps, s.mapping)],
      tags, [s.imageUrl, s.ctaText, s.ctaUrl]);
    HeaderLength(ps);
  }

  lemma HeaderLength(ps: seq<Category>)
    ensures |ServicesHeader(ps)| == 8 + |ps|
  {
  }

  /** The column names of the services header, position by position. */
  lemma HeaderShape(ps: seq<Category>)
    ensures |ServicesHeader(ps)| == 8 + |ps|
    ensures ServicesHeader(ps)[..5] == FrontColumns
    ensures forall k :: 0 <= k < |ps| ==> ServicesHeader(ps)[5 + k] == TagColumn(ps[k].id)
    ensures ServicesHeader(ps)[5 + |ps|..] == BackColumns
  {
    var h := ServicesHeader(ps);
    Concat3(FrontColumns, TagColumns(ps), BackColumns);
    assert h[..5] == FrontColumns;
    assert h[5 + |ps|..] == BackColumns;
  }

  /** A cell of a services row is read back under its column's name. */
  lemma SheetRecordField(ps: seq<Category>, row: seq<string>, i: nat)
    requires SheetPrimaries(ps)
    requires |row| == |ServicesHeader(ps)| && i < |row|
    ensures Field(RecordOf(Headers(ServicesHeader(ps)), row), ServicesHeader(ps)[i]) == Trim(row[i])
  {
    HeaderSlugs(ps);
    HeaderDistinct(ps);
    RecordField(ServicesHeader(ps), row, i);
  }

  lemma RowIsCells(ps: seq<Category>, s: Service, row: seq<string>, tags: seq<string>)
    requires ServiceRow(ps, s) == Some(row)
    requires tags == TagCells(ps, s.mapping).value
    ensures row == RowCells(ps, s, tags)
    ensures |tags| == |ps| && forall k :: 0 <= k < |ps| ==> TagCell(s.mapping, ps[k].id) == Some(tags[k])
  {
  }

  /** Reading a service row under the services header gives back the service's
      text fields. */
  lemma ServiceRecordTexts(ps: seq<Category>, s: Service, row: seq<string>)
    requires SheetPrimaries(ps) && GoodService(s)
    requires ServiceRow(ps, s) == Some(row)
    ensures var r := RecordOf(Headers(ServicesHeader(ps)), row);
      && Field(r, "service_id") == s.serviceId && Field(r, "service_name") == s.serviceName
      && Field(r, "description") == s.description && Field(r, "price") == s.price
      && Field(r, "image_url") == s.imageUrl && Field(r, "cta_text") == s.ctaText
      && Field(r, "cta_url") == s.ctaUrl
  {
    var h := ServicesHeader(ps);
    var m := |ps|;
    ServiceRowShape(ps, s, row);
    HeaderShape(ps);
    assert h[0] == FrontColumns[0] && h[1] == FrontColumns[1] && h[2] == FrontColumns[2] && h[3] == FrontColumns[3];
    assert h[5 + m] == BackColumns[0] && h[6 + m] == BackColumns[1] && h[7 + m] == BackColumns[2];
    TrimmedTrim(s.serviceId); TrimmedTrim(s.serviceName); TrimmedTrim(s.description);
    TrimmedTrim(s.price); TrimmedTrim(s.imageUrl); TrimmedTrim(s.ctaText); TrimmedTrim(s.ctaUrl);
    SheetRecordField(ps, row, 0); SheetRecordField(ps, row, 1);
    SheetRecordField(ps, row, 2); SheetRecordField(ps, row, 3);
    SheetRecordField(ps, row, 5 + m); SheetRecordField(ps, row, 6 + m); SheetRecordField(ps, row, 7 + m);
  }

  /** Reading a service row under the services header gives back its mapping
      cells. */
  lemma ServiceRecordCells(ps: seq<Category>, s: Service, row: seq<string>)
    requires SheetPrimaries(ps) && Exportable(ps, s)
    requires ServiceRow(ps, s) == Some(row)
    ensures CellsOf(ps, s.mapping, RecordOf(Headers(ServicesHeader(ps)), row))
  {
    var h := ServicesHeader(ps);
    ServiceRowShape(ps, s, row);
    HeaderShape(ps);
    assert h[4] == FrontColumns[4];
    SheetRecordField(ps, row, 4);
    PrimaryCellTrimmed(ps, s.mapping);
    forall k | 0 <= k < |ps|
      ensures Field(RecordOf(Headers(h), row), TagColumn(ps[k].id)) == TagCell(s.mapping, ps[k].id).value
    {
      SheetRecordField(ps, row, 5 + k);
      TagCellRoundTrip(s.mapping, ps[k].id);
    }
  }

  /** The mapping imported from a record holding a mapping's cells is what the
      sheet keeps of it. */
  lemma ImportMappingOfCells(ps: seq<Category>, mapping: Json, r: Record)
    requires NonEmptySlugs(PrimaryIds(ps))
    requires forall k :: 0 <= k < |ps| ==> TagsFit(mapping, ps[k].id)
    requires CellsOf(ps, mapping, r)
    ensures ImportMapping(PrimaryIds(ps), r) == SheetMapping(PrimaryIds(ps), mapping)
  {
    var ids := PrimaryIds(ps);
    forall k | 0 <= k < |ids|
      ensures ImportEntry(r, ids[k]) == SheetEntry(mapping, ids[k])
    {
      EntryRoundTrip(ps, mapping, r, ids[k]);
    }
    MappingFieldsSame(ids, id => ImportEntry(r, id), id => SheetEntry(mapping, id), |ids|);
  }

  lemma ImportServiceOf(ids: seq<string>, r: Record, s: Service)
    requires GoodService(s)
    requires && Field(r, "service_id") == s.serviceId && Field(r, "service_name") == s.serviceName
             && Field(r, "description") == s.description && Field(r, "price") == s.price
             && Field(r, "image_url") == s.imageUrl && Field(r, "cta_text") == s.ctaText
             && Field(r, "cta_url") == s.ctaUrl
    ensures ImportService(ids, r) == Some(s.(mapping := ImportMapping(ids, r)))
  {
    TrimmedTrim(s.serviceId); TrimmedTrim(s.serviceName); TrimmedTrim(s.description);
    TrimmedTrim(s.price); TrimmedTrim(s.imageUrl); TrimmedTrim(s.ctaText); TrimmedTrim(s.ctaUrl);
  }

  /** Writing a service's row and importing it gives the service back, its
      mapping reduced to what the sheet keeps. */
  lemma ServiceRowRoundTrip(ps: seq<Category>, s: Service, row: seq<string>)
    requires SheetPrimaries(ps) && Exportable(ps, s)
    requires ServiceRow(ps, s) == Some(row)
    ensures ImportService(PrimaryIds(ps), RecordOf(Headers(ServicesHeader(ps)), row)) == Some(SheetService(ps, s))
  {
    var r := RecordOf(Headers(ServicesHeader(ps)), row);
    ServiceRecordTexts(ps, s, row);
    ServiceRecordCells(ps, s, row);
    ImportMappingOfCells(ps, s.mapping, r);
    ImportServiceOf(PrimaryIds(ps), r, s);
  }

  /** Rows none of which is blank all survive the filter. */
  lemma {:induction false} NonBlankRowsAll(rows: seq<seq<string>>)
    requires forall k :: 0 <= k < |rows| ==> !IsBlankRow(rows[k])
    ensures NonBlankRows(rows) == rows
  {
    if rows != [] {
      var n := |rows| - 1;
      var init := rows[..n];
      NonBlankInit(rows, init);
      NonBlankRowsAll(init);
      assert NonBlankRows(rows) == NonBlankRows(init) + [rows[n]];
      InitLast(rows);
    }
  }

  /** A non-empty list is its front followed by its last element. */
  lemma InitLast<T>(s: seq<T>)
    requires s != []
    ensures s[..|s| - 1] + [s[|s| - 1]] == s
  {
  }

  lemma NonBlankInit(rows: seq<seq<string>>, init: seq<seq<string>>)
    requires rows != [] && init == rows[..|rows| - 1]
    requires forall k :: 0 <= k < |rows| ==> !IsBlankRow(rows[k])
    ensures forall k :: 0 <= k < |init| ==> !IsBlankRow(init[k])
    ensures !IsBlankRow(rows[|rows| - 1])
  {
  }

  /** When every record imports, the import keeps them all, in order. */
  lemma {:induction false} ImportServicesAll(ids: seq<string>, recs: seq<Record>, out: seq<Service>)
    requires |recs| == |out|
    requires forall k :: 0 <= k < |recs| ==> ImportService(ids, recs[k]) == Some(out[k])
    ensures ImportServices(ids, recs) == out
  {
    if recs != [] {
      var rt, ot := recs[1..], out[1..];
      ImportTails(ids, recs, out, rt, ot);
      ImportServicesAll(ids, rt, ot);
      ImportServicesCons(ids, recs, out[0]);
      ConsTail(out);
    }
  }

  lemma ImportServicesCons(ids: seq<string>, recs: seq<Record>, s: Service)
    requires recs != [] && ImportService(ids, recs[0]) == Some(s)
    ensures ImportServices(ids, recs) == [s] + ImportServices(ids, recs[1..])
  {
  }

  lemma ImportTails(ids: seq<string>, recs: seq<Record>, out: seq<Service>, rt: seq<Record>, ot: seq<Service>)
    requires |recs| == |out| && recs != []
    requires rt == recs[1..] && ot == out[1..]
    requires forall k :: 0 <= k < |recs| ==> ImportService(ids, recs[k]) == Some(out[k])
    ensures forall k :: 0 <= k < |rt| ==> ImportService(ids, rt[k]) == Some(ot[k])
    ensures ImportService(ids, recs[0]) == Some(out[0])
  {
    forall k | 0 <= k < |rt|
      ensures ImportService(ids, rt[k]) == Some(ot[k])
    {
      assert rt[k] == recs[k + 1] && ot[k] == out[k + 1];
    }
  }

  /** Every service whose tags fit can be exported. */
  lemma ExportSucceeds(ps: seq<Category>, ss: seq<Service>)
    requires forall k :: 0 <= k < |ss| ==> Exportable(ps, ss[k])
    ensures ServicesCsv(ps, ss).Some?
  {
    forall k | 0 <= k < |ss|
      ensures ServiceRow(ps, ss[k]).Some?
    {
      assert TagCells(ps, ss[k].mapping).Some?;
    }
  }

  /** Parsing the services CSV text gives one record per service row. */
  lemma ParseServicesCsv(ps: seq<Category>, ss: seq<Service>, rows: seq<seq<string>>)
    requires SheetPrimaries(ps)
    requires forall k :: 0 <= k < |ss| ==> GoodService(ss[k])
    requires ServiceRows(ps, ss) == Some(rows)
    ensures ToObjects(Parse(CsvText([ServicesHeader(ps)] + rows))) == DataRecords(ServicesHeader(ps), rows)
    ensures NonBlankRows(rows) == rows
  {
    var h := ServicesHeader(ps);
    ServiceRowsNonBlank(ps, ss, rows);
    HeaderSlugs(ps);
    assert !IsBlankRow(h) by {
      assert h[0] == "service_id";
    }
    SheetRowsParse(h, rows);
    NonBlankRowsAll(rows);
  }

  lemma ServiceRowsNonBlank(ps: seq<Category>, ss: seq<Service>, rows: seq<seq<string>>)
    requires forall k :: 0 <= k < |ss| ==> GoodService(ss[k])
    requires ServiceRows(ps, ss) == Some(rows)
    ensures forall k :: 0 <= k < |rows| ==> |rows[k]| >= 1 && !IsBlankRow(rows[k])
  {
    forall k | 0 <= k < |rows|
      ensures |rows[k]| >= 1 && !IsBlankRow(rows[k])
    {
      ServiceRowShape(ps, ss[k], rows[k]);
      TrimmedTrim(ss[k].serviceId);
    }
  }

  /** A sheet of a header and data rows, none of them blank or empty, parses
      back to its header and rows. */
  lemma SheetRowsParse(h: seq<string>, rows: seq<seq<string>>)
    requires |h| >= 1 && !IsBlankRow(h)
    requires forall k :: 0 <= k < |rows| ==> |rows[k]| >= 1 && !IsBlankRow(rows[k])
    ensures ToObjects(Parse(CsvText([h] + rows))) == DataRecords(Headers(h), rows)
  {
    var all := [h] + rows;
    assert forall k :: 1 <= k < |all| ==> all[k] == rows[k - 1];
    ParseCsvText(all);
    assert all[1..] == rows;
  }

  /** The services sheet round trip: parsing the CSV text `buildServicesCsv`
      writes and importing its records gives the services back in order, each
      mapping reduced to what the sheet keeps. */
  lemma ServicesCsvRoundTrip(ps: seq<Category>, ss: seq<Service>, text: string)
    requires SheetPrimaries(ps)
    requires forall k :: 0 <= k < |ss| ==> Exportable(ps, ss[k])
    requires ServicesCsv(ps, ss) == Some(text)
    ensures ImportServices(PrimaryIds(ps), ToObjects(Parse(text))) == SheetServices(ps, ss)
  {
    var rows := ServiceRows(ps, ss).value;
    var h := ServicesHeader(ps);
    ParseServicesCsv(ps, ss, rows);
    var recs := DataRecords(h, rows);
    forall k | 0 <= k < |rows|
      ensures ImportService(PrimaryIds(ps), recs[k]) == Some(SheetServices(ps, ss)[k])
    {
      ServiceRowRoundTrip(ps, ss[k], rows[k]);
      HeaderSlugs(ps);
    }
    ImportServicesAll(PrimaryIds(ps), recs, SheetServices(ps, ss));
  }

  // ---- a second trip through the sheet changes nothing ----

  lemma SheetMappingGet(ids: seq<string>, mapping: Json, key: string)
    ensures Get(SheetMapping(ids, mapping), key) == if key in ids then SheetEntry(mapping, key) else JNull
  {
    assert ids[..|ids|] == ids;
    MappingFieldsLookup(ids, id => SheetEntry(mapping, id), |ids|, key);
  }

  lemma {:induction false} KeptAllTruthy(items: seq<Json>)
    requires forall k :: 0 <= k < |items| ==> Truthy(items[k])
    ensures KeptTags(items) == items
  {
    if items != [] {
      KeptAllTruthy(items[1..]);
      assert [items[0]] + items[1..] == items;
    }
  }

  /** The tags kept of a primary whose tags fit are non-empty slugs. */
  lemma TagTextsSlugs(mapping: Json, id: string)
    requires TagsFit(mapping, id)
    ensures NonEmptySlugs(TagTexts(mapping, id))
  {
    var t := TagsOf(mapping, id);
    if Enabled(mapping, id) && t.JArray? {
      var kept := KeptTags(t.items);
      forall k | 0 <= k < |kept|
        ensures SlugTag(kept[k]) && kept[k].s != ""
      {
        assert kept[k] in kept;
      }
    }
  }

  lemma EntryGet(enabled: bool, tags: seq<string>)
    ensures Get(EntryJson(enabled, tags), "enabled") == JBool(enabled)
    ensures Get(EntryJson(enabled, tags), "tags") == JArray(JStrings(tags))
  {
    var f := EntryJson(enabled, tags).fields;
    assert forall a, b :: 0 <= a < b < |f| ==> f[a].0 != f[b].0;
    LookupUnique(f, 0);
    LookupUnique(f, 1);
  }

  /** An entry written by the import is its own sheet form, and its tags fit. */
  lemma SheetEntryOfEntry(mapping: Json, id: string, enabled: bool, tags: seq<string>)
    requires Get(mapping, id) == EntryJson(enabled, tags)
    requires NonEmptySlugs(tags) && (!enabled ==> tags == [])
    ensures TagsFit(mapping, id)
    ensures SheetEntry(mapping, id) == EntryJson(enabled, tags)
  {
    var items := JStrings(tags);
    EntryGet(enabled, tags);
    assert TagsOf(mapping, id) == JArray(items);
    forall v | v in items && Truthy(v)
      ensures SlugTag(v)
    {
    }
    KeptAllTruthy(items);
    assert TagTexts(mapping, id) == tags;
  }

  /** Exporting and importing a second time gives the same mapping as once. */
  lemma SheetMappingIdempotent(ps: seq<Category>, mapping: Json)
    requires forall k :: 0 <= k < |ps| ==> TagsFit(mapping, ps[k].id)
    ensures forall k :: 0 <= k < |ps| ==> TagsFit(SheetMapping(PrimaryIds(ps), mapping), ps[k].id)
    ensures SheetMapping(PrimaryIds(ps), SheetMapping(PrimaryIds(ps), mapping)) == SheetMapping(PrimaryIds(ps), mapping)
  {
    var ids := PrimaryIds(ps);
    var once := SheetMapping(ids, mapping);
    forall k | 0 <= k < |ids|
      ensures TagsFit(once, ids[k]) && SheetEntry(once, ids[k]) == SheetEntry(mapping, ids[k])
    {
      SheetMappingGet(ids, mapping, ids[k]);
      TagTextsSlugs(mapping, ids[k]);
      SheetEntryOfEntry(once, ids[k], Enabled(mapping, ids[k]), TagTexts(mapping, ids[k]));
    }
    MappingFieldsSame(ids, id => SheetEntry(once, id), id => SheetEntry(mapping, id), |ids|);
  }

  /** What comes back from the sheet goes through it again unchanged. */
  lemma SecondTripUnchanged(ps: seq<Category>, ss: seq<Service>)
    requires SheetPrimaries(ps)
    requires forall k :: 0 <= k < |ss| ==> Exportable(ps, ss[k])
    ensures ServicesCsv(ps, SheetServices(ps, ss)).Some?
    ensures ImportServices(PrimaryIds(ps), ToObjects(Parse(ServicesCsv(ps, SheetServices(ps, ss)).value)))
            == SheetServices(ps, ss)
  {
    var back := SheetServices(ps, ss);
    forall k | 0 <= k < |ss|
      ensures Exportable(ps, back[k]) && SheetService(ps, back[k]) == back[k]
    {
      SheetMappingIdempotent(ps, ss[k].mapping);
    }
    ExportSucceeds(ps, back);
    ServicesCsvRoundTrip(ps, back, ServicesCsv(ps, back).value);
    assert SheetServices(ps, back) == back;
  }
}

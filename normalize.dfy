/**
 * `normalizeState`: from any parsed JSON value to a fully shaped configuration,
 * falling back to the defaults part by part. A `null` element in a list it maps
 * over makes the JavaScript code read a property of `null`, which throws.
 */
module Normalize {
  import opened Text
  import opened Slug
  import opened JsValues
  import opened Config

  datatype Outcome = Normalized(config: Config) | ThrowsTypeError

  /** A category as the normaliser leaves it: a non-empty slug id and a non-empty
      trimmed label. */
  predicate GoodCategory(c: Category)
  {
    c.id != "" && IsSlug(c.id) && c.caption != "" && IsTrimmed(c.caption)
  }

  predicate AllGood(cs: seq<Category>)
  {
    forall i :: 0 <= i < |cs| ==> GoodCategory(cs[i])
  }

  /** Buckets as the normaliser leaves them: distinct slug keys (possibly the
      empty one), good categories. */
  predicate GoodBuckets(b: Buckets)
  {
    DistinctKeys(b) && forall i :: 0 <= i < |b| ==> IsSlug(b[i].0) && AllGood(b[i].1)
  }

  /** A service as the normaliser leaves it: every text field trimmed, a
      non-empty id and name, and an object (or array) as its mapping. */
  predicate GoodService(s: Service)
  {
    && s.serviceId != "" && s.serviceName != ""
    && IsTrimmed(s.serviceId) && IsTrimmed(s.serviceName) && IsTrimmed(s.description)
    && IsTrimmed(s.price) && IsTrimmed(s.imageUrl) && IsTrimmed(s.ctaText) && IsTrimmed(s.ctaUrl)
    && IsObjectLike(s.mapping)
  }

  predicate WellShaped(c: Config)
  {
    && AllGood(c.primaries)
    && GoodBuckets(c.buckets)
    && (forall i :: 0 <= i < |c.services| ==> GoodService(c.services[i]))
    && IsObjectLike(c.draft)
  }

  /** `{ id: slugifyId(v.id), label: String(v.label ?? "").trim(), order: toInt(v.order, 0) }`. */
  function NormCategory(v: Json): (c: Category)
    ensures IsSlug(c.id) && IsTrimmed(c.caption)
  {
    var text := NullishString(Get(v, "label"));
    TrimIsTrimmed(text);
    Category(Slugify(FalsyString(Get(v, "id"))), Trim(text), ToIntJson(Get(v, "order"), 0))
  }

  /** The categories mapped with `NormCategory`, keeping those with an id and a label. */
  function NormCategories(items: seq<Json>): (r: seq<Category>)
    ensures |r| <= |items| && AllGood(r)
  {
    if items == [] then []
    else
      var c := NormCategory(items[0]);
      (if c.id != "" && c.caption != "" then [c] else []) + NormCategories(items[1..])
  }

  /** Every item whose normalised form has an id and a label is kept. */
  lemma {:induction false} NormCategoriesKeeps(items: seq<Json>)
    ensures forall i :: 0 <= i < |items| && NormCategory(items[i]).id != "" && NormCategory(items[i]).caption != "" ==>
      NormCategory(items[i]) in NormCategories(items)
  {
    if items != [] {
      NormCategoriesKeeps(items[1..]);
      var rest, r := NormCategories(items[1..]), NormCategories(items);
      assert r[|r| - |rest|..] == rest;
      forall i | 1 <= i < |items|
        ensures NormCategory(items[i]) == NormCategory(items[1..][i - 1])
      {
        assert items[i] == items[1..][i - 1];
      }
    }
  }

  /** Both `a + b` and `a` start with the item `a[0]`, kept or dropped alike. */
  lemma NormCategoriesHead(a: seq<Json>, b: seq<Json>)
    requires a != []
    ensures var c := NormCategory(a[0]);
      var h := if c.id != "" && c.caption != "" then [c] else [];
      NormCategories(a + b) == h + NormCategories(a[1..] + b) && NormCategories(a) == h + NormCategories(a[1..])
  {
    assert (a + b)[0] == a[0] && (a + b)[1..] == a[1..] + b;
  }

  /** `map` then `filter` works item by item, so the kept categories stay in the
      order of their items. */
  lemma {:induction false} NormCategoriesAppend(a: seq<Json>, b: seq<Json>)
    ensures NormCategories(a + b) == NormCategories(a) + NormCategories(b)
  {
    if a == [] {
      assert a + b == b;
    } else {
      var c := NormCategory(a[0]);
      var h := if c.id != "" && c.caption != "" then [c] else [];
      NormCategoriesAppend(a[1..], b);
      NormCategoriesHead(a, b);
      RegroupHead(NormCategories(a + b), NormCategories(a), h, NormCategories(a[1..]), NormCategories(b));
    }
  }

  /** `sbp[k] = v`: an existing member keeps its place, a new one goes last. */
  function Assign(acc: Buckets, k: string, v: seq<Category>): (r: Buckets)
    ensures KeySet(r) == KeySet(acc) + {k}
    ensures DistinctKeys(acc) ==> DistinctKeys(r)
    ensures GoodBuckets(acc) && IsSlug(k) && AllGood(v) ==> GoodBuckets(r)
  {
    if acc == [] then [(k, v)]
    else if acc[0].0 == k then [(k, v)] + acc[1..]
    else [acc[0]] + Assign(acc[1..], k, v)
  }

  /** An entry of `secondariesByPrimary` that the normaliser files under `k`. */
  predicate FiledUnder(e: (string, Json), k: string)
  {
    e.1.JArray? && Slugify(e.0) == k
  }

  /** One step of the `forEach` over `Object.entries(secondariesByPrimary)`: a
      list is normalised and filed under its slugged key; anything else is skipped. */
  function BucketStep(acc: Buckets, e: (string, Json)): Buckets
  {
    if e.1.JArray? then Assign(acc, Slugify(e.0), NormCategories(e.1.items)) else acc
  }

  function BucketsFrom(acc: Buckets, entries: seq<(string, Json)>): (r: Buckets)
    ensures GoodBuckets(acc) ==> GoodBuckets(r)
    decreases |entries|
  {
    if entries == [] then acc else BucketsFrom(BucketStep(acc, entries[0]), entries[1..])
  }

  /** Some list being normalised holds `null`. */
  predicate BucketsThrow(entries: seq<(string, Json)>)
  {
    exists i :: 0 <= i < |entries| && entries[i].1.JArray? && JNull in entries[i].1.items
  }

  function NormService(v: Json): (s: Service)
    ensures IsTrimmed(s.serviceId) && IsTrimmed(s.serviceName) && IsTrimmed(s.description)
    ensures IsTrimmed(s.price) && IsTrimmed(s.imageUrl) && IsTrimmed(s.ctaText) && IsTrimmed(s.ctaUrl)
    ensures IsObjectLike(s.mapping)
    ensures !IsObjectLike(Get(v, "mapping")) ==> s.mapping == JObject([])
  {
    var id, name, desc := NullishString(Get(v, "service_id")), NullishString(Get(v, "service_name")), NullishString(Get(v, "description"));
    var price, image := NullishString(Get(v, "price")), NullishString(Get(v, "image_url"));
    var ctaText, ctaUrl := NullishString(Get(v, "cta_text")), NullishString(Get(v, "cta_url"));
    TrimIsTrimmed(id); TrimIsTrimmed(name); TrimIsTrimmed(desc); TrimIsTrimmed(price);
    TrimIsTrimmed(image); TrimIsTrimmed(ctaText); TrimIsTrimmed(ctaUrl);
    var m := Get(v, "mapping");
    Service(Trim(id), Trim(name), Trim(desc), Trim(price), Trim(image), Trim(ctaText), Trim(ctaUrl),
            if IsObjectLike(m) then m else JObject([]))
  }

  /** The services mapped with `NormService`, keeping those with an id and a name. */
  function NormServices(items: seq<Json>): (r: seq<Service>)
    ensures |r| <= |items|
    ensures forall i :: 0 <= i < |r| ==> GoodService(r[i])
  {
    if items == [] then []
    else
      var s := NormService(items[0]);
      var h := if s.serviceId != "" && s.serviceName != "" then [s] else [];
      assert forall i :: 0 <= i < |h| ==> GoodService(h[i]);
      h + NormServices(items[1..])
  }

  /** Every item whose normalised form has an id and a name is kept. */
  lemma {:induction false} NormServicesKeeps(items: seq<Json>)
    ensures forall i :: 0 <= i < |items| && NormService(items[i]).serviceId != "" && NormService(items[i]).serviceName != "" ==>
      NormService(items[i]) in NormServices(items)
  {
    if items != [] {
      NormServicesKeeps(items[1..]);
      var rest, r := NormServices(items[1..]), NormServices(items);
      assert r[|r| - |rest|..] == rest;
      forall i | 1 <= i < |items|
        ensures NormService(items[i]) == NormService(items[1..][i - 1])
      {
        assert items[i] == items[1..][i - 1];
      }
    }
  }

  /** Both `a + b` and `a` start with the item `a[0]`, kept or dropped alike. */
  lemma NormServicesHead(a: seq<Json>, b: seq<Json>)
    requires a != []
    ensures var c := NormService(a[0]);
      var h := if c.serviceId != "" && c.serviceName != "" then [c] else [];
      NormServices(a + b) == h + NormServices(a[1..] + b) && NormServices(a) == h + NormServices(a[1..])
  {
    assert (a + b)[0] == a[0] && (a + b)[1..] == a[1..] + b;
  }

  /** The kept services stay in the order of their items. */
  lemma {:induction false} NormServicesAppend(a: seq<Json>, b: seq<Json>)
    ensures NormServices(a + b) == NormServices(a) + NormServices(b)
  {
    if a == [] {
      assert a + b == b;
    } else {
      var c := NormService(a[0]);
      var h := if c.serviceId != "" && c.serviceName != "" then [c] else [];
      NormServicesAppend(a[1..], b);
      NormServicesHead(a, b);
      RegroupHead(NormServices(a + b), NormServices(a), h, NormServices(a[1..]), NormServices(b));
    }
  }

  /** The primaries to normalise: `s.primaries` when it is a list, else the defaults. */
  function PrimaryItems(s: Json): seq<Json>
  {
    var ps := Get(s, "primaries");
    if ps.JArray? then ps.items else EncodeCategories(DefaultPrimaries())
  }

  /** The entries of `s.secondariesByPrimary` when it is an object (or an array),
      else those of the default buckets. */
  function BucketEntries(s: Json): seq<(string, Json)>
  {
    var sb := Get(s, "secondariesByPrimary");
    if IsObjectLike(sb) then Entries(sb) else EncodeBuckets(DefaultBuckets())
  }

  /** The services to normalise: `s.services` when it is a list, else none. */
  function ServiceItems(s: Json): seq<Json>
  {
    var sv := Get(s, "services");
    if sv.JArray? then sv.items else []
  }

  /** `s.draft` when it is an object (or an array), else the default draft. */
  function DraftOf(s: Json): (r: Json)
    ensures IsObjectLike(r)
  {
    var dr := Get(s, "draft");
    if IsObjectLike(dr) then dr else DefaultDraft()
  }

  /** `normalizeState(s)`. */
  function Normalize(s: Json): (r: Outcome)
    ensures r.Normalized? ==> WellShaped(r.config)
  {
    DefaultWellShaped();
    if !IsObjectLike(s) then Normalized(DefaultConfig())
    else NormalizeParts(PrimaryItems(s), BucketEntries(s), ServiceItems(s), DraftOf(s))
  }

  /** The object branch of `normalizeState`, from the four parts it reads. */
  function NormalizeParts(primaries: seq<Json>, entries: seq<(string, Json)>, services: seq<Json>, draft: Json): (r: Outcome)
    requires IsObjectLike(draft)
    ensures r.Normalized? <==> JNull !in primaries && !BucketsThrow(entries) && JNull !in services
    ensures r.Normalized? ==> WellShaped(r.config) && r.config.draft == draft
  {
    if JNull in primaries || BucketsThrow(entries) || JNull in services then ThrowsTypeError
    else Normalized(Config(NormCategories(primaries), BucketsFrom([], entries), NormServices(services), draft))
  }

  /** The default configuration is well shaped. */
  lemma DefaultWellShaped()
    ensures WellShaped(DefaultConfig())
  {
    DefaultPrimariesGood();
    DefaultBucketsGood();
  }

  lemma DefaultPrimariesGood()
    ensures AllGood(DefaultPrimaries())
  {
    var p := DefaultPrimaries();
    assert GoodCategory(p[0]);
    assert GoodCategory(p[1]);
    assert GoodCategory(p[2]);
  }

  lemma DefaultBucketsGood()
    ensures GoodBuckets(DefaultBuckets())
  {
    var b := DefaultBuckets();
    assert IsSlug(b[0].0) && IsSlug(b[1].0) && IsSlug(b[2].0);
    assert DistinctKeys(b[2..]);
    assert DistinctKeys(b[1..]);
    FirstBucketGood();
    SecondBucketGood();
    ThirdBucketGood();
  }

  lemma FirstBucketGood()
    ensures AllGood(DefaultBuckets()[0].1)
  {
    var c := DefaultBuckets()[0].1;
    assert GoodCategory(c[0]);
    assert GoodCategory(c[1]);
    assert GoodCategory(c[2]);
  }

  lemma SecondBucketGood()
    ensures AllGood(DefaultBuckets()[1].1)
  {
    var c := DefaultBuckets()[1].1;
    assert GoodCategory(c[0]);
    assert GoodCategory(c[1]);
  }

  lemma ThirdBucketGood()
    ensures AllGood(DefaultBuckets()[2].1)
  {
    var c := DefaultBuckets()[2].1;
    assert GoodCategory(c[0]);
    assert GoodCategory(c[1]);
    assert GoodCategory(c[2]);
  }

  /** A category read back from its JSON form. */
  lemma NormEncodedCategory(c: Category)
    requires GoodCategory(c)
    ensures NormCategory(EncodeCategory(c)) == c
  {
    GetEncodedCategory(c);
    SlugifyOfSlug(c.id);
    TrimmedTrim(c.caption);
    ToIntOfNumber(c.order, 0);
  }

  /** Good categories read back from their JSON form, all kept and in order. */
  lemma {:induction false} NormEncodedCategories(cs: seq<Category>)
    requires AllGood(cs)
    ensures NormCategories(EncodeCategories(cs)) == cs
  {
    if cs != [] {
      var e := EncodeCategories(cs);
      assert e[1..] == EncodeCategories(cs[1..]);
      NormEncodedCategory(cs[0]);
      NormEncodedCategories(cs[1..]);
      ConsTail(cs);
    }
  }

  /** Regrouping a list whose head part is shared with a shorter one. */
  lemma RegroupHead<T>(l: seq<T>, m: seq<T>, h: seq<T>, x: seq<T>, y: seq<T>)
    requires l == h + (x + y) && m == h + x
    ensures l == m + y
  {
  }

  lemma ConsTail<T>(s: seq<T>)
    requires s != []
    ensures [s[0]] + s[1..] == s
  {
  }

  lemma AppendHead<T>(acc: seq<T>, b: seq<T>)
    requires b != []
    ensures acc + [b[0]] + b[1..] == acc + b
  {
  }

  lemma {:induction false} KeySetSnoc<T>(entries: seq<(string, T)>, x: (string, T))
    ensures KeySet(entries + [x]) == KeySet(entries) + {x.0}
  {
    if entries != [] {
      assert (entries + [x])[1..] == entries[1..] + [x];
      KeySetSnoc(entries[1..], x);
    }
  }

  /** Filing a list under a new key appends it. */
  lemma {:induction false} AssignNew(acc: Buckets, k: string, v: seq<Category>)
    requires k !in KeySet(acc)
    ensures Assign(acc, k, v) == acc + [(k, v)]
  {
    if acc != [] {
      AssignNew(acc[1..], k, v);
      assert acc == [acc[0]] + acc[1..];
    }
  }

  lemma BucketsTail(b: Buckets)
    requires b != [] && GoodBuckets(b)
    ensures GoodBuckets(b[1..]) && b[0].0 !in KeySet(b[1..])
    ensures IsSlug(b[0].0) && AllGood(b[0].1)
  {
    assert forall i :: 1 <= i < |b| ==> b[1..][i - 1] == b[i];
  }

  /** The first of some good buckets, read back from its JSON form, is filed
      after what is already filed. */
  lemma BucketStepEncoded(acc: Buckets, b: Buckets)
    requires b != [] && GoodBuckets(b)
    requires b[0].0 !in KeySet(acc)
    ensures BucketStep(acc, EncodeBuckets(b)[0]) == acc + [b[0]]
  {
    BucketsTail(b);
    NormEncodedCategories(b[0].1);
    SlugifyOfSlug(b[0].0);
    AssignNew(acc, b[0].0, b[0].1);
  }

  /** Good buckets read back from their JSON form, after what is already filed. */
  lemma {:induction false} BucketsFromEncoded(acc: Buckets, b: Buckets)
    requires GoodBuckets(b)
    requires KeySet(acc) !! KeySet(b)
    ensures BucketsFrom(acc, EncodeBuckets(b)) == acc + b
    decreases |b|
  {
    var e := EncodeBuckets(b);
    if b == [] {
      assert acc + b == acc;
    } else {
      BucketsTail(b);
      assert e[1..] == EncodeBuckets(b[1..]);
      BucketStepEncoded(acc, b);
      KeySetSnoc(acc, b[0]);
      BucketsFromEncoded(acc + [b[0]], b[1..]);
      AppendHead(acc, b);
    }
  }

  /** A service read back from its JSON form. */
  lemma NormEncodedService(s: Service)
    requires GoodService(s)
    ensures NormService(EncodeService(s)) == s
  {
    GetEncodedService(s);
    TrimmedTrim(s.serviceId);
    TrimmedTrim(s.serviceName);
    TrimmedTrim(s.description);
    TrimmedTrim(s.price);
    TrimmedTrim(s.imageUrl);
    TrimmedTrim(s.ctaText);
    TrimmedTrim(s.ctaUrl);
  }

  /** Good services read back from their JSON form, all kept and in order. */
  lemma {:induction false} NormEncodedServices(ss: seq<Service>)
    requires forall i :: 0 <= i < |ss| ==> GoodService(ss[i])
    ensures NormServices(EncodeServices(ss)) == ss
  {
    if ss != [] {
      var e := EncodeServices(ss);
      assert e[1..] == EncodeServices(ss[1..]);
      NormEncodedService(ss[0]);
      NormEncodedServices(ss[1..]);
      ConsTail(ss);
    }
  }

  lemma NoNullCategories(cs: seq<Category>)
    ensures JNull !in EncodeCategories(cs)
  {
  }

  lemma NoNullBuckets(b: Buckets)
    ensures !BucketsThrow(EncodeBuckets(b))
  {
    var e := EncodeBuckets(b);
    forall i | 0 <= i < |e|
      ensures JNull !in e[i].1.items
    {
      NoNullCategories(b[i].1);
    }
  }

  /** The parts the normaliser reads from a configuration's JSON form. */
  lemma SourcesOfEncoded(c: Config)
    requires IsObjectLike(c.draft)
    ensures PrimaryItems(EncodeConfig(c)) == EncodeCategories(c.primaries)
    ensures BucketEntries(EncodeConfig(c)) == EncodeBuckets(c.buckets)
    ensures ServiceItems(EncodeConfig(c)) == EncodeServices(c.services)
    ensures DraftOf(EncodeConfig(c)) == c.draft
  {
    GetEncodedConfig(c);
  }

  /** An object whose parts are the JSON forms of a well-shaped configuration's
      parts normalises to that configuration. */
  lemma NormalizeFromSources(s: Json, c: Config)
    requires IsObjectLike(s) && WellShaped(c)
    requires PrimaryItems(s) == EncodeCategories(c.primaries)
    requires BucketEntries(s) == EncodeBuckets(c.buckets)
    requires ServiceItems(s) == EncodeServices(c.services)
    requires DraftOf(s) == c.draft
    ensures Normalize(s) == Normalized(c)
  {
    EncodedNoThrow(c);
    NormEncodedCategories(c.primaries);
    BucketsFromEncoded([], c.buckets);
    NormEncodedServices(c.services);
  }

  lemma EncodedNoThrow(c: Config)
    ensures JNull !in EncodeCategories(c.primaries)
    ensures !BucketsThrow(EncodeBuckets(c.buckets))
    ensures JNull !in EncodeServices(c.services)
  {
    NoNullCategories(c.primaries);
    NoNullBuckets(c.buckets);
  }

  /** A well-shaped configuration, written as JSON, normalises to itself. */
  lemma NormalizeOfWellShaped(c: Config)
    requires WellShaped(c)
    ensures Normalize(EncodeConfig(c)) == Normalized(c)
  {
    SourcesOfEncoded(c);
    NormalizeFromSources(EncodeConfig(c), c);
  }

  /** `normalizeState` is idempotent: normalising the JSON form of its result
      gives the same configuration. */
  lemma NormalizeIdempotent(s: Json)
    requires Normalize(s).Normalized?
    ensures Normalize(EncodeConfig(Normalize(s).config)) == Normalize(s)
  {
    NormalizeOfWellShaped(Normalize(s).config);
  }

  /** The parts the normaliser reads from the empty object: the defaults. */
  lemma SourcesOfEmpty()
    ensures PrimaryItems(JObject([])) == EncodeCategories(DefaultPrimaries())
    ensures BucketEntries(JObject([])) == EncodeBuckets(DefaultBuckets())
    ensures ServiceItems(JObject([])) == []
    ensures DraftOf(JObject([])) == DefaultDraft()
  {
  }

  /** A value that is not an object, and the empty object, both give the
      default configuration. */
  lemma DefaultsWhenNotObject(s: Json)
    requires !IsObjectLike(s) || s == JObject([])
    ensures Normalize(s) == Normalized(DefaultConfig())
  {
    if s == JObject([]) {
      SourcesOfEmpty();
      DefaultWellShaped();
      NormalizeFromSources(s, DefaultConfig());
    }
  }

  /** Looking up a key after filing a list under `k`. */
  lemma {:induction false} FindAssign(acc: Buckets, k: string, v: seq<Category>, key: string)
    ensures Find(Assign(acc, k, v), key) == if key == k then Some(v) else Find(acc, key)
  {
    if acc != [] && acc[0].0 != k {
      FindAssign(acc[1..], k, v, key);
    }
  }

  lemma {:induction false} BucketsFromUnfiled(acc: Buckets, entries: seq<(string, Json)>, k: string)
    requires forall j :: 0 <= j < |entries| ==> !FiledUnder(entries[j], k)
    ensures Find(BucketsFrom(acc, entries), k) == Find(acc, k)
    decreases |entries|
  {
    if entries != [] {
      var e := entries[0];
      if e.1.JArray? {
        FindAssign(acc, Slugify(e.0), NormCategories(e.1.items), k);
      }
      BucketsFromUnfiled(BucketStep(acc, e), entries[1..], k);
    }
  }

  lemma {:induction false} BucketsFromLast(acc: Buckets, entries: seq<(string, Json)>, k: string, i: nat)
    requires i < |entries| && FiledUnder(entries[i], k)
    requires forall j :: i < j < |entries| ==> !FiledUnder(entries[j], k)
    ensures Find(BucketsFrom(acc, entries), k) == Some(NormCategories(entries[i].1.items))
    decreases |entries|
  {
    var e := entries[0];
    var rest := entries[1..];
    if i == 0 {
      FindAssign(acc, Slugify(e.0), NormCategories(e.1.items), k);
      assert forall j :: 0 <= j < |rest| ==> rest[j] == entries[j + 1];
      BucketsFromUnfiled(BucketStep(acc, e), rest, k);
    } else {
      assert rest[i - 1] == entries[i];
      assert forall j :: i - 1 < j < |rest| ==> rest[j] == entries[j + 1];
      BucketsFromLast(BucketStep(acc, e), rest, k, i - 1);
    }
  }

  /** The bucket filed under `k` holds the normalised list of the LAST entry of
      `secondariesByPrimary` whose key slugs to `k` and whose value is a list:
      ids are not deduplicated, a later entry overwrites an earlier one. */
  lemma BucketIsLastList(s: Json, k: string, i: nat)
    requires IsObjectLike(s) && Normalize(s).Normalized?
    requires i < |BucketEntries(s)| && FiledUnder(BucketEntries(s)[i], k)
    requires forall j :: i < j < |BucketEntries(s)| ==> !FiledUnder(BucketEntries(s)[j], k)
    ensures Find(Normalize(s).config.buckets, k) == Some(NormCategories(BucketEntries(s)[i].1.items))
  {
    BucketsFromLast([], BucketEntries(s), k, i);
  }

  /** Without an entry whose key slugs to `k` and whose value is a list, there
      is no bucket under `k`. */
  lemma NoBucketWithoutList(s: Json, k: string)
    requires IsObjectLike(s) && Normalize(s).Normalized?
    requires forall j :: 0 <= j < |BucketEntries(s)| ==> !FiledUnder(BucketEntries(s)[j], k)
    ensures Find(Normalize(s).config.buckets, k) == None
  {
    BucketsFromUnfiled([], BucketEntries(s), k);
  }

  /** No list anywhere inside `v` holds `null`. */
  predicate NullFree(v: Json)
  {
    match v
    case JArray(items) => forall i :: 0 <= i < |items| ==> items[i] != JNull && NullFree(items[i])
    case JObject(fields) => forall i :: 0 <= i < |fields| ==> NullFree(fields[i].1)
    case _ => true
  }

  lemma {:induction false} LookupNullFree(fields: seq<(string, Json)>, key: string)
    requires forall i :: 0 <= i < |fields| ==> NullFree(fields[i].1)
    ensures NullFree(Lookup(fields, key))
  {
    if fields != [] && fields[|fields| - 1].0 != key {
      LookupNullFree(fields[..|fields| - 1], key);
    }
  }

  lemma GetNullFree(v: Json, key: string)
    requires NullFree(v)
    ensures NullFree(Get(v, key))
  {
    if v.JObject? {
      LookupNullFree(v.fields, key);
    }
  }

  lemma EntriesNullFree(v: Json)
    requires IsObjectLike(v) && NullFree(v)
    ensures !BucketsThrow(Entries(v))
  {
    var e := Entries(v);
    forall i | 0 <= i < |e| && e[i].1.JArray?
      ensures JNull !in e[i].1.items
    {
      assert NullFree(e[i].1);
    }
  }

  /** `normalizeState` throws only on a list that holds `null`: on a value
      without one it always gives a configuration. */
  lemma NoThrowWhenNullFree(s: Json)
    requires NullFree(s)
    ensures Normalize(s).Normalized?
  {
    if IsObjectLike(s) {
      GetNullFree(s, "primaries");
      GetNullFree(s, "secondariesByPrimary");
      GetNullFree(s, "services");
      NoNullCategories(DefaultPrimaries());
      NoNullBuckets(DefaultBuckets());
      var sb := Get(s, "secondariesByPrimary");
      if IsObjectLike(sb) {
        EntriesNullFree(sb);
      }
    }
  }

  /** A `services` value that is not a list gives no services. */
  lemma ServicesDefaultEmpty(s: Json)
    requires !Get(s, "services").JArray?
    ensures Normalize(s).Normalized? ==> Normalize(s).config.services == []
  {
  }

  /** Missing `primaries` and `secondariesByPrimary` fall back to defaults that hold no `null`. */
  lemma DefaultLists(s: Json)
    requires !Get(s, "primaries").JArray? && !IsObjectLike(Get(s, "secondariesByPrimary"))
    ensures JNull !in PrimaryItems(s) && !BucketsThrow(BucketEntries(s))
  {
    NoNullCategories(DefaultPrimaries());
    NoNullBuckets(DefaultBuckets());
  }

  /** When no list it maps holds `null`, the object branch keeps the primaries and
      the services that `NormCategories` and `NormServices` keep. */
  lemma NormalizeLists(s: Json)
    requires IsObjectLike(s)
    requires JNull !in PrimaryItems(s) && !BucketsThrow(BucketEntries(s)) && JNull !in ServiceItems(s)
    ensures Normalize(s).Normalized?
    ensures Normalize(s).config.primaries == NormCategories(PrimaryItems(s))
    ensures Normalize(s).config.services == NormServices(ServiceItems(s))
  {
  }

  /** `{ primaries: [{ id: "Has Space!", label: "X", order: "3" }] }` normalises to
      the one primary `has_space`, labelled `X`, with order 3. */
  lemma NormalizeExamplePrimary(s: Json)
    requires s == JObject([("primaries", JArray([JObject([("id", JString("Has Space!")), ("label", JString("X")), ("order", JString("3"))])]))])
    ensures Normalize(s).Normalized?
    ensures Normalize(s).config.primaries == [Category("has_space", "X", 3)]
  {
    var p := s.fields[0].1.items[0];
    assert PrimaryItems(s) == [p];
    assert JNull !in ServiceItems(s) && !BucketsThrow(BucketEntries(s)) by {
      assert ServiceItems(s) == [];
      assert BucketEntries(s) == EncodeBuckets(DefaultBuckets());
      NoNullBuckets(DefaultBuckets());
    }
    NormalizeLists(s);
    assert NormCategories([p]) == [Category("has_space", "X", 3)] by {
      ExampleCategory(p);
      NormCategoriesHead([p], []);
      assert [p] + [] == [p];
    }
  }

  /** The fields of the example category object, read back by key. */
  lemma ExampleCategoryFields(p: Json)
    requires p == JObject([("id", JString("Has Space!")), ("label", JString("X")), ("order", JString("3"))])
    ensures Get(p, "id") == JString("Has Space!") && Get(p, "label") == JString("X") && Get(p, "order") == JString("3")
  {
    var f := p.fields;
    assert forall a, b :: 0 <= a < b < |f| ==> f[a].0 != f[b].0;
    LookupUnique(f, 0);
    LookupUnique(f, 1);
    LookupUnique(f, 2);
  }

  lemma ExampleCategory(p: Json)
    requires p == JObject([("id", JString("Has Space!")), ("label", JString("X")), ("order", JString("3"))])
    ensures NormCategory(p) == Category("has_space", "X", 3)
  {
    ExampleCategoryFields(p);
    SlugifyExample("Has Space!");
    ExampleLabelAndOrder();
  }

  /** The label `X` is already trimmed and the order `"3"` reads as 3. */
  lemma ExampleLabelAndOrder()
    ensures Trim("X") == "X" && ToIntJson(JString("3"), 0) == 3
  {
    assert IsTrimmed("X");
    TrimmedTrim("X");
    assert IntToString(3) == "3";
    ToIntOfIntToString(3, 0);
  }

  /** `{ services: [{ service_id: " 5 ", service_name: "Svc" }] }` normalises to one
      service with the id `5`, the name `Svc`, empty texts and an empty mapping. */
  lemma NormalizeExampleService(s: Json)
    requires s == JObject([("services", JArray([JObject([("service_id", JString(" 5 ")), ("service_name", JString("Svc"))])]))])
    ensures Normalize(s).Normalized?
    ensures Normalize(s).config.services == [Service("5", "Svc", "", "", "", "", "", JObject([]))]
  {
    var v := s.fields[0].1.items[0];
    assert ServiceItems(s) == [v] by {
      LookupUnique(s.fields, 0);
    }
    LookupAbsent(s.fields, "primaries");
    LookupAbsent(s.fields, "secondariesByPrimary");
    DefaultLists(s);
    NormalizeLists(s);
    assert NormServices([v]) == [Service("5", "Svc", "", "", "", "", "", JObject([]))] by {
      ExampleService(v);
      NormServicesHead([v], []);
      assert [v] + [] == [v];
    }
  }

  /** The fields of the example service object, read back by key; the absent ones read as null. */
  lemma ExampleServiceFields(v: Json)
    requires v == JObject([("service_id", JString(" 5 ")), ("service_name", JString("Svc"))])
    ensures Get(v, "service_id") == JString(" 5 ") && Get(v, "service_name") == JString("Svc")
    ensures Get(v, "description") == Get(v, "price") == Get(v, "image_url") == JNull
    ensures Get(v, "cta_text") == Get(v, "cta_url") == Get(v, "mapping") == JNull
  {
    var f := v.fields;
    LookupUnique(f, 0);
    LookupUnique(f, 1);
    LookupAbsent(f, "description");
    LookupAbsent(f, "price");
    LookupAbsent(f, "image_url");
    LookupAbsent(f, "cta_text");
    LookupAbsent(f, "cta_url");
    LookupAbsent(f, "mapping");
  }

  lemma ExampleService(v: Json)
    requires v == JObject([("service_id", JString(" 5 ")), ("service_name", JString("Svc"))])
    ensures NormService(v) == Service("5", "Svc", "", "", "", "", "", JObject([]))
  {
    ExampleServiceFields(v);
    assert Trim(" 5 ") == "5" by {
      assert TrimStart(" 5 ") == "5 ";
      assert TrimEnd("5 ") == "5";
    }
    assert Trim("Svc") == "Svc" by {
      assert IsTrimmed("Svc");
      TrimmedTrim("Svc");
    }
  }
}

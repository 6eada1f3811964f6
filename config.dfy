/**
 * The configuration the tool edits: primary categories, the secondary categories
 * of each primary ("buckets", in the key order of the JavaScript object that
 * holds them), the services and the editing draft; the default configuration;
 * and how each of them is written as JSON.
 */
module Config {
  import opened Text
  import opened JsValues

  /** A primary or secondary category: `{ id, label, order }` (`label` is a Dafny keyword, so the field is named `caption`). */
  datatype Category = Category(id: string, caption: string, order: int)

  /** A service row. `mapping` is kept as the JSON value it was read from; the
      editor writes `{ [primaryId]: { enabled, tags } }` into it. */
  datatype Service = Service(
    serviceId: string,
    serviceName: string,
    description: string,
    price: string,
    imageUrl: string,
    ctaText: string,
    ctaUrl: string,
    mapping: Json)

  /** `secondariesByPrimary`: primary id and its list, in key order. */
  type Buckets = seq<(string, seq<Category>)>

  datatype Config = Config(
    primaries: seq<Category>,
    buckets: Buckets,
    services: seq<Service>,
    draft: Json)

  datatype Option<T> = None | Some(value: T)

  /** The member names of an ordered list of pairs. */
  function KeySet<T>(entries: seq<(string, T)>): set<string>
  {
    if entries == [] then {} else {entries[0].0} + KeySet(entries[1..])
  }

  /** No member name occurs twice, as in a JavaScript object. */
  predicate DistinctKeys<T>(entries: seq<(string, T)>)
  {
    entries == [] || (entries[0].0 !in KeySet(entries[1..]) && DistinctKeys(entries[1..]))
  }

  /** The value of the first member named `key`. */
  function Find<T>(entries: seq<(string, T)>, key: string): Option<T>
  {
    if entries == [] then None
    else if entries[0].0 == key then Some(entries[0].1)
    else Find(entries[1..], key)
  }

  /** The buckets as a lookup table from primary id to its list. */
  function BucketMap(b: Buckets): map<string, seq<Category>>
  {
    if b == [] then map[] else map[b[0].0 := b[0].1] + BucketMap(b[1..])
  }

  function DefaultPrimaries(): (r: seq<Category>)
    ensures |r| == 3
  {
    [ Category("yksityinen", "Yksityinen", 1),
      Category("taloyhtio", "Taloyhti\U{f6}", 2),
      Category("yritys", "Yritys", 3) ]
  }

  function DefaultBuckets(): (r: Buckets)
    ensures |r| == 3
  {
    [ ("yksityinen", [ Category("mokki", "M\U{f6}kki", 1),
                       Category("kerrostalo", "Kerrostalo", 2),
                       Category("omakotitalo", "Omakotitalo", 3) ]),
      ("taloyhtio", [ Category("kerrostalo", "Kerrostalo", 1),
                      Category("rivitalo", "Rivitalo", 2) ]),
      ("yritys", [ Category("toimisto", "Toimisto", 1),
                   Category("teollisuus", "Teollisuus", 2),
                   Category("varasto", "Varasto", 3) ]) ]
  }

  /** `{ editingServiceId: null, service: null }`. */
  function DefaultDraft(): Json
  {
    JObject([("editingServiceId", JNull), ("service", JNull)])
  }

  /** `getDefaultState()`. */
  function DefaultConfig(): (r: Config)
    ensures |r.primaries| == 3 && |r.buckets| == 3 && r.services == []
  {
    Config(DefaultPrimaries(), DefaultBuckets(), [], DefaultDraft())
  }

  function EncodeCategory(c: Category): Json
  {
    JObject([("id", JString(c.id)), ("label", JString(c.caption)), ("order", JNumber(c.order))])
  }

  /** Each member of a category's JSON form reads back. */
  lemma GetEncodedCategory(c: Category)
    ensures Get(EncodeCategory(c), "id") == JString(c.id)
    ensures Get(EncodeCategory(c), "label") == JString(c.caption)
    ensures Get(EncodeCategory(c), "order") == JNumber(c.order)
  {
    var f := EncodeCategory(c).fields;
    assert forall a, b :: 0 <= a < b < |f| ==> f[a].0 != f[b].0;
    LookupUnique(f, 0);
    LookupUnique(f, 1);
    LookupUnique(f, 2);
  }

  function EncodeCategories(cs: seq<Category>): (r: seq<Json>)
    ensures |r| == |cs|
    ensures forall i :: 0 <= i < |r| ==> r[i] == EncodeCategory(cs[i])
  {
    seq(|cs|, i requires 0 <= i < |cs| => EncodeCategory(cs[i]))
  }

  function EncodeBuckets(b: Buckets): (r: seq<(string, Json)>)
    ensures |r| == |b|
    ensures forall i :: 0 <= i < |r| ==> r[i] == (b[i].0, JArray(EncodeCategories(b[i].1)))
  {
    seq(|b|, i requires 0 <= i < |b| => (b[i].0, JArray(EncodeCategories(b[i].1))))
  }

  function EncodeService(s: Service): Json
  {
    JObject([
      ("service_id", JString(s.serviceId)),
      ("service_name", JString(s.serviceName)),
      ("description", JString(s.description)),
      ("price", JString(s.price)),
      ("image_url", JString(s.imageUrl)),
      ("cta_text", JString(s.ctaText)),
      ("cta_url", JString(s.ctaUrl)),
      ("mapping", s.mapping)])
  }

  lemma ServiceMembersDistinct(s: Service)
    ensures EncodeService(s).JObject?
    ensures forall a, b :: 0 <= a < b < |EncodeService(s).fields| ==> EncodeService(s).fields[a].0 != EncodeService(s).fields[b].0
  {
  }

  /** Each member of a service's JSON form reads back. */
  lemma GetEncodedService(s: Service)
    ensures Get(EncodeService(s), "service_id") == JString(s.serviceId)
    ensures Get(EncodeService(s), "service_name") == JString(s.serviceName)
    ensures Get(EncodeService(s), "description") == JString(s.description)
    ensures Get(EncodeService(s), "price") == JString(s.price)
    ensures Get(EncodeService(s), "image_url") == JString(s.imageUrl)
    ensures Get(EncodeService(s), "cta_text") == JString(s.ctaText)
    ensures Get(EncodeService(s), "cta_url") == JString(s.ctaUrl)
    ensures Get(EncodeService(s), "mapping") == s.mapping
  {
    var f := EncodeService(s).fields;
    ServiceMembersDistinct(s);
    LookupUnique(f, 0);
    LookupUnique(f, 1);
    LookupUnique(f, 2);
    LookupUnique(f, 3);
    LookupUnique(f, 4);
    LookupUnique(f, 5);
    LookupUnique(f, 6);
    LookupUnique(f, 7);
  }

  function EncodeServices(ss: seq<Service>): (r: seq<Json>)
    ensures |r| == |ss|
    ensures forall i :: 0 <= i < |r| ==> r[i] == EncodeService(ss[i])
  {
    seq(|ss|, i requires 0 <= i < |ss| => EncodeService(ss[i]))
  }

  /** The configuration as the JSON object the tool stores and exports. */
  function EncodeConfig(c: Config): Json
  {
    JObject([
      ("primaries", JArray(EncodeCategories(c.primaries))),
      ("secondariesByPrimary", JObject(EncodeBuckets(c.buckets))),
      ("services", JArray(EncodeServices(c.services))),
      ("draft", c.draft)])
  }

  /** Each member of the configuration's JSON form reads back. */
  lemma GetEncodedConfig(c: Config)
    ensures Get(EncodeConfig(c), "primaries") == JArray(EncodeCategories(c.primaries))
    ensures Get(EncodeConfig(c), "secondariesByPrimary") == JObject(EncodeBuckets(c.buckets))
    ensures Get(EncodeConfig(c), "services") == JArray(EncodeServices(c.services))
    ensures Get(EncodeConfig(c), "draft") == c.draft
  {
    var f := EncodeConfig(c).fields;
    assert forall a, b :: 0 <= a < b < |f| ==> f[a].0 != f[b].0;
    LookupUnique(f, 0);
    LookupUnique(f, 1);
    LookupUnique(f, 2);
    LookupUnique(f, 3);
  }
}

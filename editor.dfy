/**
 * The state actions of the editor: adding and deleting primary and secondary
 * categories, saving and deleting services. Each action validates the form
 * values it is given, reports what it did, and updates the configuration in
 * place; persisting and re-rendering afterwards are left out.
 */
module Editing {
  import opened Text
  import opened Slug
  import opened JsValues
  import opened Config
  import opened Normalize

  /** What an action reports: the status line it shows, or that it went through. */
  datatype Status =
    | MissingFields   // "Täytä ID + nimi", "Palvelu: service_id + otsikko vaaditaan"
    | DuplicateId     // "ID on jo käytössä", "service_id on jo käytössä"
    | NoPrimary       // "Lisää ensin pääkategoria"
    | Done

  /** `list.some((c) => c.id === id)`. */
  predicate HasCategory(cs: seq<Category>, id: string)
  {
    exists i :: 0 <= i < |cs| && cs[i].id == id
  }

  predicate UniqueIds(cs: seq<Category>)
  {
    forall i, j :: 0 <= i < j < |cs| ==> cs[i].id != cs[j].id
  }

  /** `list.filter((c) => c.id !== id)`. */
  function WithoutCategory(cs: seq<Category>, id: string): (r: seq<Category>)
    ensures |r| <= |cs|
    ensures forall c :: c in r <==> c in cs && c.id != id
  {
    if cs == [] then []
    else (if cs[0].id != id then [cs[0]] else []) + WithoutCategory(cs[1..], id)
  }

  /** `services.find((s) => s.service_id === id)` finds something. */
  predicate HasService(ss: seq<Service>, id: string)
  {
    exists i :: 0 <= i < |ss| && ss[i].serviceId == id
  }

  predicate UniqueServiceIds(ss: seq<Service>)
  {
    forall i, j :: 0 <= i < j < |ss| ==> ss[i].serviceId != ss[j].serviceId
  }

  /** `services.filter((s) => s.service_id !== id)`. */
  function WithoutService(ss: seq<Service>, id: string): (r: seq<Service>)
    ensures |r| <= |ss|
    ensures forall s :: s in r <==> s in ss && s.serviceId != id
  {
    if ss == [] then []
    else (if ss[0].serviceId != id then [ss[0]] else []) + WithoutService(ss[1..], id)
  }

  /** `tags.filter((t) => t !== id)`. */
  function WithoutTag(tags: seq<Json>, id: string): (r: seq<Json>)
    ensures |r| <= |tags|
    ensures forall t :: t in r <==> t in tags && t != JString(id)
  {
    if tags == [] then []
    else (if tags[0] != JString(id) then [tags[0]] else []) + WithoutTag(tags[1..], id)
  }

  /** A service's mapping once `deletePrimary(id)` has copied it and deleted `id`. */
  function DropPrimary(mapping: Json, id: string): Json
  {
    JObject(RemoveKey(Entries(mapping), id))
  }

  /** A service's mapping once `deleteSecondary(primaryId, id)` has copied it and,
      when the entry for `primaryId` is an object with a list of tags, replaced
      that entry by a copy whose tags no longer hold `id`. */
  function DropTag(mapping: Json, primaryId: string, id: string): Json
  {
    var fields := Entries(mapping);
    var m := Lookup(fields, primaryId);
    var tags := Get(m, "tags");
    if Truthy(m) && tags.JArray? then
      JObject(SetField(fields, primaryId, JObject(SetField(Entries(m), "tags", JArray(WithoutTag(tags.items, id))))))
    else JObject(fields)
  }

  /** After `deletePrimary(id)`, a service's mapping has no entry for `id` and
      the same entries as before for every other key. */
  lemma DropPrimaryGet(mapping: Json, id: string, key: string)
    ensures Get(DropPrimary(mapping, id), key) == if key == id then JNull else Lookup(Entries(mapping), key)
  {
    LookupRemoveKey(Entries(mapping), id, key);
  }

  /** After `deleteSecondary(primaryId, id)`, a service's mapping has the same
      entries as before for every key other than `primaryId`. */
  lemma DropTagElsewhere(mapping: Json, primaryId: string, id: string, key: string)
    requires key != primaryId
    ensures Get(DropTag(mapping, primaryId, id), key) == Lookup(Entries(mapping), key)
  {
    var fields := Entries(mapping);
    var m := Lookup(fields, primaryId);
    var tags := Get(m, "tags");
    if Truthy(m) && tags.JArray? {
      LookupSetField(fields, primaryId, JObject(SetField(Entries(m), "tags", JArray(WithoutTag(tags.items, id)))), key);
    }
  }

  /** After `deleteSecondary(primaryId, id)`, the entry for `primaryId`, when it
      is an object with a list of tags, keeps its other members and has the same
      tags without `id`; otherwise the mapping is copied unchanged. */
  lemma DropTagAt(mapping: Json, primaryId: string, id: string, member: string)
    ensures var m := Lookup(Entries(mapping), primaryId);
            var tags := Get(m, "tags");
            if Truthy(m) && tags.JArray? then
              Get(Get(DropTag(mapping, primaryId, id), primaryId), member) ==
                (if member == "tags" then JArray(WithoutTag(tags.items, id)) else Lookup(Entries(m), member))
            else DropTag(mapping, primaryId, id) == JObject(Entries(mapping))
  {
    var fields := Entries(mapping);
    var m := Lookup(fields, primaryId);
    var tags := Get(m, "tags");
    if Truthy(m) && tags.JArray? {
      var entry := JObject(SetField(Entries(m), "tags", JArray(WithoutTag(tags.items, id))));
      LookupSetField(fields, primaryId, entry, primaryId);
      LookupSetField(Entries(m), "tags", JArray(WithoutTag(tags.items, id)), member);
    }
  }

  /** Filtering keeps ids unique. */
  lemma {:induction false} WithoutCategoryUnique(cs: seq<Category>, id: string)
    requires UniqueIds(cs)
    ensures UniqueIds(WithoutCategory(cs, id))
  {
    if cs != [] {
      var rest := WithoutCategory(cs[1..], id);
      WithoutCategoryUnique(cs[1..], id);
      forall j | 0 <= j < |rest|
        ensures rest[j].id != cs[0].id
      {
        assert rest[j] in cs[1..];
        var k :| 0 <= k < |cs[1..]| && cs[1..][k] == rest[j];
        assert cs[k + 1] == rest[j];
      }
    }
  }

  /** Appending a category with a fresh id keeps ids unique. */
  lemma AppendCategoryUnique(cs: seq<Category>, c: Category)
    requires UniqueIds(cs) && !HasCategory(cs, c.id)
    ensures UniqueIds(cs + [c])
  {
    var r := cs + [c];
    forall i, j | 0 <= i < j < |r|
      ensures r[i].id != r[j].id
    {
      if j == |cs| {
        assert r[i] == cs[i];
      }
    }
  }

  /** Filtering keeps service ids unique. */
  lemma {:induction false} WithoutServiceUnique(ss: seq<Service>, id: string)
    requires UniqueServiceIds(ss)
    ensures UniqueServiceIds(WithoutService(ss, id))
  {
    if ss != [] {
      var rest := WithoutService(ss[1..], id);
      WithoutServiceUnique(ss[1..], id);
      forall j | 0 <= j < |rest|
        ensures rest[j].serviceId != ss[0].serviceId
      {
        assert rest[j] in ss[1..];
        var k :| 0 <= k < |ss[1..]| && ss[1..][k] == rest[j];
        assert ss[k + 1] == rest[j];
      }
    }
  }

  /** Upserting a service leaves exactly one service with its id, the last one;
      the services before it are the old ones with other ids, in order. */
  lemma UpsertLeavesOne(ss: seq<Service>, svc: Service)
    ensures var r := WithoutService(ss, svc.serviceId) + [svc];
            && r[|r| - 1] == svc
            && (forall i :: 0 <= i < |r| - 1 ==> r[i].serviceId != svc.serviceId && r[i] in ss)
            && (UniqueServiceIds(ss) ==> UniqueServiceIds(r))
  {
    var w := WithoutService(ss, svc.serviceId);
    var r := w + [svc];
    forall i | 0 <= i < |r| - 1
      ensures r[i].serviceId != svc.serviceId && r[i] in ss
    {
      assert r[i] == w[i] && w[i] in w;
    }
    if UniqueServiceIds(ss) {
      WithoutServiceUnique(ss, svc.serviceId);
      forall i, j | 0 <= i < j < |r|
        ensures r[i].serviceId != r[j].serviceId
      {
        if j < |w| {
          assert r[i] == w[i] && r[j] == w[j];
        }
      }
    }
  }

  /** The services once `saveService()` has removed the one being edited under
      another id and replaced any with the saved one's id by the saved one. The
      old entry is removed only when `editing` is a non-empty string: a service
      id is a string, so no other value equals one. */
  function Upsert(ss: seq<Service>, editing: Json, svc: Service): (r: seq<Service>)
    ensures |r| >= 1 && r[|r| - 1] == svc
    ensures forall i :: 0 <= i < |r| - 1 ==> r[i].serviceId != svc.serviceId && r[i] in ss
    ensures forall s :: s in r ==> s in ss || s == svc
    ensures forall i :: 0 <= i < |r| - 1 ==> !(editing.JString? && editing.s != "" && r[i].serviceId == editing.s)
    ensures forall s :: s in ss && s.serviceId != svc.serviceId && !(editing.JString? && editing.s != "" && s.serviceId == editing.s) ==>
      s in r
    ensures UniqueServiceIds(ss) ==> UniqueServiceIds(r)
  {
    var kept := if editing.JString? && editing.s != "" && editing.s != svc.serviceId
                then WithoutService(ss, editing.s) else ss;
    assert UniqueServiceIds(ss) ==> UniqueServiceIds(kept) by {
      if UniqueServiceIds(ss) && editing.JString? {
        WithoutServiceUnique(ss, editing.s);
      }
    }
    UpsertLeavesOne(kept, svc);
    WithoutService(kept, svc.serviceId) + [svc]
  }

  /** The configuration being edited. */
  class Editor {
    var primaries: seq<Category>
    var buckets: map<string, seq<Category>>
    var services: seq<Service>
    /** `state.draft.editingServiceId`: the id of the service the form edits. */
    var editing: Json

    /** Every service mapping is an object (or an array), as the normaliser and
        the actions leave it. */
    ghost predicate Valid()
      reads this
    {
      forall s :: s in services ==> IsObjectLike(s.mapping)
    }

    /** No two primaries, no two secondaries of one primary and no two services
        share an id. */
    ghost predicate IdsUnique()
      reads this
    {
      && UniqueIds(primaries)
      && (forall k :: k in buckets ==> UniqueIds(buckets[k]))
      && UniqueServiceIds(services)
    }

    /** The editor over a normalised configuration. */
    constructor (c: Config)
      requires WellShaped(c)
      ensures Valid()
      ensures primaries == c.primaries && buckets == BucketMap(c.buckets) && services == c.services
      ensures editing == Get(c.draft, "editingServiceId")
    {
      primaries := c.primaries;
      buckets := BucketMap(c.buckets);
      services := c.services;
      editing := Get(c.draft, "editingServiceId");
    }

    /** `addPrimary()` with the form's id, label and order fields. */
    method AddPrimary(rawId: string, rawLabel: string, rawOrder: string) returns (status: Status)
      requires Valid()
      modifies this
      ensures Valid()
      ensures var id, caption := Slugify(rawId), Trim(rawLabel);
              status == if id == "" || caption == "" then MissingFields
                        else if HasCategory(old(primaries), id) then DuplicateId
                        else Done
      ensures status != Done ==> primaries == old(primaries) && buckets == old(buckets)
      ensures status == Done ==>
                var id := Slugify(rawId);
                && primaries == old(primaries) + [Category(id, Trim(rawLabel), ToIntText(rawOrder, 1))]
                && buckets == if id in old(buckets) then old(buckets) else old(buckets)[id := []]
      ensures services == old(services) && editing == old(editing)
      ensures old(IdsUnique()) ==> IdsUnique()
    {
      var id := Slugify(rawId);
      var caption := Trim(rawLabel);
      var order := ToIntText(rawOrder, 1);
      if id == "" || caption == "" {
        return MissingFields;
      }
      if HasCategory(primaries, id) {
        return DuplicateId;
      }
      if UniqueIds(primaries) {
        AppendCategoryUnique(primaries, Category(id, caption, order));
      }
      primaries := primaries + [Category(id, caption, order)];
      if id !in buckets {
        buckets := buckets[id := []];
      }
      return Done;
    }

    /** `deletePrimary(id)`. */
    method DeletePrimary(id: string)
      requires Valid()
      modifies this
      ensures Valid()
      ensures primaries == WithoutCategory(old(primaries), id)
      ensures buckets == old(buckets) - {id}
      ensures |services| == |old(services)|
      ensures forall i :: 0 <= i < |services| ==>
                services[i] == old(services[i]).(mapping := DropPrimary(old(services[i].mapping), id))
      ensures editing == old(editing)
      ensures old(IdsUnique()) ==> IdsUnique()
    {
      if UniqueIds(primaries) {
        WithoutCategoryUnique(primaries, id);
      }
      primaries := WithoutCategory(primaries, id);
      buckets := buckets - {id};
      var ss := services;
      services := seq(|ss|, i requires 0 <= i < |ss| => ss[i].(mapping := DropPrimary(ss[i].mapping, id)));
    }

    /** `addSecondary()` with the selected primary and the form's id, label and
        order fields. */
    method AddSecondary(primaryId: string, rawId: string, rawLabel: string, rawOrder: string) returns (status: Status)
      requires Valid()
      modifies this
      ensures Valid()
      ensures var id, caption := Slugify(rawId), Trim(rawLabel);
              status == if primaryId == "" then NoPrimary
                        else if id == "" || caption == "" then MissingFields
                        else if primaryId in old(buckets) && HasCategory(old(buckets[primaryId]), id) then DuplicateId
                        else Done
      ensures status != Done ==> buckets == old(buckets)
      ensures status == Done ==>
                var bucket := if primaryId in old(buckets) then old(buckets[primaryId]) else [];
                buckets == old(buckets)[primaryId := bucket + [Category(Slugify(rawId), Trim(rawLabel), ToIntText(rawOrder, 1))]]
      ensures primaries == old(primaries) && services == old(services) && editing == old(editing)
      ensures old(IdsUnique()) ==> IdsUnique()
    {
      if primaryId == "" {
        return NoPrimary;
      }
      var id := Slugify(rawId);
      var caption := Trim(rawLabel);
      var order := ToIntText(rawOrder, 1);
      if id == "" || caption == "" {
        return MissingFields;
      }
      var bucket := if primaryId in buckets then buckets[primaryId] else [];
      if HasCategory(bucket, id) {
        return DuplicateId;
      }
      if UniqueIds(bucket) {
        AppendCategoryUnique(bucket, Category(id, caption, order));
      }
      buckets := buckets[primaryId := bucket + [Category(id, caption, order)]];
      return Done;
    }

    /** `deleteSecondary(primaryId, id)`. */
    method DeleteSecondary(primaryId: string, id: string)
      requires Valid()
      modifies this
      ensures Valid()
      ensures var bucket := if primaryId in old(buckets) then old(buckets[primaryId]) else [];
              buckets == old(buckets)[primaryId := WithoutCategory(bucket, id)]
      ensures |services| == |old(services)|
      ensures forall i :: 0 <= i < |services| ==>
                services[i] == old(services[i]).(mapping := DropTag(old(services[i].mapping), primaryId, id))
      ensures primaries == old(primaries) && editing == old(editing)
      ensures old(IdsUnique()) ==> IdsUnique()
    {
      var bucket := if primaryId in buckets then buckets[primaryId] else [];
      if UniqueIds(bucket) {
        WithoutCategoryUnique(bucket, id);
      }
      buckets := buckets[primaryId := WithoutCategory(bucket, id)];
      var ss := services;
      services := seq(|ss|, i requires 0 <= i < |ss| => ss[i].(mapping := DropTag(ss[i].mapping, primaryId, id)));
    }

    /** `saveService()` with the service the form describes. */
    method SaveService(svc: Service) returns (status: Status)
      requires Valid() && IsObjectLike(svc.mapping)
      modifies this
      ensures Valid()
      ensures var id := svc.serviceId;
              status == if id == "" || svc.serviceName == "" then MissingFields
                        else if HasService(old(services), id) && old(editing) != JString(id) then DuplicateId
                        else Done
      ensures status != Done ==> services == old(services) && editing == old(editing)
      ensures status == Done ==> services == Upsert(old(services), old(editing), svc) && editing == JString(svc.serviceId)
      ensures primaries == old(primaries) && buckets == old(buckets)
      ensures old(IdsUnique()) ==> IdsUnique()
    {
      var id := svc.serviceId;
      if id == "" || svc.serviceName == "" {
        return MissingFields;
      }
      if HasService(services, id) && editing != JString(id) {
        return DuplicateId;
      }
      services := Upsert(services, editing, svc);
      editing := JString(id);
      return Done;
    }

    /** `deleteService(id)`. */
    method DeleteService(id: string)
      requires Valid()
      modifies this
      ensures Valid()
      ensures services == WithoutService(old(services), id)
      ensures editing == if old(editing) == JString(id) then JNull else old(editing)
      ensures primaries == old(primaries) && buckets == old(buckets)
      ensures old(IdsUnique()) ==> IdsUnique()
    {
      if UniqueServiceIds(services) {
        WithoutServiceUnique(services, id);
      }
      services := WithoutService(services, id);
      if editing == JString(id) {
        editing := JNull;
      }
    }
  }
}

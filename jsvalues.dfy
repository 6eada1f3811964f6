/**
 * JavaScript values as `JSON.parse` produces them, and the few coercions the
 * configuration code applies to them: truthiness, `typeof … === "object"`,
 * property access, `String(…)`, `Object.entries` and object spread.
 */
module JsValues {
  import opened Text

  /** A parsed JSON value. Numbers are integers; an object keeps its members in
      order. A missing property reads as `JNull`: every use below treats
      `undefined` and `null` alike. */
  datatype Json =
    | JNull
    | JBool(b: bool)
    | JNumber(n: int)
    | JString(s: string)
    | JArray(items: seq<Json>)
    | JObject(fields: seq<(string, Json)>)

  /** JavaScript truthiness. */
  predicate Truthy(v: Json)
  {
    match v
    case JNull => false
    case JBool(b) => b
    case JNumber(n) => n != 0
    case JString(s) => s != ""
    case _ => true
  }

  /** `v && typeof v === "object"`: an object or an array (`null` is excluded by
      the truthiness test). */
  predicate IsObjectLike(v: Json)
  {
    v.JObject? || v.JArray?
  }

  /** The property names an array has as own keys: `"0"`, `"1"`, …. */
  function IndexKey(i: nat): string
  {
    IntToString(i)
  }

  /** The value of the last member named `key`. */
  function Lookup(fields: seq<(string, Json)>, key: string): Json
  {
    if fields == [] then JNull
    else if fields[|fields| - 1].0 == key then fields[|fields| - 1].1
    else Lookup(fields[..|fields| - 1], key)
  }

  /** A key that names an array element: decimal digits without a leading zero. */
  predicate IsIndexText(key: string)
  {
    key != [] && AllDigits(key) && (key == "0" || key[0] != '0')
  }

  /** The element whose index key is `key`. */
  function ElementAt(items: seq<Json>, key: string): Json
  {
    if IsIndexText(key) && DigitsValue(key) < |items| then items[DigitsValue(key)] else JNull
  }

  /** `v[key]` for a value that is not `null`: an object's member, an array's
      element or length, and nothing (`undefined`) on a primitive. */
  function Get(v: Json, key: string): Json
  {
    match v
    case JObject(fields) => Lookup(fields, key)
    case JArray(items) => if key == "length" then JNumber(|items|) else ElementAt(items, key)
    case _ => JNull
  }

  /** `String(v)`. */
  function StringOf(v: Json): string
    decreases v, 0
  {
    match v
    case JNull => "null"
    case JBool(b) => if b then "true" else "false"
    case JNumber(n) => IntToString(n)
    case JString(s) => s
    case JArray(items) => Join(seq(|items|, i requires 0 <= i < |items| => ElementString(items[i])), ',')
    case JObject(_) => "[object Object]"
  }

  /** How `Array.prototype.join` writes one element: `null` as the empty string. */
  function ElementString(v: Json): string
    decreases v, 1
  {
    if v == JNull then "" else StringOf(v)
  }

  /** `String(v ?? "")`. */
  function NullishString(v: Json): string
  {
    if v == JNull then "" else StringOf(v)
  }

  /** `String(v || "")`. */
  function FalsyString(v: Json): string
  {
    if Truthy(v) then StringOf(v) else ""
  }

  /** `toInt(v, fallback)`: `Number(String(v ?? "").trim())`, or the fallback when
      that is not a finite number. */
  function ToIntJson(v: Json, fallback: int): int
  {
    ToIntText(NullishString(v), fallback)
  }

  /** `Object.entries(v)` for an object or an array, and what spreading `v` into
      a fresh object copies. */
  function Entries(v: Json): seq<(string, Json)>
  {
    match v
    case JObject(fields) => fields
    case JArray(items) => seq(|items|, i requires 0 <= i < |items| => (IndexKey(i), items[i]))
    case _ => []
  }

  /** A string reads back as itself. */
  lemma NullishStringOfString(s: string)
    ensures NullishString(JString(s)) == s && FalsyString(JString(s)) == s
  {
  }

  /** `toInt` of a number gives the number back. */
  lemma ToIntOfNumber(n: int, fallback: int)
    ensures ToIntJson(JNumber(n), fallback) == n
  {
    ToIntOfIntToString(n, fallback);
  }

  /** In an object whose member names are distinct, each member is found. */
  lemma {:induction false} LookupUnique(fields: seq<(string, Json)>, i: nat)
    requires i < |fields|
    requires forall a, b :: 0 <= a < b < |fields| ==> fields[a].0 != fields[b].0
    ensures Lookup(fields, fields[i].0) == fields[i].1
  {
    if i < |fields| - 1 {
      LookupUnique(fields[..|fields| - 1], i);
    }
  }

  /** A name that no member has reads as missing. */
  lemma {:induction false} LookupAbsent(fields: seq<(string, Json)>, key: string)
    requires forall i :: 0 <= i < |fields| ==> fields[i].0 != key
    ensures Lookup(fields, key) == JNull
  {
    if fields != [] {
      LookupAbsent(fields[..|fields| - 1], key);
    }
  }

  /** The members of an object after `delete obj[key]`. */
  function RemoveKey(fields: seq<(string, Json)>, key: string): (r: seq<(string, Json)>)
    ensures |r| <= |fields|
  {
    if fields == [] then []
    else
      var last := fields[|fields| - 1];
      RemoveKey(fields[..|fields| - 1], key) + (if last.0 != key then [last] else [])
  }

  predicate HasKey(fields: seq<(string, Json)>, key: string)
  {
    exists i :: 0 <= i < |fields| && fields[i].0 == key
  }

  /** The members with every value under `key` replaced by `v`. */
  function Replace(fields: seq<(string, Json)>, key: string, v: Json): (r: seq<(string, Json)>)
    ensures |r| == |fields|
    ensures forall i :: 0 <= i < |r| ==> r[i] == if fields[i].0 == key then (key, v) else fields[i]
  {
    seq(|fields|, i requires 0 <= i < |fields| => if fields[i].0 == key then (key, v) else fields[i])
  }

  /** The members of an object after `obj[key] = v`: an existing member changes
      its value in place, a new one goes last. */
  function SetField(fields: seq<(string, Json)>, key: string, v: Json): seq<(string, Json)>
  {
    if HasKey(fields, key) then Replace(fields, key, v) else fields + [(key, v)]
  }

  /** `delete obj[key]` removes exactly that key. */
  lemma {:induction false} LookupRemoveKey(fields: seq<(string, Json)>, key: string, other: string)
    ensures Lookup(RemoveKey(fields, key), other) == if other == key then JNull else Lookup(fields, other)
  {
    if fields != [] {
      var n := |fields| - 1;
      var rest := RemoveKey(fields[..n], key);
      LookupRemoveKey(fields[..n], key, other);
      if fields[n].0 != key {
        assert (rest + [fields[n]])[..|rest|] == rest;
      } else {
        assert rest + [] == rest;
      }
    }
  }

  lemma {:induction false} LookupReplace(fields: seq<(string, Json)>, key: string, v: Json, other: string)
    ensures Lookup(Replace(fields, key, v), other) ==
      if other != key then Lookup(fields, other) else if HasKey(fields, key) then v else JNull
  {
    if fields != [] {
      var n := |fields| - 1;
      assert Replace(fields, key, v)[..n] == Replace(fields[..n], key, v);
      LookupReplace(fields[..n], key, v, other);
      if fields[n].0 != key && HasKey(fields, key) {
        var i :| 0 <= i < |fields| && fields[i].0 == key;
        assert fields[..n][i].0 == key;
      }
    }
  }

  /** `obj[key] = v` changes exactly that key. */
  lemma LookupSetField(fields: seq<(string, Json)>, key: string, v: Json, other: string)
    ensures Lookup(SetField(fields, key, v), other) == if other == key then v else Lookup(fields, other)
  {
    if HasKey(fields, key) {
      LookupReplace(fields, key, v, other);
    } else {
      assert (fields + [(key, v)])[..|fields|] == fields;
    }
  }
}

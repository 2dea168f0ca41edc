/**
 * JSON values as the event-bus codecs (Gson) and the configuration readers
 * (Vert.x) hold them. Numbers are integers: no field read here is fractional.
 */
module Json {
  import opened Wrappers
  import opened JavaLang

  datatype Json =
    | JNull
    | JBool(b: bool)
    | JNumber(n: int)
    | JString(s: string)
    | JArray(items: seq<Json>)
    | JObject(fields: map<string, Json>)

  /** JsonObject.get(key): absent keys give Java null. */
  function Get(o: map<string, Json>, key: string): Option<Json>
  {
    if key in o then Some(o[key]) else None
  }

  /**
   * Gson getAsString: the text of a primitive; a one-element array answers
   * for its element; null, objects and other arrays throw.
   */
  function AsString(j: Json): Option<string>
  {
    match j
    case JString(s) => Some(s)
    case JNumber(n) => Some(IntToString(n))
    case JBool(b) => Some(BoolToString(b))
    case JArray(items) => if |items| == 1 then AsString(items[0]) else None
    case _ => None
  }

  /**
   * Gson getAsLong: a number's value; a string is parsed as by Long.parseLong;
   * a one-element array answers for its element; anything else throws.
   */
  function AsLong(j: Json): Option<Int64>
  {
    match j
    case JNumber(n) => if LONG_MIN <= n <= LONG_MAX then Some(n) else None
    case JString(s) =>
      var v := ParseDecimal(s, LONG_MIN, LONG_MAX);
      if v.Some? then Some(v.value as Int64) else None
    case JArray(items) => if |items| == 1 then AsLong(items[0]) else None
    case _ => None
  }

  /** Gson's field read followed by getAsString: a missing field throws as well. */
  function StringField(o: map<string, Json>, key: string): Option<string>
  {
    if key in o then AsString(o[key]) else None
  }

  /** Gson's field read followed by getAsLong. */
  function LongField(o: map<string, Json>, key: string): Option<Int64>
  {
    if key in o then AsLong(o[key]) else None
  }

  /** A string field read back after it was written. */
  lemma StringFieldOfPut(o: map<string, Json>, key: string, s: string)
    ensures StringField(o[key := JString(s)], key) == Some(s)
  {
  }

  /** A long field read back after it was written. */
  lemma LongFieldOfPut(o: map<string, Json>, key: string, n: Int64)
    ensures LongField(o[key := JNumber(n)], key) == Some(n)
  {
  }

  // ---------------------------------------------------------------- Vert.x configuration lookups

  /*
   * The configuration readers go through JsonObjectUtils, which is not part of
   * this model: a lookup on a missing object or a missing key is empty, and a
   * value of the wrong JSON type is empty as well (the helper logs it).
   */

  /** A lookup on an object that may itself be missing. */
  function Lookup(o: Option<map<string, Json>>, key: string): Option<Json>
  {
    if o.Some? && key in o.value then Some(o.value[key]) else None
  }

  /** JsonObjectUtils.getString. */
  function OptString(o: Option<map<string, Json>>, key: string): (r: Option<string>)
    ensures r.Some? <==> Lookup(o, key).Some? && Lookup(o, key).value.JString?
  {
    var v := Lookup(o, key);
    if v.Some? && v.value.JString? then Some(v.value.s) else None
  }

  /** JsonObjectUtils.getBoolean. */
  function OptBool(o: Option<map<string, Json>>, key: string): (r: Option<bool>)
    ensures r.Some? <==> Lookup(o, key).Some? && Lookup(o, key).value.JBool?
  {
    var v := Lookup(o, key);
    if v.Some? && v.value.JBool? then Some(v.value.b) else None
  }

  /** JsonObjectUtils.getJsonArray. */
  function OptArray(o: Option<map<string, Json>>, key: string): (r: Option<seq<Json>>)
    ensures r.Some? <==> Lookup(o, key).Some? && Lookup(o, key).value.JArray?
  {
    var v := Lookup(o, key);
    if v.Some? && v.value.JArray? then Some(v.value.items) else None
  }

  /** JsonObjectUtils.getJsonObject. */
  function OptObject(o: Option<map<string, Json>>, key: string): (r: Option<map<string, Json>>)
    ensures r.Some? <==> Lookup(o, key).Some? && Lookup(o, key).value.JObject?
  {
    var v := Lookup(o, key);
    if v.Some? && v.value.JObject? then Some(v.value.fields) else None
  }

  /**
   * Object::toString of an array element: the text of a string, number or
   * boolean; null throws. Nested arrays and objects are not modelled and are
   * treated as throwing.
   */
  function ElementText(j: Json): Option<string>
  {
    match j
    case JString(s) => Some(s)
    case JNumber(n) => Some(IntToString(n))
    case JBool(b) => Some(BoolToString(b))
    case _ => None
  }

  /** array.stream().map(Object::toString).toList(), or empty when the array is missing; None where toString throws. */
  function StringList(items: Option<seq<Json>>): (r: Option<seq<string>>)
    ensures items.None? ==> r == Some([])
    ensures items.Some? ==> r == MapAll(items.value, ElementText)
  {
    if items.None? then Some([]) else MapAll(items.value, ElementText)
  }

  /** The JSON array of some strings. */
  function Strings(xs: seq<string>): (r: seq<Json>)
    ensures |r| == |xs| && forall i :: 0 <= i < |xs| ==> r[i] == JString(xs[i])
  {
    seq(|xs|, i requires 0 <= i < |xs| => JString(xs[i]))
  }

  /** An array of strings reads back as the same strings, in order. */
  lemma StringListOfStrings(xs: seq<string>)
    ensures StringList(Some(Strings(xs))) == Some(xs)
  {
    var r := MapAll(Strings(xs), ElementText);
    assert forall i :: 0 <= i < |xs| ==> ElementText(Strings(xs)[i]) == Some(xs[i]);
    assert r.value == xs;
  }

  /** The keys present for the optional string fields of a configuration entry. */
  function PutOpt(o: map<string, Json>, key: string, v: Option<string>): (r: map<string, Json>)
    ensures v.Some? ==> r == o[key := JString(v.value)]
    ensures v.None? ==> r == o - {key}
  {
    if v.Some? then o[key := JString(v.value)] else o - {key}
  }

  /** Putting an optional string leaves every other key as it was. */
  lemma PutOptKeeps(o: map<string, Json>, key: string, v: Option<string>, other: string)
    requires other != key
    ensures Lookup(Some(PutOpt(o, key, v)), other) == Lookup(Some(o), other)
  {
  }

  /** The key put reads back as the optional string put. */
  lemma PutOptSets(o: map<string, Json>, key: string, v: Option<string>)
    ensures OptString(Some(PutOpt(o, key, v)), key) == v
  {
  }

  /** new JsonObject().put("error", m).encode(), with string escaping left out. */
  function ErrorJson(m: string): string
  {
    "{\"error\":\"" + m + "\"}"
  }
}

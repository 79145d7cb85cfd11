/**
 * JSON values as `JSON.parse` returns them, and the JavaScript coercions the
 * code applies to them: truthiness, property reads and `String(v)`.
 * Numbers are integers only (see README).
 */
module JsonValue {
  import opened Wrappers
  import opened JsText

  datatype Json =
    | JNull
    | JBool(b: bool)
    | JNumber(n: int)
    | JString(s: string)
    | JArray(items: seq<Json>)
    | JObject(members: map<string, Json>)

  /** JavaScript truthiness: `null`, `false`, `0` and `""` are falsy, every array and object is truthy. */
  predicate Truthy(v: Json) {
    match v
    case JNull => false
    case JBool(b) => b
    case JNumber(n) => n != 0
    case JString(s) => s != ""
    case JArray(_) => true
    case JObject(_) => true
  }

  /** `v.key`; `None` stands for `undefined`. */
  function Get(v: Json, key: string): Option<Json> {
    if v.JObject? && key in v.members then Some(v.members[key]) else None
  }

  /** Truthiness of a property read, `undefined` being falsy. */
  predicate IsTruthy(v: Option<Json>) {
    v.Some? && Truthy(v.value)
  }

  /** `v[0]`: the first element of an array, or the member named "0" of an object. */
  function First(v: Json): Option<Json> {
    match v
    case JArray(items) => if |items| > 0 then Some(items[0]) else None
    case JObject(m) => if "0" in m then Some(m["0"]) else None
    case _ => None
  }

  /** `String(v)`; array elements that are `null` become empty, as `join` does. */
  function ToJsString(v: Json): string
    decreases v
  {
    match v
    case JNull => "null"
    case JBool(b) => if b then "true" else "false"
    case JNumber(n) => IntToString(n)
    case JString(s) => s
    case JArray(items) =>
      Join(seq(|items|, i requires 0 <= i < |items| => if items[i].JNull? then "" else ToJsString(items[i])), ",")
    case JObject(_) => "[object Object]"
  }

  /** What `JSON.stringify` writes for a number and the reader gets back: NaN becomes `null`. */
  function NumberJson(x: JsNumber): Json {
    match x
    case Num(n) => JNumber(n)
    case NaN => JNull
  }

  /** The value `parseInt` gives for a JSON value: `parseInt(String(v))`. */
  function ParseIntOf(v: Json): JsNumber {
    ParseInt(ToJsString(v))
  }

  /** An integer read back through `parseInt` keeps its value; a non-numeric string gives NaN. */
  lemma ParseIntOfNumber(n: int)
    ensures ParseIntOf(JNumber(n)) == Num(n)
  {
    ParseIntOfIntToString(n);
  }
}

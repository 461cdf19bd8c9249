/** Decoded JSON values and the JavaScript operations the control-service
    client applies to them: property access (plain and optional), truth
    tests and conversion to a string. */
module Json {
  import opened Wrappers
  import opened Text

  /** What `JSON.parse` yields. Numbers are integers in this model. */
  datatype Json =
    | JNull
    | JBool(b: bool)
    | JNumber(n: int)
    | JString(s: string)
    | JArray(items: seq<Json>)
    | JObject(fields: map<string, Json>)

  /** A JavaScript value met along the way: a decoded value, or undefined (`None`). */
  type JsValue = Option<Json>

  /** JavaScript truthiness of a decoded value or undefined. */
  predicate Truthy(v: JsValue) {
    match v
    case None => false
    case Some(JNull) => false
    case Some(JBool(b)) => b
    case Some(JNumber(n)) => n != 0
    case Some(JString(s)) => s != ""
    case Some(JArray(_)) => true
    case Some(JObject(_)) => true
  }

  /** The array index a property key names: decimal digits without a leading zero. */
  function IndexKey(key: string): (r: Option<nat>)
    ensures r.Some? ==> IntToString(r.value) == key
  {
    if key != [] && (forall i :: 0 <= i < |key| ==> '0' <= key[i] <= '9') && (key[0] != '0' || |key| == 1)
       && IntToString(ParseNat(key, 10)) == key
    then Some(ParseNat(key, 10)) else None
  }

  /** `v[key]` on a value that is not null: an object's own field, an array's
      element or length; anything else reads as undefined. */
  function Get(v: Json, key: string): JsValue {
    match v
    case JObject(m) => if key in m then Some(m[key]) else None
    case JArray(items) =>
      if key == "length" then Some(JNumber(|items|))
      else if IndexKey(key).Some? && IndexKey(key).value < |items| then Some(items[IndexKey(key).value])
      else None
    case _ => None
  }

  /** The message V8 gives the TypeError of reading a property of null. */
  function NullReadError(key: string): string {
    "TypeError: Cannot read properties of null (reading '" + key + "')"
  }

  /** `v.key` on a decoded value: throws on null. */
  function Prop(v: Json, key: string): (r: Result<JsValue, string>)
    ensures r.Failure? <==> v == JNull
  {
    if v == JNull then Failure(NullReadError(key)) else Success(Get(v, key))
  }

  /** `v?.[key]`: undefined on null or undefined, otherwise `v[key]`. */
  function OptGet(v: JsValue, key: string): (r: JsValue)
    ensures v.None? || v == Some(JNull) ==> r.None?
  {
    match v
    case None => None
    case Some(JNull) => None
    case Some(x) => Get(x, key)
  }

  /** `String(v)`: text as is, numbers in decimal, arrays as their elements'
      strings joined by commas (null as empty), objects as "[object Object]". */
  function JsToString(v: Json): string
    decreases v
  {
    match v
    case JNull => "null"
    case JBool(b) => if b then "true" else "false"
    case JNumber(n) => IntToString(n)
    case JString(s) => s
    case JArray(items) =>
      Join(seq(|items|, i requires 0 <= i < |items| => if items[i] == JNull then "" else JsToString(items[i])), ",")
    case JObject(_) => "[object Object]"
  }

  lemma ArrayIndexing(items: seq<Json>)
    requires |items| > 0
    ensures Get(JArray(items), "0") == Some(items[0])
  {
    assert IntToString(0) == "0";
    assert ParseNat("0", 10) == 0;
  }
}

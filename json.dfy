/**
  * The JavaScript values the command line handles: the options object it
  * builds, `package.json` and the YAML configuration once loaded. Only what
  * the program inspects is kept; numbers are integers.
  */
module Json {
  import opened Base

  datatype Json =
    | JNull
    | JBool(b: bool)
    | JNumber(n: int)
    | JString(s: string)
    | JArray(items: seq<Json>)
    | JObject(fields: map<string, Json>)
  {
    /** `typeof value === "object"`: arrays, objects, and `null` too. */
    predicate IsObjectType() {
      JNull? || JArray? || JObject?
    }
  }

  /** JavaScript truthiness: `null`, `false`, `0` and `""` are falsy, every array and object is truthy. */
  predicate Truthy(value: Json) {
    match value
    case JNull => false
    case JBool(b) => b
    case JNumber(n) => n != 0
    case JString(s) => s != ""
    case _ => true
  }

  /** `value[key]` for an object; nothing for any other value or a missing key. */
  function Property(value: Json, key: string): (r: Option<Json>)
    ensures r.Some? <==> value.JObject? && key in value.fields
    ensures r.Some? ==> r.value == value.fields[key]
  {
    if value.JObject? && key in value.fields then Some(value.fields[key]) else None
  }

  /** `typeof value[key] === "string"`, and then the string. */
  function StringProperty(value: Json, key: string): (r: Option<string>)
    ensures r.Some? <==> Property(value, key).Some? && Property(value, key).value.JString?
    ensures r.Some? ==> Property(value, key) == Some(JString(r.value))
  {
    match Property(value, key)
    case Some(JString(s)) => Some(s)
    case _ => None
  }

  /** The empty object `{}`. */
  const EmptyObject: Json := JObject(map[])

  /** A list of strings as a JavaScript array of strings. */
  function Strings(values: seq<string>): (r: Json)
    ensures r.JArray? && |r.items| == |values|
    ensures forall i :: 0 <= i < |values| ==> r.items[i] == JString(values[i])
  {
    JArray(seq(|values|, i requires 0 <= i < |values| => JString(values[i])))
  }
}

/** JSON values as the client and the server exchange them. `JSON.parse` and
    `JSON.stringify` are foreign: a `Codec` carries them as function values, and the
    lemmas that need a round trip say so in their hypotheses. */
module Json {
  import opened Wrappers
  import JsStrings

  datatype Json =
    | JNull
    | JBool(b: bool)
    | JNumber(n: int)
    | JString(s: string)
    | JArray(elems: seq<Json>)
    | JObject(fields: map<string, Json>)

  /** JavaScript truthiness of a parsed value: `null`, `false`, `0` and `""` are falsy. */
  predicate Truthy(j: Json) {
    match j
    case JNull => false
    case JBool(b) => b
    case JNumber(n) => n != 0
    case JString(s) => s != ""
    case _ => true
  }

  /** `String(v)` of a parsed value, the conversion `new Error(v)` applies to its
      message: an array joins its elements' strings with commas, a `null` element
      giving the empty string, and an object gives `[object Object]`. */
  function ToJsString(j: Json): string
    decreases j, 0
  {
    match j
    case JNull => "null"
    case JBool(b) => if b then "true" else "false"
    case JNumber(n) => JsStrings.IntToString(n)
    case JString(s) => s
    case JArray(elems) =>
      if |elems| == 0 then ""
      else JsStrings.Join(seq(|elems|, i requires 0 <= i < |elems| => ElementString(elems[i])), ',')
    case JObject(_) => "[object Object]"
  }

  /** An array element as `Array.prototype.join` writes it. */
  function ElementString(j: Json): string
    decreases j, 1
  {
    if j.JNull? then "" else ToJsString(j)
  }

  /** `JSON.parse` (`None` when it throws) and `JSON.stringify`. */
  datatype Codec = Codec(parse: string -> Option<Json>, stringify: Json -> string)

  /** The codec reads back what it wrote for the value `v`. */
  predicate RoundTrips(c: Codec, v: Json) {
    c.parse(c.stringify(v)) == Some(v)
  }
}

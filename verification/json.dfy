/** The decoded shape of a JSON value, as Go's `encoding/json` produces it when
    decoding into `interface{}`: `nil`, `float64`, `string`, `bool`,
    `[]interface{}` or `map[string]interface{}`. */
module Json {
  import opened Outcome

  datatype Json =
    | JNull
    | JNumber(n: real)
    | JString(s: string)
    | JBool(b: bool)
    | JArray(items: seq<Json>)
    | JObject(fields: map<string, Json>)

  /** A decoded JSON object, the target of `json.Unmarshal` into a
      `map[string]interface{}`. */
  type JsonObject = map<string, Json>

  /** `json.Marshal`, left uninterpreted: any total function from values to text. */
  type Encoder = Json -> string

  /** `json.Unmarshal` into an object, left uninterpreted: `None` is a decoding error. */
  type Parser = string -> Option<JsonObject>

  /** The checked type assertion `j.(string)`. */
  function StringOf(j: Json): (r: Option<string>)
    ensures r.Some? <==> j.JString?
    ensures r.Some? ==> j == JString(r.value)
  {
    if j.JString? then Some(j.s) else None
  }

  /** The checked type assertion `j.(float64)`. */
  function NumberOf(j: Json): (r: Option<real>)
    ensures r.Some? <==> j.JNumber?
    ensures r.Some? ==> j == JNumber(r.value)
  {
    if j.JNumber? then Some(j.n) else None
  }

  /** The checked type assertion `j.(bool)`. */
  function BoolOf(j: Json): (r: Option<bool>)
    ensures r.Some? <==> j.JBool?
    ensures r.Some? ==> j == JBool(r.value)
  {
    if j.JBool? then Some(j.b) else None
  }

  /** The checked type assertion `j.(map[string]interface{})`, encoded to text. */
  function ObjectTextOf(encode: Encoder): (sel: Json -> Option<string>)
    ensures forall j: Json :: sel(j).Some? <==> j.JObject?
    ensures forall j: Json :: j.JObject? ==> sel(j) == Some(encode(j))
  {
    (j: Json) => if j.JObject? then Some(encode(j)) else None
  }

  /** Every element, encoded on its own; it never fails. */
  function EncodeEach(encode: Encoder): (sel: Json -> Option<string>)
    ensures forall j: Json :: sel(j) == Some(encode(j))
  {
    (j: Json) => Some(encode(j))
  }

  /** An array whose every element is a string, read as a list of strings. */
  function StringListOf(j: Json): (r: Option<seq<string>>)
    ensures r.Some? <==> j.JArray? && forall i :: 0 <= i < |j.items| ==> j.items[i].JString?
    ensures r.Some? ==> |r.value| == |j.items|
    ensures r.Some? ==> forall i :: 0 <= i < |j.items| ==> j.items[i] == JString(r.value[i])
  {
    if j.JArray? && forall i :: 0 <= i < |j.items| ==> j.items[i].JString?
    then Some(seq(|j.items|, i requires 0 <= i < |j.items| => j.items[i].s))
    else None
  }
}

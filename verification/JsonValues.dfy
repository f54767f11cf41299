/** JSON values as Python holds them after decoding. */
module JsonValues {

  datatype Json =
    | JNull
    | JBool(b: bool)
    | JInt(n: int)
    | JFloat(r: real)
    | JString(s: string)
    | JArray(elems: seq<Json>)
    | JObject(fields: map<string, Json>)

  predicate IsNumber(v: Json) { v.JInt? || v.JFloat? }

  function NumberOf(v: Json): real
    requires IsNumber(v)
  {
    if v.JInt? then v.n as real else v.r
  }
}

/** A JSON value as `JSON.parse` (behind `req.json()`) hands it to the endpoint. */
module JsonValue {

  /**
   * Objects are maps from key to value: once parsed, a repeated key keeps
   * its last value and key order plays no part in validation. Numbers are
   * kept as reals; nothing in the model inspects them.
   */
  datatype Json =
    | JNull
    | JBool(b: bool)
    | JNumber(n: real)
    | JString(str: string)
    | JArray(items: seq<Json>)
    | JObject(fields: map<string, Json>)

  /** The JSON array of the given strings, in order. */
  function StringArray(ss: seq<string>): (r: seq<Json>)
    ensures |r| == |ss| && forall i :: 0 <= i < |ss| ==> r[i] == JString(ss[i])
  {
    if ss == [] then [] else [JString(ss[0])] + StringArray(ss[1..])
  }
}

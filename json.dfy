/** Parsed JSON values, simplified: numbers are integers only, and an
  * object is a map from member names to values, so the member order that
  * `JSON.parse` keeps and `JSON.stringify` writes out is not represented. */
module Json {

  datatype Json =
    | JNull
    | JBool(b: bool)
    | JNumber(n: int)
    | JString(s: string)
    | JArray(items: seq<Json>)
    | JObject(fields: map<string, Json>)
}

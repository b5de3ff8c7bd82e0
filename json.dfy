/** A parsed JSON document, as json.load hands it to the upload code. */
module JsonValues {

  /** Numbers are kept as integers; nothing in the modelled code looks at them. */
  datatype Json =
    | JNull
    | JBool(b: bool)
    | JNumber(n: int)
    | JString(str: string)
    | JArray(items: seq<Json>)
    | JObject(fields: map<string, Json>)
}

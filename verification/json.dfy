/** A parsed JSON document, as the game's catalog file yields it after
    `json.load`: the values a dictionary entry of the catalog may hold. */
module JsonData {

  datatype Json =
    | JNull
    | JBool(b: bool)
    | JInt(i: int)
    | JReal(r: real)
    | JStr(s: string)
    | JArr(items: seq<Json>)
    | JObj(fields: map<string, Json>)

  /** An empty JSON object, `{}`. */
  const EmptyObject: Json := JObj(map[])
}

/** Values shared by the browser client and the PHP endpoints. */
module Values {

  datatype Option<+T> = None | Some(value: T)

  /**
   * A decoded JSON value: what JSON.parse yields in the browser and what
   * json_decode($text, true) yields in PHP. Numbers are integers here.
   */
  datatype Json =
    | JNull
    | JBool(b: bool)
    | JInt(i: int)
    | JStr(s: string)
    | JList(items: seq<Json>)
    | JObject(fields: map<string, Json>)
}

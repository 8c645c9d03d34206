/** Parsed JSON values, as the relay receives them in a request body and
    forwards them from the analysis engine. */
module JsonValue {

  datatype Json =
    | JNull
    | JBool(b: bool)
    | JNum(n: real)
    | JStr(s: string)
    | JArr(items: seq<Json>)
    | JObj(fields: seq<(string, Json)>)

  /** JavaScript truthiness of a parsed value: `null`, `false`, `0` and `""`
      are falsy, every array and object is truthy. */
  predicate IsFalsy(j: Json) {
    j == JNull || j == JBool(false) || j == JNum(0.0) || j == JStr("")
  }
}

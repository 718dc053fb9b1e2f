/** A decoded JSON document, as `encoding/json` produces it when it unmarshals
    into `any`: objects become maps, arrays become sequences. */
module JsonValue {

  datatype Json =
    | JNull
    | JBool(b: bool)
    | JNum(n: int)
    | JStr(s: string)
    | JArr(items: seq<Json>)
    | JObj(fields: map<string, Json>)
}

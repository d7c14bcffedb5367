/** JSON values. Object keys have no order: canonical hashing sorts them. */
module Json {
  datatype Json =
    | JNull
    | JBool(flag: bool)
    | JInt(number: int)
    | JStr(text: string)
    | JArr(items: seq<Json>)
    | JObj(fields: map<string, Json>)
}

// JSON values as the SDK sees them after parsing: objects are finite maps, numbers are integers.
module JsonValues {
  datatype Json =
    | JNull
    | JBool(b: bool)
    | JInt(n: int)
    | JStr(s: string)
    | JArr(items: seq<Json>)
    | JObj(members: map<string, Json>)
}

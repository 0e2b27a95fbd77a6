/** The parsed JSON values that the protocol code inspects and edits. Keys are unique. */
module Json {
  import opened ChatTypes

  datatype Json =
    | Null
    | Bool(b: bool)
    | Num(n: int)
    | Str(s: Text)
    | Arr(items: seq<Json>)
    | Obj(fields: map<string, Json>)

  type Fields = map<string, Json>

  function Get(o: Fields, key: string): Option<Json> {
    if key in o then Some(o[key]) else None
  }
}

/** The JSON documents the service decodes, stores and passes around. */
module JsonValue {
  // A decoded JSON document. Object members are a map: the service never relies on member order.
  datatype Json =
    | Null
    | Bool(b: bool)
    | Num(n: real)
    | Str(s: string)
    | Arr(items: seq<Json>)
    | Obj(fields: map<string, Json>)
}

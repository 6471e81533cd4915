/** JSON documents as the Python host sees them. An object is a `dict`: only its
    key/value pairs matter, never their order, so it is a map. */
module Json {
  datatype Json =
    | Null
    | Bool(b: bool)
    | Num(n: real)
    | Str(s: string)
    | Arr(items: seq<Json>)
    | Obj(fields: map<string, Json>)

  /** The host's convention for a tool result that reports a failure. */
  predicate IsError(value: Json) {
    value.Obj? && "error" in value.fields
  }
}

/** Untyped JSON values, as they reach the tool handler (`args: unknown`) and
    as they leave the outbound client (`JSON.stringify`). Numbers are modelled
    as integers. */
module Json {

  datatype Value =
    | Null
    | Bool(b: bool)
    | Num(n: int)
    | Str(s: string)
    | Arr(items: seq<Value>)
    | Obj(fields: map<string, Value>)

  /** A one-field object such as `{ error: "..." }`. */
  function Single(key: string, v: Value): (r: Value)
    ensures r.Obj? && r.fields.Keys == {key} && r.fields[key] == v
  {
    Obj(map[key := v])
  }
}

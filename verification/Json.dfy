/** JSON values and the small datatypes every component shares. */
module Json {

  datatype Option<+T> = None | Some(value: T)

  /** A JSON document.  Objects are maps: the order of their members is not part of the value. */
  datatype Json =
    | Null
    | Bool(b: bool)
    | Num(n: int)
    | Str(s: string)
    | Arr(items: seq<Json>)
    | Obj(fields: map<string, Json>)
}

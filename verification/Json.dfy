/** Decoded JSON values (Go's `any` after encoding/json). */
module Json {
  datatype Json =
    | Null
    | Bool(flag: bool)
    | Num(n: real)
    | Str(s: string)
    | Arr(items: seq<Json>)
    | Obj(fields: map<string, Json>)
}

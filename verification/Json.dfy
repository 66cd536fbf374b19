/** A decoded JSON document. Numbers keep the text they were written with, as
    `json.Number` does. */
module Json {
  datatype Value =
    | Null
    | Bool(b: bool)
    | Number(text: string)
    | Str(s: string)
    | Arr(items: seq<Value>)
    | Obj(fields: map<string, Value>)
}

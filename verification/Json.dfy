/** JSON values; a Python dict is a map, so two dicts are equal regardless of key order. */
module Json {
  datatype Json =
    Null | Bool(truth: bool) | Num(number: int) | Str(text: string) | Arr(items: seq<Json>) | Obj(fields: Dict)

  type Dict = map<string, Json>
}

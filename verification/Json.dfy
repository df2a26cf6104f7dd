/** JSON documents as JsonCpp holds them, without floating-point numbers. */
module Json {

  datatype Json =
    | Null
    | Bool(flag: bool)
    | Int(number: int)
    | Str(text: string)
    | Arr(items: seq<Json>)
    | Obj(members: map<string, Json>)
}

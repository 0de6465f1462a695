/**
 * The untyped value a request body parses to. Objects are finite maps from
 * key to value; a key that is missing from the map is an absent (undefined)
 * property. Numbers are the finite numbers a JSON text can denote.
 */
module JsonValues {

  datatype Json =
    | Null
    | Bool(b: bool)
    | Num(n: real)
    | Str(s: string)
    | Arr(items: seq<Json>)
    | Obj(fields: map<string, Json>)
}

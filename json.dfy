/**
 * JavaScript values as produced by `JSON.parse`: the values that flow through the
 * request body, the response envelope and the store.
 */
module JsonValues {

  /** A JSON value. `Num` carries the number's canonical JavaScript text (what `String(n)` gives);
      `Obj` lists the object's own properties in `Object.keys` order. */
  datatype Json =
    | Null
    | Bool(b: bool)
    | Num(repr: string)
    | Str(s: string)
    | Arr(items: seq<Json>)
    | Obj(entries: seq<(string, Json)>)

  /** `typeof v === 'object'` for a value that is not `null`: arrays and plain objects. */
  predicate IsObject(v: Json) {
    v.Arr? || v.Obj?
  }

  /** `typeof v === 'object'`, which also holds of `null`. */
  predicate TypeofObject(v: Json) {
    v.Null? || v.Arr? || v.Obj?
  }

  /** JavaScript truthiness: `null`, `false`, `0`, `-0` and `''` are falsy, everything else
      (including empty arrays and objects) is truthy. */
  predicate Truthy(v: Json) {
    match v
    case Null => false
    case Bool(b) => b
    case Num(r) => r != "0"
    case Str(s) => s != ""
    case Arr(_) => true
    case Obj(_) => true
  }

  /** `String(v)` for a value that is not an array or object. */
  function PrimitiveText(v: Json): string
    requires !IsObject(v)
  {
    match v
    case Null => "null"
    case Bool(b) => if b then "true" else "false"
    case Num(r) => r
    case Str(s) => s
  }
}

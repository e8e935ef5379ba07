/**
 * JavaScript values as far as the model needs them: the truthiness test the
 * registry applies to `staticData`, and records (plain objects) as ordered maps.
 */
module Values {
  import opened OrderedMaps

  /**
   * A JavaScript value. A number is an exact real or NaN: the rounding of
   * doubles, the infinities and negative zero are not represented.
   */
  datatype Value =
    | Undefined
    | Null
    | Bool(b: bool)
    | Num(n: real)
    | NaN
    | Str(s: string)
    | Arr(items: seq<Value>)
    | Obj(fields: seq<(string, Value)>)

  /** JavaScript truthiness: `false`, `0`, `NaN`, `""`, `null` and `undefined` are falsy. */
  predicate Truthy(v: Value) {
    match v
    case Undefined => false
    case Null => false
    case Bool(b) => b
    case Num(n) => n != 0.0
    case NaN => false
    case Str(s) => s != ""
    case Arr(_) => true
    case Obj(_) => true
  }

  /** A plain object whose own keys are enumerated in insertion order. */
  type Record = o: OMap<string, Value> | o.Valid() witness OMap([], map[])
}

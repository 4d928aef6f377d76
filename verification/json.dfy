/** JSON values as the catalog scripts and the gateway see them. */
module Json {
  import opened Wrappers

  // Float stands for a finite number written with a fraction or exponent; NonFinite for the
  // NaN and Infinity literals that the Python reader also accepts.
  datatype Json =
    | Null
    | Bool(b: bool)
    | Int(n: int)
    | Float(x: real)
    | NonFinite
    | Str(s: string)
    | List(items: seq<Json>)
    | Obj(fields: map<string, Json>)

  type Row = map<string, Json>

  function Get(fields: Row, key: string): Option<Json> {
    if key in fields then Some(fields[key]) else None
  }

  // The value as a finite number, if it is one; booleans are not numbers here.
  function Number(j: Json): Option<real> {
    match j
    case Int(n) => Some(n as real)
    case Float(x) => Some(x)
    case _ => None
  }
}

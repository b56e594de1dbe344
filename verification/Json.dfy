/** JSON-shaped values, as the caches hold them. */
module Json {
  datatype Json =
    | Null
    | Bool(b: bool)
    | Int(n: int)
    | Float(x: real)
    | Str(s: string)
    | List(items: seq<Json>)
    | Obj(fields: map<string, Json>)
  {
    /** `dict.get`: a missing key reads as null. */
    function Get(key: string): Json {
      if Obj? && key in fields then fields[key] else Null
    }

    /** What Python counts as true. */
    predicate Truthy() {
      match this
      case Null => false
      case Bool(b) => b
      case Int(n) => n != 0
      case Float(x) => x != 0.0
      case Str(s) => s != ""
      case List(items) => items != []
      case Obj(fields) => fields != map[]
    }
  }
}

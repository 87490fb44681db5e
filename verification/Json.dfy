/** JSON values as the endpoint receives them from `request.json()`, with the
    few JavaScript and zod notions the lead pipeline applies to them. */
module Json {

  datatype Option<+T> = None | Some(value: T)

  /** A parsed JSON document. Numbers are modelled as integers. */
  datatype Value =
    | Null
    | Bool(b: bool)
    | Num(n: int)
    | Str(s: string)
    | Arr(items: seq<Value>)
    | Obj(members: map<string, Value>)

  /** Reading a property of an object: `undefined` (None) when it is absent. */
  function Get(m: map<string, Value>, key: string): Option<Value>
  {
    if key in m then Some(m[key]) else None
  }

  /** JavaScript truthiness of a JSON value. */
  predicate Truthy(v: Value)
  {
    match v
    case Null => false
    case Bool(b) => b
    case Num(n) => n != 0
    case Str(s) => s != ""
    case Arr(_) => true
    case Obj(_) => true
  }

  /** The name zod gives the type of a value it received. */
  function TypeName(v: Value): string
  {
    match v
    case Null => "null"
    case Bool(_) => "boolean"
    case Num(_) => "number"
    case Str(_) => "string"
    case Arr(_) => "array"
    case Obj(_) => "object"
  }
}

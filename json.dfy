/** The JSON values a request body decodes to, seen as the Python objects the
    core inspects: None, bool, int, str, list and dict (floats are not modelled). */
module Json {

  datatype Value =
    | Null
    | Bool(b: bool)
    | Int(i: int)
    | Str(s: string)
    | List(items: seq<Value>)
    | Obj(fields: map<string, Value>)

  /** Python truthiness: None, False, 0, "", [] and {} are false, everything else true. */
  predicate Truthy(v: Value)
  {
    match v
    case Null => false
    case Bool(b) => b
    case Int(i) => i != 0
    case Str(s) => s != ""
    case List(items) => items != []
    case Obj(fields) => fields != map[]
  }

  /** isinstance(v, int): a bool is an int in Python. */
  predicate IsInt(v: Value)
  {
    v.Int? || v.Bool?
  }

  /** The integer a Python int or bool stands for (True == 1, False == 0). */
  function IntOf(v: Value): int
    requires IsInt(v)
  {
    if v.Int? then v.i else if v.b then 1 else 0
  }

  /** dict.get(key): the stored value, or None when the key is absent. */
  function Get(m: map<string, Value>, key: string): (v: Value)
    ensures key !in m ==> v == Null
  {
    if key in m then m[key] else Null
  }
}

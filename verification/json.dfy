/** JSON values as Python holds them after `json.loads` (dict, list, str,
    number, bool, None), with Python's truthiness. Dictionaries are unordered
    maps: nothing in the modelled code depends on key order. */
module Json {

  datatype Value =
    | Null
    | Bool(b: bool)
    | Num(n: real)
    | Str(s: string)
    | Arr(items: seq<Value>)
    | Obj(fields: map<string, Value>)

  type Dict = map<string, Value>

  /** `bool(v)` in Python. */
  predicate Truthy(v: Value) {
    match v
    case Null => false
    case Bool(b) => b
    case Num(n) => n != 0.0
    case Str(s) => |s| > 0
    case Arr(items) => |items| > 0
    case Obj(fields) => |fields| > 0
  }

  /** `d.get(key)`: the value, or `None` when the key is absent. */
  function Get(d: Dict, key: string): (r: Value)
    ensures key !in d ==> r == Null
    ensures key in d ==> r == d[key]
  {
    if key in d then d[key] else Null
  }
}

/** The values that cross the HTTP boundary: what Python's `json`/Django REST
    framework produce and what JavaScript sees after parsing. Objects keep
    their keys in insertion order, as both languages do. */
module Json {

  datatype Value =
    | Undefined                      // JavaScript `undefined`: an absent property
    | Null
    | Bool(b: bool)
    | Num(n: int)
    | Str(s: string)
    | Arr(items: seq<Value>)
    | Obj(entries: seq<(string, Value)>)

  /** The keys of an object, in order. */
  function Keys(entries: seq<(string, Value)>): (r: seq<string>)
    ensures |r| == |entries|
    ensures forall i :: 0 <= i < |entries| ==> r[i] == entries[i].0
  {
    if |entries| == 0 then [] else [entries[0].0] + Keys(entries[1..])
  }

  /** Property access `v.key` on a parsed object; `undefined` when the key
      is absent or `v` is not an object. A later duplicate key wins, as in
      `JSON.parse`. */
  function Get(v: Value, key: string): Value
  {
    if !v.Obj? then Undefined else Lookup(v.entries, key)
  }

  function Lookup(entries: seq<(string, Value)>, key: string): Value
  {
    if |entries| == 0 then Undefined
    else if entries[|entries| - 1].0 == key then entries[|entries| - 1].1
    else Lookup(entries[..|entries| - 1], key)
  }

  /** JavaScript truthiness. */
  predicate JsTruthy(v: Value)
  {
    match v
    case Undefined => false
    case Null => false
    case Bool(b) => b
    case Num(n) => n != 0
    case Str(s) => s != ""
    case Arr(_) => true
    case Obj(_) => true
  }

  /** Python truthiness of the value `json.loads` produced. */
  predicate PyTruthy(v: Value)
  {
    match v
    case Undefined => false
    case Null => false
    case Bool(b) => b
    case Num(n) => n != 0
    case Str(s) => s != ""
    case Arr(a) => |a| > 0
    case Obj(e) => |e| > 0
  }
}

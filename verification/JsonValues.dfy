/** JSON values as json.loads returns them, and the Python operations applied to them. */
module JsonValues {
  import opened Options

  datatype Value =
    | Null
    | Bool(b: bool)
    | Number(r: real)
    | Text(s: string)
    | List(items: seq<Value>)
    | Dict(entries: map<string, Value>)

  predicate Truthy(v: Value) {
    match v
    case Null => false
    case Bool(b) => b
    case Number(r) => r != 0.0
    case Text(s) => s != ""
    case List(items) => items != []
    case Dict(entries) => entries != map[]
  }

  /** Whether `v in d` is defined for a dictionary `d`. */
  predicate Hashable(v: Value) {
    !v.List? && !v.Dict?
  }

  predicate Sliceable(v: Value) {
    v.Text? || v.List?
  }

  /** `v.get(key, default)` */
  function Get(v: Value, key: string, default: Value): Value
    requires v.Dict?
  {
    if key in v.entries then v.entries[key] else default
  }

  function Take<T>(xs: seq<T>, n: nat): (r: seq<T>)
    ensures |r| <= n && r <= xs && (|r| == |xs| || |r| == n)
  {
    if |xs| > n then xs[..n] else xs
  }

  /** `v[:n]` */
  function Slice(v: Value, n: nat): Value
    requires Sliceable(v)
  {
    match v
    case Text(s) => Text(Take(s, n))
    case List(items) => List(Take(items, n))
  }

  /** What a loop over `v` visits: the items, or the characters. */
  function Elements(v: Value): (vs: seq<Value>)
    requires Sliceable(v)
  {
    match v
    case Text(s) => seq(|s|, i requires 0 <= i < |s| => Text([s[i]]))
    case List(items) => items
  }
}

/**
 * Decoded token claims and access-policy entries share one shape: a tree of
 * string-keyed objects whose leaves are strings, integers or booleans.
 */
module ClaimTree {
  import opened Wrappers

  datatype Value =
    | Str(s: string)
    | Int(i: int)
    | Bool(b: bool)
    | Obj(fields: map<string, Value>)

  /** The top level of a token payload, and of one access-policy entry. */
  type Claims = map<string, Value>

  /** The value reached from `v` by following `path` one key at a time, if every key is there. */
  function Lookup(v: Value, path: seq<string>): (r: Option<Value>)
    ensures path == [] ==> r == Some(v)
    ensures r.Some? && path != [] ==> v.Obj? && path[0] in v.fields
    decreases |path|
  {
    if path == [] then Some(v)
    else if v.Obj? && path[0] in v.fields then Lookup(v.fields[path[0]], path[1..])
    else None
  }
}

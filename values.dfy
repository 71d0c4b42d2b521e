/** JSON-like values as the Python code sees them: scalars, lists and string-keyed dicts.

    A Python dict is a `map<string, Value>` here. Two dicts are equal in Python when they hold
    the same keys and values, whatever their insertion order, which is exactly map equality.
    Where the source iterates a dict and the order is observable, the modules that need it use
    an ordered association list instead.
 */
module Values {

  datatype Option<+T> = None | Some(value: T)

  datatype Result<+T, +E> = Ok(value: T) | Err(error: E)

  /** A Python runtime error that the modelled code can raise. */
  datatype PyError =
    | KeyError(key: string)     // `d[key]` on a dict without that key
    | TypeError                 // arithmetic or subscripting on a value of the wrong kind
    | ZeroDivisionError         // `x / 0`

  datatype Value =
    | Null
    | Bool(b: bool)
    | Num(n: real)
    | Str(s: string)
    | List(items: seq<Value>)
    | Dict(fields: map<string, Value>)

  type Fields = map<string, Value>

  /** Python truthiness: None, False, 0, "", [] and {} are false, everything else is true. */
  predicate Truthy(v: Value)
  {
    match v
    case Null => false
    case Bool(b) => b
    case Num(n) => n != 0.0
    case Str(s) => s != ""
    case List(items) => items != []
    case Dict(fields) => fields != map[]
  }

  /** `d.get(key)` followed by a truthiness test, as in `if d.get(key): ...`. */
  predicate TruthyAt(d: Fields, key: string)
  {
    key in d && Truthy(d[key])
  }

  /** The value reached from `d` by following a non-empty path of keys, descending only through
      dicts: `d[p0][p1]...[pn]`, or None where Python would raise a KeyError or TypeError. */
  function Lookup(d: Fields, path: seq<string>): (r: Option<Value>)
    requires path != []
    decreases |path|
  {
    if path[0] !in d then None
    else if |path| == 1 then Some(d[path[0]])
    else if d[path[0]].Dict? then Lookup(d[path[0]].fields, path[1..])
    else None
  }

  /** True when a patch `changes` leaves the place named by `path` alone: no prefix of the path is
      a key that `changes` assigns, except through nested dicts that stop short of the path. */
  predicate Untouched(changes: Fields, path: seq<string>)
    requires path != []
    decreases |path|
  {
    path[0] !in changes
    || (|path| > 1 && changes[path[0]].Dict? && Untouched(changes[path[0]].fields, path[1..]))
  }

  /** `v[key]` with a string key: a KeyError on a dict without the key, a TypeError on anything
      that is not a dict (a list or a string cannot be indexed by a string). */
  function Subscript(v: Value, key: string): (r: Result<Value, PyError>)
    ensures r.Ok? <==> v.Dict? && key in v.fields
    ensures r.Ok? ==> r.value == v.fields[key]
    ensures v.Dict? && key !in v.fields ==> r == Err(KeyError(key))
    ensures !v.Dict? ==> r == Err(TypeError)
  {
    if !v.Dict? then Err(TypeError)
    else if key !in v.fields then Err(KeyError(key))
    else Ok(v.fields[key])
  }

  /** The number a value stands for in Python arithmetic and comparisons (a bool is 0 or 1). */
  function AsNumber(v: Value): Option<real>
  {
    match v
    case Num(n) => Some(n)
    case Bool(b) => Some(if b then 1.0 else 0.0)
    case _ => None
  }

  /** `key` occurs in `s` as a contiguous run of characters. */
  predicate IsSubstring(key: string, s: string)
    decreases |s|
  {
    key <= s || (s != [] && IsSubstring(key, s[1..]))
  }

  /** `key in v` for a string key: a key test on a dict, an element test on a list, a substring
      test on a string, and a TypeError on anything else, which is not iterable. */
  function Contains(v: Value, key: string): (r: Result<bool, PyError>)
    ensures r.Err? <==> v.Null? || v.Bool? || v.Num?
    ensures v.Dict? ==> r == Ok(key in v.fields)
    ensures v.List? ==> r == Ok(Str(key) in v.items)
  {
    match v
    case Dict(fields) => Ok(key in fields)
    case List(items) => Ok(Str(key) in items)
    case Str(s) => Ok(IsSubstring(key, s))
    case _ => Err(TypeError)
  }
}

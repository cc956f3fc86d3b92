/** A JSON value as Python's `json` module hands it over after decoding.
    Numbers are integers only; floating-point numbers are not modelled. */
module Json {
  import opened Wrappers
  import opened Strings

  datatype Json =
    | Null
    | Bool(b: bool)
    | Num(n: int)
    | Str(s: string)
    | Arr(items: seq<Json>)
    | Obj(fields: map<string, Json>)

  /** Python truthiness of the decoded value (`if value:`). */
  predicate Truthy(j: Json) {
    match j
    case Null => false
    case Bool(b) => b
    case Num(n) => n != 0
    case Str(s) => s != ""
    case Arr(xs) => xs != []
    case Obj(m) => m != map[]
  }

  /** A JSON array of strings, as `json.dumps(list_of_str)` produces. */
  function StrArray(xs: seq<string>): (j: Json)
    ensures j.Arr? && |j.items| == |xs|
    ensures forall i :: 0 <= i < |xs| ==> j.items[i] == Str(xs[i])
  {
    if xs == [] then Arr([]) else Arr(StrArray(xs[..|xs| - 1]).items + [Str(xs[|xs| - 1])])
  }

  /** Python's `key in j` for a string key: a key test on an object, an element test on a
      list, a substring test on a string; anything else raises `TypeError`. */
  function KeyIn(key: string, j: Json): (r: Result<bool>)
    ensures j.Obj? ==> r == Ok(key in j.fields)
    ensures r.Err? <==> j.Null? || j.Bool? || j.Num?
  {
    match j
    case Obj(m) => Ok(key in m)
    case Arr(items) => Ok(Str(key) in items)
    case Str(s) => Ok(Contains(s, key))
    case _ => Err("TypeError")
  }
}

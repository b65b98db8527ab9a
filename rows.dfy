/**
 * Scalar values and result rows as the graph driver hands them to the agents:
 * a row is a Python dict, kept here as its ordered list of (key, value) pairs.
 */
module Rows {
  import opened Wrappers
  import opened Text

  /**
   * A property or column value: `None`, a string, an integer, or any other
   * value a query can return (a list from `collect`, a boolean, a float, a
   * map), which the agents only test for truthiness and render with
   * `str()`, so it is kept as that text and that truthiness.
   */
  datatype Value = Null | Str(s: string) | Int(i: int) | Other(text: string, truthy: bool)

  /** Python truthiness: `None`, `""` and `0` are false; any other value says for itself. */
  predicate Truthy(v: Value) {
    match v
    case Null => false
    case Str(s) => s != ""
    case Int(i) => i != 0
    case Other(_, truthy) => truthy
  }

  /** `str(v)`, as an f-string renders it. */
  function Render(v: Value): string {
    match v
    case Null => "None"
    case Str(s) => s
    case Int(i) => IntToString(i)
    case Other(text, _) => text
  }

  /** A dict in insertion order. */
  type Row = seq<(string, Value)>

  predicate HasKey(r: Row, k: string) {
    exists i :: 0 <= i < |r| && r[i].0 == k
  }

  /** `r.get(k)` with the key's presence kept apart from a `None` value. */
  function Lookup(r: Row, k: string): (o: Option<Value>)
    ensures o.Some? <==> HasKey(r, k)
    ensures o.Some? ==> exists i :: 0 <= i < |r| && r[i] == (k, o.value)
  {
    if |r| == 0 then None
    else if r[0].0 == k then Some(r[0].1)
    else Lookup(r[1..], k)
  }

  /** `r.get(k, d)`: the default is used only when the key is absent. */
  function GetOr(r: Row, k: string, d: Value): (v: Value)
    ensures HasKey(r, k) ==> Lookup(r, k) == Some(v)
    ensures !HasKey(r, k) ==> v == d
  {
    match Lookup(r, k)
    case Some(v) => v
    case None => d
  }

  /** `r.get(k)`: `None` for an absent key. */
  function Get(r: Row, k: string): Value {
    GetOr(r, k, Null)
  }
}

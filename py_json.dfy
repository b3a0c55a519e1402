/**
 * The JSON records the pipeline passes around: a ruling, a chunk, a metadata entry.
 * A record is a Python `dict` from field names to JSON values.
 */
module PyJson {
  import opened PyText

  /** A JSON scalar as `json.loads` gives it back (integers only; see README). */
  datatype Value = Null | Bool(b: bool) | Num(n: int) | Str(s: string)

  type Record = map<string, Value>

  /** `record.get(key)`: the value, or `None` when the key is absent. */
  function Get(r: Record, key: string): (v: Value)
    ensures key !in r ==> v == Null
    ensures key in r ==> v == r[key]
  {
    if key in r then r[key] else Null
  }

  /** `record.get(key, default)`. */
  function GetOr(r: Record, key: string, default: Value): (v: Value)
    ensures key !in r ==> v == default
    ensures key in r ==> v == r[key]
  {
    if key in r then r[key] else default
  }

  /** Python truthiness of a JSON scalar: `None`, `False`, `0` and `""` are false. */
  predicate Truthy(v: Value) {
    match v
    case Null => false
    case Bool(b) => b
    case Num(n) => n != 0
    case Str(s) => s != ""
  }

  /** `str(v)`, which is also what an f-string substitutes for `{v}`. */
  function Display(v: Value): string {
    match v
    case Null => "None"
    case Bool(b) => if b then "True" else "False"
    case Num(n) => IntToString(n)
    case Str(s) => s
  }
}

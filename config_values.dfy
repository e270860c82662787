/** JavaScript values as they appear in a dashboard card configuration, and the
    few JavaScript operations the card editors apply to them: property reads,
    truthiness, `||`, the copy-then-set-or-delete update and `splice(i, 1)`. */
module ConfigValues {

  datatype Option<+T> = None | Some(value: T)

  /** What the editors' JavaScript throws. `StructError` is superstruct's
      validation failure, `TypeError` a property read on `undefined`. */
  datatype JsError = StructError | TypeError | Error(message: string)

  /** How a handler call ended: normally, or by throwing before it changed anything. */
  datatype Outcome = Completed | Threw(error: JsError)

  datatype Result<+T> = Ok(value: T) | Err(error: JsError)

  /** A JavaScript value of a configuration. `Undefined` is what reading an
      absent property gives, and what a property explicitly set to `undefined`
      holds. Objects and arrays are compared structurally. */
  datatype Value =
    | Undefined
    | Str(s: string)
    | Bool(b: bool)
    | Obj(fields: map<string, Value>)
    | Arr(items: seq<Value>)

  /** A configuration object: a string-keyed record. */
  type Config = map<string, Value>

  /** `c[k]`: the property's value, or `undefined` when the key is absent. */
  function Get(c: Config, k: string): Value
  {
    if k in c then c[k] else Undefined
  }

  /** JavaScript truthiness of a value. */
  predicate Truthy(v: Value)
  {
    match v
    case Undefined => false
    case Str(s) => s != ""
    case Bool(b) => b
    case Obj(_) => true
    case Arr(_) => true
  }

  /** `a || b`: the first operand when it is truthy, the second otherwise. */
  function Or(a: Value, b: Value): (r: Value)
    ensures Truthy(r) <==> Truthy(a) || Truthy(b)
    ensures r == a || r == b
    ensures Truthy(a) ==> r == a
    ensures !Truthy(a) ==> r == b
  {
    if Truthy(a) then a else b
  }

  /** Both records hold key `k` with the same value, or neither holds it. */
  predicate AgreeOn(c: Config, d: Config, k: string)
  {
    (k in c <==> k in d) && (k in c ==> c[k] == d[k])
  }

  /** superstruct's `optional(p)`: the key is absent, holds `undefined`, or holds a value `p` accepts. */
  predicate OptionalField(c: Config, k: string, p: Value -> bool)
  {
    k !in c || c[k] == Undefined || p(c[k])
  }

  /** The editors' field update on a fresh copy of the configuration: the empty
      string deletes the key, any other value is stored under it. */
  function SetOrDelete(c: Config, k: string, v: Value): (r: Config)
    ensures v == Str("") ==> k !in r
    ensures v != Str("") ==> k in r && r[k] == v
    ensures forall k' :: k' != k ==> AgreeOn(r, c, k')
  {
    if v == Str("") then c - {k} else c[k := v]
  }

  /** `rows.splice(i, 1)` on a copy, for an index inside the list: the entry at
      `i` is removed and every later entry moves down by one. */
  function RemoveAt<T>(rows: seq<T>, i: nat): (r: seq<T>)
    requires i < |rows|
    ensures |r| == |rows| - 1
    ensures forall j :: 0 <= j < i ==> r[j] == rows[j]
    ensures forall j :: i <= j < |r| ==> r[j] == rows[j + 1]
    ensures multiset(r) + multiset{rows[i]} == multiset(rows)
  {
    assert rows == rows[..i] + [rows[i]] + rows[i + 1..];
    rows[..i] + rows[i + 1..]
  }
}

/** JSON-like values as Python's `json` module produces them, and the few
    Python operations the profile code applies to them. */
module JsonValue {
  import opened Wrappers
  import opened Text

  /** A decoded JSON value. `JBool` is kept apart from `JInt`: Python's
      `bool` is a subclass of `int`, and the validator's checks treat the
      two differently. */
  datatype Json =
    | JNull
    | JBool(b: bool)
    | JInt(i: int)
    | JReal(r: real)
    | JStr(s: string)
    | JArr(items: seq<Json>)
    | JObj(fields: map<string, Json>)

  /** The outcome of Python's `key in container` for a string key. */
  datatype Membership = Absent | Present | NotIterable

  /** `key in container`: key lookup on a dict, substring search on a str,
      element search on a list; any other value raises `TypeError`. */
  function Has(container: Json, key: string): (m: Membership)
    ensures container.JObj? ==> m != NotIterable && (m == Present <==> key in container.fields)
    ensures m == NotIterable <==> !(container.JObj? || container.JStr? || container.JArr?)
  {
    match container
    case JObj(fs) => if key in fs then Present else Absent
    case JStr(s) => if Contains(s, key) then Present else Absent
    case JArr(xs) => if JStr(key) in xs then Present else Absent
    case _ => NotIterable
  }

  /** `container[key]` for a string key: only a dict holding the key answers;
      every other case raises (`KeyError` or `TypeError`). */
  function Index(container: Json, key: string): (r: Option<Json>)
    ensures r.Some? <==> container.JObj? && key in container.fields
    ensures r.Some? ==> r.value == container.fields[key]
  {
    if container.JObj? && key in container.fields then Some(container.fields[key]) else None
  }

  /** `dict.get(key, default)`. */
  function Get(fields: map<string, Json>, key: string, default: Json): (r: Json)
    ensures key in fields ==> r == fields[key]
    ensures key !in fields ==> r == default
  {
    if key in fields then fields[key] else default
  }

  /** `isinstance(v, (int, float)) and not isinstance(v, bool)`. */
  predicate IsNumber(v: Json) {
    v.JInt? || v.JReal?
  }

  /** The numeric value of an `int` or `float`. */
  function Num(v: Json): real
    requires IsNumber(v)
  {
    if v.JInt? then v.i as real else v.r
  }

  /** Python truthiness. */
  predicate Truthy(v: Json) {
    match v
    case JNull => false
    case JBool(b) => b
    case JInt(i) => i != 0
    case JReal(r) => r != 0.0
    case JStr(s) => s != ""
    case JArr(xs) => xs != []
    case JObj(fs) => fs != map[]
  }
}

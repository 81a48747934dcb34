/** JSON values as Python's json module hands them to the scripts, together
    with the few Python operations the scripts apply to them.  An operation
    that raises (TypeError, KeyError, AttributeError) yields None. */
module Json {
  import opened Wrappers

  datatype Json =
    | JNull
    | JBool(b: bool)
    | JNum(n: real)
    | JStr(s: string)
    | JArray(items: seq<Json>)
    | JObject(fields: map<string, Json>)

  /** What json.load finds in a file: no file, text that is not JSON
      (json.JSONDecodeError), or a decoded value. */
  datatype JsonFile = NoFile | Malformed | Holds(value: Json)

  /** Python's bool(): null, false, zero and empty containers are falsy. */
  predicate Truthy(j: Json) {
    match j
    case JNull => false
    case JBool(b) => b
    case JNum(n) => n != 0.0
    case JStr(s) => s != ""
    case JArray(items) => items != []
    case JObject(fields) => fields != map[]
  }

  predicate OccursAt(part: string, whole: string, i: int) {
    0 <= i <= |whole| - |part| && whole[i..i + |part|] == part
  }

  predicate IsSubstring(part: string, whole: string) {
    exists i | 0 <= i <= |whole| :: OccursAt(part, whole, i)
  }

  /** Python's `key in container` for a string key: a key of a dict, an
      element of a list, a substring of a string; None where Python raises
      TypeError (numbers, booleans, None). */
  function Contains(container: Json, key: string): (r: Option<bool>)
    ensures container.JObject? ==> r == Some(key in container.fields)
    ensures r.None? <==> !(container.JObject? || container.JArray? || container.JStr?)
  {
    match container
    case JObject(fields) => Some(key in fields)
    case JArray(items) => Some(JStr(key) in items)
    case JStr(s) => Some(IsSubstring(key, s))
    case _ => None
  }

  /** Python's `container[key]` for a string key: only a dict holding the key
      answers; every other case raises (KeyError or TypeError). */
  function Subscript(container: Json, key: string): (r: Option<Json>)
    ensures r.Some? <==> container.JObject? && key in container.fields
    ensures r.Some? ==> r.value == container.fields[key]
  {
    if container.JObject? && key in container.fields then Some(container.fields[key]) else None
  }

  /** Python's `dict.get(key)`: None (here JNull) for a missing key. */
  function Get(fields: map<string, Json>, key: string): Json {
    if key in fields then fields[key] else JNull
  }

  /** The number a value stands for in a Python comparison with a float:
      numbers, and booleans as 0 and 1 (bool is a subclass of int).
      Comparing a float with anything else raises TypeError. */
  function AsNumber(j: Json): Option<real> {
    match j
    case JNum(n) => Some(n)
    case JBool(b) => Some(if b then 1.0 else 0.0)
    case _ => None
  }
}

/**
  * JSON values as `json.load` returns them, with the two Python behaviours the
  * pipeline relies on: truthiness and `str()` of a scalar.
  */
module Json {
  import opened Text

  /**
    * A parsed JSON document. Numbers are integers here: the templates use
    * numbers only as crop coordinates, which are handed to the page unchanged.
    */
  datatype Json =
    | JNull
    | JBool(b: bool)
    | JNum(n: int)
    | JStr(s: string)
    | JArr(items: seq<Json>)
    | JObj(fields: map<string, Json>)

  /** Python's `bool(v)`: `None`, `False`, `0`, `""`, `[]` and `{}` are false. */
  predicate Truthy(v: Json) {
    match v
    case JNull => false
    case JBool(b) => b
    case JNum(n) => n != 0
    case JStr(s) => s != []
    case JArr(items) => items != []
    case JObj(fields) => fields != map[]
  }

  /** `d.get(key, default)` on a dictionary. */
  function Get(fields: map<string, Json>, key: string, default: Json): (r: Json)
    ensures key in fields ==> r == fields[key]
    ensures key !in fields ==> r == default
  {
    if key in fields then fields[key] else default
  }

  /** Lists and dictionaries cannot be dictionary keys or set members in Python. */
  predicate Hashable(v: Json) {
    !v.JArr? && !v.JObj?
  }

  /** Python's `TypeError` text for using an unhashable value as a key. */
  function UnhashableMessage(v: Json): string
    requires !Hashable(v)
  {
    if v.JArr? then "unhashable type: 'list'" else "unhashable type: 'dict'"
  }

  function IntToString(n: int): (r: string)
    ensures r != []
    ensures n >= 0 ==> AllDigits(r) && DigitsValue(r) == n
  {
    NatToStringRoundTrip(if n >= 0 then n else -n);
    if n >= 0 then NatToString(n) else "-" + NatToString(-n)
  }

  /** `str(v)` for a scalar: the text of a string, Python's spelling of the rest. */
  function ScalarText(v: Json): (r: string)
    requires Hashable(v)
    ensures v.JStr? ==> r == v.s
  {
    match v
    case JNull => "None"
    case JBool(b) => if b then "True" else "False"
    case JNum(n) => IntToString(n)
    case JStr(s) => s
  }
}

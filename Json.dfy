/**
 * The values Python's `json.loads` produces, as the reply resolver sees
 * them: `None`, `bool`, `int`, `float`, `str`, `list` and `dict`.
 */
module Json {
  import opened Wrappers

  datatype Json =
    | JNull
    | JBool(b: bool)
    | JInt(i: int)
    | JFloat(f: real)
    | JStr(s: string)
    | JArr(items: seq<Json>)
    | JObj(fields: map<string, Json>)

  /** Name of the Python type of the value, as it appears in an `AttributeError` message. */
  function TypeName(j: Json): (name: string)
    ensures name == "dict" <==> j.JObj?
  {
    match j
    case JNull => "NoneType"
    case JBool(_) => "bool"
    case JInt(_) => "int"
    case JFloat(_) => "float"
    case JStr(_) => "str"
    case JArr(_) => "list"
    case JObj(_) => "dict"
  }

  /** Python's `d.get(key, default)` on a JSON object. */
  function Get(fields: map<string, Json>, key: string, default: Json): (v: Json)
    ensures key in fields ==> v == fields[key]
    ensures key !in fields ==> v == default
  {
    if key in fields then fields[key] else default
  }

  /**
   * `isinstance(v, int)` together with the integer `v` stands for; a
   * Python `bool` is an `int` (`True == 1`, `False == 0`).
   */
  function AsPyInt(v: Json): (r: Option<int>)
    ensures r.Some? <==> (v.JInt? || v.JBool?)
    ensures v.JInt? ==> r == Some(v.i)
    ensures v.JBool? ==> r == Some(if v.b then 1 else 0)
  {
    match v
    case JInt(i) => Some(i)
    case JBool(b) => Some(if b then 1 else 0)
    case _ => None
  }
}

/**
 * The values the Python back end passes around: decoded JSON, with objects
 * as dictionaries from keys to values (backend/app.py,
 * backend/ai_effects_generator.py).
 */
module PyJson {
  datatype Json =
    | JNull
    | JBool(b: bool)
    | JNum(n: int)
    | JStr(s: string)
    | JArr(items: seq<Json>)
    | JObj(fields: map<string, Json>)

  type Dict = map<string, Json>

  /** `d.get(k, default)`. */
  function Get(d: Dict, k: string, default: Json): (r: Json)
    ensures k in d ==> r == d[k]
    ensures k !in d ==> r == default
  {
    if k in d then d[k] else default
  }

  /** Python truthiness: `None`, `False`, `0`, `''`, `[]` and `{}` are false. */
  predicate Truthy(j: Json)
  {
    match j
    case JNull => false
    case JBool(b) => b
    case JNum(n) => n != 0
    case JStr(s) => s != ""
    case JArr(items) => items != []
    case JObj(fields) => fields != map[]
  }

  /** The string a value holds, or `default` for any other kind of value. */
  function StrOr(j: Json, default: string): string
  {
    if j.JStr? then j.s else default
  }
}

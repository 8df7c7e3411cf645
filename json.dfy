/** JSON documents as the planner and the memory see them after `json.loads`:
    plans, steps and execution results are Python dicts of such values. */
module Json {

  /** A JSON value. Numbers are integers only (floats are not modelled). */
  datatype Value =
    | Null
    | Bool(b: bool)
    | Num(n: int)
    | Str(s: string)
    | Arr(items: seq<Value>)
    | Obj(fields: map<string, Value>)

  /** A Python dict decoded from a JSON object. */
  type Dict = map<string, Value>

  /** Python truthiness of a decoded value. */
  predicate Truthy(v: Value) {
    match v
    case Null => false
    case Bool(b) => b
    case Num(n) => n != 0
    case Str(s) => s != ""
    case Arr(xs) => |xs| > 0
    case Obj(m) => |m| > 0
  }

  /** `d.get(key, default)`. */
  function Get(d: Dict, key: string, default: Value): Value {
    if key in d then d[key] else default
  }

  /** Whether one step result reports success: `r.get("success")` and
      `r.get("success", False)` agree on truthiness, so a result without a
      "success" key is a failure. */
  predicate Succeeded(r: Dict) {
    "success" in r && Truthy(r["success"])
  }
}

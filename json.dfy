/** Decoded JSON values, as the ingestion scripts see them after `response.json()`. */
module Json {

  /** A decoded JSON value: Python's None, bool, int, float, str, list and dict. */
  datatype Json =
    | JNull
    | JBool(b: bool)
    | JInt(i: int)
    | JReal(r: real)
    | JStr(s: string)
    | JList(items: seq<Json>)
    | JObj(fields: map<string, Json>)

  /** A JSON object, the shape of every API record the scripts read. */
  type Object = map<string, Json>

  /** Python truthiness of a decoded value (`if value:`). */
  predicate Truthy(v: Json) {
    match v
    case JNull => false
    case JBool(b) => b
    case JInt(i) => i != 0
    case JReal(r) => r != 0.0
    case JStr(s) => s != ""
    case JList(xs) => xs != []
    case JObj(m) => m != map[]
  }

  /** Python's `value == True`: besides `True` itself, `1` and `1.0` compare equal to it. */
  predicate EqualsTrue(v: Json) {
    v == JBool(true) || v == JInt(1) || v == JReal(1.0)
  }

  /** Python's `value == n` for an integer `n`: an equal int or float, or a bool whose
      integer value is `n`. */
  predicate EqualsInt(v: Json, n: int) {
    v == JInt(n) || v == JReal(n as real) || (v.JBool? && n == (if v.b then 1 else 0))
  }

  /** `d.get(key, default)` on a dict. */
  function Get(d: Object, key: string, default: Json): Json {
    if key in d then d[key] else default
  }

  /** A value equal to `True` is truthy; the converse fails, for instance on `2`. */
  lemma EqualsTrueIsTruthy(v: Json)
    ensures EqualsTrue(v) ==> Truthy(v)
    ensures Truthy(JInt(2)) && !EqualsTrue(JInt(2))
  {
  }

  /** `get` after setting a key sees the new value at that key and the old state elsewhere. */
  lemma GetAfterUpdate(d: Object, k: string, v: Json, key: string, default: Json)
    ensures Get(d[k := v], key, default) == if key == k then v else Get(d, key, default)
  {
  }
}

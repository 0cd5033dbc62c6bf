/** JSON-like values as the store holds them, Python's truthiness on them, and
    the rule that turns a record's "id" field into a dictionary key. */
module JsonValue {

  /** A JSON value. Numbers are integers only. */
  datatype Json =
    | JNull
    | JBool(b: bool)
    | JInt(n: int)
    | JStr(s: string)
    | JArray(items: seq<Json>)
    | JObject(fields: map<string, Json>)

  /** A record: a JSON object, field name to value. */
  type Record = map<string, Json>

  /** Python's truthiness: `None`, `False`, `0`, `""`, `[]` and `{}` are false,
      everything else is true. */
  predicate Truthy(j: Json) {
    match j
    case JNull => false
    case JBool(b) => b
    case JInt(n) => n != 0
    case JStr(s) => |s| > 0
    case JArray(items) => |items| > 0
    case JObject(fields) => |fields| > 0
  }

  /** A dictionary key up to Python's key equality. `True == 1` and they hash
      alike, so a `true` id and a `1` id are the same key `KInt(1)`. */
  datatype Key = KInt(n: int) | KStr(s: string)

  /** True iff the JSON value `j`, used as a dictionary key, is the key `k`. */
  predicate Denotes(j: Json, k: Key) {
    match k
    case KInt(n) => j == JInt(n) || (n == 1 && j == JBool(true))
    case KStr(s) => j == JStr(s)
  }

  /** How a record's id fares in `save`: absent or falsy (a `ValueError`),
      truthy but a list or dict (a `TypeError` when used as a key), or a key. */
  datatype IdStatus = Missing | Unhashable | Found(key: Key)

  /** The outcome of `value.get("id", None)`, its truthiness test, and its use
      as a dictionary key. */
  function IdOf(v: Record): (r: IdStatus)
    ensures r.Missing? <==> "id" !in v || !Truthy(v["id"])
    ensures r.Unhashable? <==> "id" in v && Truthy(v["id"]) && (v["id"].JArray? || v["id"].JObject?)
    ensures r.Found? ==> "id" in v && Truthy(v["id"]) && Denotes(v["id"], r.key)
  {
    if "id" !in v || !Truthy(v["id"]) then Missing
    else match v["id"]
      case JBool(_) => Found(KInt(1))
      case JInt(n) => Found(KInt(n))
      case JStr(s) => Found(KStr(s))
      case JNull => Missing
      case JArray(_) => Unhashable
      case JObject(_) => Unhashable
  }

  /** A JSON value whose use as an id gives back key `k`, when one exists. */
  function KeyToJson(k: Key): Json {
    match k
    case KInt(n) => JInt(n)
    case KStr(s) => JStr(s)
  }

  /** Every truthy key is what a record carrying it as its id is stored under,
      and `KInt(0)` and `KStr("")` are refused as ids. */
  lemma IdOfKeyToJson(k: Key, v: Record)
    requires "id" in v && v["id"] == KeyToJson(k)
    ensures IdOf(v) == (if k == KInt(0) || k == KStr("") then Missing else Found(k))
  {
  }
}

/**
  JSON values as `json.loads` produces them, and the few Python operations
  the core applies to them (`len`, `d.get(k, default)`, `x[i]`, `x[k]`).
  An operation that would raise in Python gives `None`.
*/
module Json {
  import opened Wrappers

  datatype Json =
    | JNull
    | JBool(b: bool)
    | JNum(n: int)
    | JStr(s: string)
    | JArr(items: seq<Json>)
    | JObj(fields: map<string, Json>)

  /** `len(x)`: defined on lists, dicts and strings; a `TypeError` otherwise. */
  function Len(j: Json): (r: Option<nat>)
    ensures r.Some? <==> (j.JArr? || j.JObj? || j.JStr?)
  {
    match j
    case JArr(items) => Some(|items|)
    case JObj(fields) => Some(|fields|)
    case JStr(s) => Some(|s|)
    case _ => None
  }

  /** `x.get(key, default)`: only dicts have `get`. */
  function Get(j: Json, key: string, default: Json): (r: Option<Json>)
    ensures j.JObj? <==> r.Some?
    ensures j.JObj? && key !in j.fields ==> r == Some(default)
  {
    match j
    case JObj(fields) => Some(if key in fields then fields[key] else default)
    case _ => None
  }

  /**
    Python's position for index `k` into a sequence of length `n`: a negative
    index counts from the end; out of range is an `IndexError`.
  */
  function Position(k: int, n: nat): (r: Option<nat>)
    ensures r.Some? <==> -(n as int) <= k < n
    ensures r.Some? ==> r.value < n && (r.value == k || r.value == n + k)
  {
    if 0 <= k < n then Some(k) else if -(n as int) <= k < 0 then Some(n + k) else None
  }

  /**
    `x[k]` for an integer `k`: lists and strings are indexed (a string gives a
    one-character string); a dict has no integer keys once decoded from JSON,
    so it raises `KeyError`; other values raise `TypeError`.
  */
  function Index(j: Json, k: int): (r: Option<Json>)
    ensures r.Some? ==> j.JArr? || j.JStr?
    ensures j.JArr? && 0 <= k < |j.items| ==> r == Some(j.items[k])
  {
    match j
    case JArr(items) =>
      var p := Position(k, |items|);
      if p.Some? then Some(items[p.value]) else None
    case JStr(s) =>
      var p := Position(k, |s|);
      if p.Some? then Some(JStr([s[p.value]])) else None
    case _ => None
  }

  /** `x[key]` for a string key: only a dict holding the key answers. */
  function Field(j: Json, key: string): (r: Option<Json>)
    ensures r.Some? <==> j.JObj? && key in j.fields
  {
    if j.JObj? && key in j.fields then Some(j.fields[key]) else None
  }

  /**
    A character `json.loads` accepts at the start of its input: JSON
    whitespace, or the first character of a value (Python's decoder also
    reads `NaN` and `Infinity`). A text starting with any other character
    raises `JSONDecodeError`.
  */
  predicate CanBeginJson(c: char) {
    || c == ' ' || c == '\t' || c == '\n' || c == '\r'
    || c == '{' || c == '[' || c == '"' || c == '-' || ('0' <= c <= '9')
    || c == 't' || c == 'f' || c == 'n' || c == 'N' || c == 'I'
  }
}

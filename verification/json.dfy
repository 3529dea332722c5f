/** Parsed JSON values as Python's `json` and JavaScript's `JSON.parse` hand
    them over, with Python's lookup, assignment and truthiness, JavaScript's
    truthiness and `String()`, and Python's `json.dumps(v, ensure_ascii=False)`.
    Numbers are integers; objects are field lists in insertion order (a parsed
    object has distinct keys, so the first field with a key is the only one). */
module Json {
  import opened Common
  import opened Text

  datatype Json =
    | JNull
    | JBool(b: bool)
    | JNum(n: int)
    | JStr(s: string)
    | JArr(items: seq<Json>)
    | JObj(fields: seq<(string, Json)>)

  /** `d.get(key)` on a dict, `o[key]` on an object (None: missing/undefined). */
  function Get(fields: seq<(string, Json)>, key: string): (r: Option<Json>)
    ensures r.Some? ==> exists i :: 0 <= i < |fields| && fields[i] == (key, r.value)
    ensures r.None? <==> forall i :: 0 <= i < |fields| ==> fields[i].0 != key
  {
    if fields == [] then None
    else if fields[0].0 == key then Some(fields[0].1)
    else Get(fields[1..], key)
  }

  /** Property access on any value: only an object has properties. */
  function Member(j: Json, key: string): Option<Json> {
    if j.JObj? then Get(j.fields, key) else None
  }

  /** `d[key] = v`: an existing key keeps its position, a new key goes last. */
  function Put(fields: seq<(string, Json)>, key: string, v: Json): (r: seq<(string, Json)>)
    ensures Get(r, key) == Some(v)
    ensures forall k :: k != key ==> Get(r, k) == Get(fields, k)
  {
    if fields == [] then [(key, v)]
    else if fields[0].0 == key then [(key, v)] + fields[1..]
    else [fields[0]] + Put(fields[1..], key, v)
  }

  /** Python's `bool(v)`: None, False, 0, "", [] and {} are falsy. */
  predicate PyTruthy(j: Json) {
    match j
    case JNull => false
    case JBool(b) => b
    case JNum(n) => n != 0
    case JStr(s) => s != ""
    case JArr(items) => items != []
    case JObj(fields) => fields != []
  }

  /** JavaScript truthiness of a property that may be undefined (None):
      unlike Python, every array and object is truthy. */
  predicate JsTruthy(v: Option<Json>) {
    match v
    case None => false
    case Some(j) =>
      match j
      case JNull => false
      case JBool(b) => b
      case JNum(n) => n != 0
      case JStr(s) => s != ""
      case JArr(_) => true
      case JObj(_) => true
  }

  /** `a || b` on two possibly undefined properties. */
  function JsOr(a: Option<Json>, b: Option<Json>): (r: Option<Json>)
    ensures JsTruthy(a) ==> r == a
    ensures !JsTruthy(a) ==> r == b
  {
    if JsTruthy(a) then a else b
  }

  function JoinWith(sep: string, parts: seq<string>): string {
    if parts == [] then ""
    else if |parts| == 1 then parts[0]
    else parts[0] + sep + JoinWith(sep, parts[1..])
  }

  /** JavaScript's `String(v)`: an array is the comma-join of its elements,
      with null elements as "", and an object is "[object Object]". */
  function JsString(j: Json): string {
    match j
    case JNull => "null"
    case JBool(b) => if b then "true" else "false"
    case JNum(n) => IntToString(n)
    case JStr(s) => s
    case JArr(items) =>
      JoinWith(",", seq(|items|, i requires 0 <= i < |items| =>
        if items[i].JNull? then "" else JsString(items[i])))
    case JObj(_) => "[object Object]"
  }

  function HexDigit(d: nat): char
    requires d < 16
  {
    "0123456789abcdef"[d]
  }

  /** How `json.dumps(..., ensure_ascii=False)` writes one character of a string. */
  function EscapeJsonChar(c: char): string {
    if c == '"' then "\\\""
    else if c == '\\' then "\\\\"
    else if c == '\n' then "\\n"
    else if c == '\r' then "\\r"
    else if c == '\t' then "\\t"
    else if c == '\U{8}' then "\\b"
    else if c == '\U{C}' then "\\f"
    else if (c as int) < 0x20 then "\\u00" + [HexDigit(c as int / 16), HexDigit(c as int % 16)]
    else [c]
  }

  function EscapeJson(s: string): string {
    if s == [] then "" else EscapeJsonChar(s[0]) + EscapeJson(s[1..])
  }

  function DumpString(s: string): string {
    "\"" + EscapeJson(s) + "\""
  }

  /** `json.dumps(j, ensure_ascii=False)` with the default separators. */
  function Dump(j: Json): (r: string)
    ensures j.JObj? ==> |r| >= 2 && r[0] == '{' && r[|r| - 1] == '}'
  {
    match j
    case JNull => "null"
    case JBool(b) => if b then "true" else "false"
    case JNum(n) => IntToString(n)
    case JStr(s) => DumpString(s)
    case JArr(items) =>
      "[" + JoinWith(", ", seq(|items|, i requires 0 <= i < |items| => Dump(items[i]))) + "]"
    case JObj(fields) =>
      "{" + JoinWith(", ", seq(|fields|, i requires 0 <= i < |fields| =>
        DumpString(fields[i].0) + ": " + Dump(fields[i].1))) + "}"
  }

  /** The dump of a dict is never blank: it starts with '{'. */
  lemma DumpObjectNotBlank(fields: seq<(string, Json)>)
    ensures Strip(Dump(JObj(fields))) != []
  {
    var d := Dump(JObj(fields));
    StripEmptyIffBlank(d);
    assert !IsSpace(d[0]);
  }
}

/**
 * The decoded JSON that `response.json()` hands to the bot, and the two
 * pieces of Python semantics the handlers apply to it: truthiness
 * (`if not results:`) and `str()` inside f-strings.
 */
module JsonValue {
  import opened Wrappers
  import Format

  /** A decoded JSON value.  Numbers are integers (MediaWiki sends integer
      ids and counts); an object is a map from its keys to its values. */
  datatype Json =
    | JNull
    | JBool(b: bool)
    | JNum(n: int)
    | JStr(s: string)
    | JArr(items: seq<Json>)
    | JObj(fields: map<string, Json>)

  /** Python's truth value of the decoded value: None, False, 0 and empty
      strings, lists and dicts are false, everything else is true. */
  predicate Truthy(j: Json) {
    match j
    case JNull => false
    case JBool(b) => b
    case JNum(n) => n != 0
    case JStr(s) => s != []
    case JArr(items) => items != []
    case JObj(fields) => fields != map[]
  }

  /** `d.get(key, default)` on a decoded object. */
  function GetOr(fields: map<string, Json>, key: string, default: Json): (v: Json)
    ensures key in fields ==> v == fields[key]
    ensures key !in fields ==> v == default
  {
    if key in fields then fields[key] else default
  }

  /** `obj[key]` on a value that must be an object: absent when Python
      raises (a KeyError, or a TypeError because the value is no dict). */
  function Index(j: Json, key: string): (v: Option<Json>)
    ensures v.Some? <==> j.JObj? && key in j.fields
    ensures v.Some? ==> v.value == j.fields[key]
  {
    match j
    case JObj(fields) => if key in fields then Some(fields[key]) else None
    case _ => None
  }

  /** `obj[key]` where the code goes on to use the value as a `str`. */
  function StringAt(j: Json, key: string): (v: Option<string>)
    ensures v.Some? <==> j.JObj? && key in j.fields && j.fields[key].JStr?
    ensures v.Some? ==> j.fields[key] == JStr(v.value)
  {
    match Index(j, key)
    case Some(JStr(s)) => Some(s)
    case _ => None
  }

  /** `str(value)` as an f-string renders it, for the values whose rendering
      does not depend on the key order of an object: strings as they are,
      None, booleans and integers as Python writes them.  Lists and objects
      have no rendering here. */
  function Show(j: Json): (r: Option<string>)
    ensures r.Some? <==> !(j.JArr? || j.JObj?)
    ensures j.JStr? ==> r == Some(j.s)
  {
    match j
    case JNull => Some("None")
    case JBool(b) => Some(if b then "True" else "False")
    case JNum(n) => Some(Format.IntToString(n))
    case JStr(s) => Some(s)
    case JArr(_) => None
    case JObj(_) => None
  }
}

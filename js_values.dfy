/**
 * The JavaScript values the server keeps in its JSON documents, and the
 * truthiness test (`if (x)`, `a && b`) the source applies to them.
 */
module JsValues {
  import opened Wrappers

  /** A JSON value as `JSON.parse` produces it (numbers are kept integral). */
  datatype Json =
    | JNull
    | JBool(b: bool)
    | JNum(n: int)
    | JStr(s: string)
    | JArr(items: seq<Json>)
    | JObj(fields: map<string, Json>)

  /** A JSON object: the shape of both persisted documents. */
  type Document = map<string, Json>

  /** JavaScript truthiness: `null`, `false`, `0` and `""` are falsy; every object and array is truthy. */
  predicate Truthy(v: Json)
  {
    match v
    case JNull => false
    case JBool(b) => b
    case JNum(n) => n != 0
    case JStr(s) => s != ""
    case JArr(_) => true
    case JObj(_) => true
  }

  /** Reading a property: an absent key reads as `undefined`, which is falsy like `null`. */
  function Field(d: Document, key: string): (v: Json)
    ensures key !in d ==> !Truthy(v)
  {
    if key in d then d[key] else JNull
  }

  /** A string that may be `undefined`, checked for truthiness (`if (!versionName)`). */
  predicate Present(s: Option<string>)
  {
    s.Some? && s.value != ""
  }

  /** A byte of a `Uint8Array`/`Buffer`. */
  newtype byte = x: int | 0 <= x < 256
}

/** The values that flow through the breaking-news service and the auth middleware. */
module NewsTypes {

  datatype Option<+T> = None | Some(value: T)

  /**
   * A field read off a JavaScript object: absent (`undefined`), `null`, or a string.
   * Article fields and HTTP headers only ever hold these.
   */
  datatype JsValue = Undefined | Null | Str(s: string)

  /** JavaScript truthiness on these values: only a non-empty string is truthy. */
  predicate Truthy(v: JsValue)
  {
    v.Str? && v.s != ""
  }

  /** `String(v)`, which is what `RegExp.prototype.test` searches when handed `v`. */
  function ToString(v: JsValue): string
  {
    match v
    case Undefined => "undefined"
    case Null => "null"
    case Str(s) => s
  }

  /** A candidate item as the news source delivers it; `url` is the deduplication key. */
  datatype Article = Article(title: JsValue, description: JsValue, url: JsValue)

  /** The `{title, url}` object sent with a `breaking-news` event. */
  datatype Notice = Notice(title: string, url: string)

  /** The elements of the JSON array the dedup cache file holds. */
  datatype JsonValue = JNull | JString(s: string)

  /** How `JSON.stringify` writes a set element inside an array: `undefined` becomes `null`. */
  function ToJson(v: JsValue): JsonValue
  {
    match v
    case Undefined => JNull
    case Null => JNull
    case Str(s) => JString(s)
  }

  /** How `JSON.parse` gives an array element back. */
  function FromJson(j: JsonValue): (v: JsValue)
    ensures ToJson(v) == j
    ensures v != Undefined
  {
    match j
    case JNull => Null
    case JString(s) => Str(s)
  }
}

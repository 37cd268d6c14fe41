/** Small shared vocabulary: an optional value, and the flat JSON objects of
    strings that the browser posts to the e-mail server as `requestData`. */
module Basics {

  datatype Option<+T> = None | Some(value: T)

  /** A JSON object whose values are all strings, keyed by property name. */
  type Json = map<string, string>

  /** `obj.key === v` in JavaScript: false when the key is absent. */
  predicate HasValue(obj: Json, key: string, v: string) {
    key in obj && obj[key] == v
  }

  /** What `${obj.key}` renders inside a JavaScript template literal: the
      string value, or "undefined" when the property is missing. */
  function Interpolate(obj: Json, key: string): (r: string)
    ensures key in obj ==> r == obj[key]
    ensures key !in obj ==> r == "undefined"
  {
    if key in obj then obj[key] else "undefined"
  }
}

/** Values shared by the server and the two client components. */
module Common {

  /** A value that may be absent (`null`/`undefined` in the JavaScript source). */
  datatype Option<+T> = None | Some(value: T)

  /** JavaScript truthiness of an optional string: `null`, `undefined` and `''` are falsy. */
  predicate Truthy(s: Option<string>) {
    s.Some? && s.value != ""
  }

  /** An HTTP reply: a status code with either the JSON body or the `error` text of the body. */
  datatype Reply<+T> = Ok(status: int, body: T) | Fail(status: int, error: string)
}

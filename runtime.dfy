/** JavaScript values the functions rely on: possibly-undefined strings, their
    truthiness, the `||` default idiom, thrown errors as `Result`, and the
    process environment read through `process.env`. */
module Runtime {

  datatype Option<+T> = None | Some(value: T)

  /** A call that either returns a value or throws an `Error` with a message. */
  datatype Result<+T> = Ok(value: T) | Err(message: string)

  /** JavaScript truthiness of a string that may be `undefined`:
      `undefined` and the empty string are falsy, every other string is truthy. */
  predicate Truthy(v: Option<string>) {
    v.Some? && v.value != ""
  }

  /** The expression `v || fallback` for a possibly-undefined string. */
  function Or(v: Option<string>, fallback: string): (r: string)
    ensures Truthy(v) ==> r == v.value
    ensures !Truthy(v) ==> r == fallback
    ensures r == "" <==> !Truthy(v) && fallback == ""
  {
    if Truthy(v) then v.value else fallback
  }

  /** The variables of `process.env` that the functions read. */
  datatype Env = Env(emailUser: Option<string>, emailPass: Option<string>, webhookUrl: Option<string>)
}

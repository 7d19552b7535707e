/** Small value types shared by the carousel and the page loader. */
module Values {

  /** A value that may be absent: an attribute or option that is not set. */
  datatype Option<+T> = None | Some(value: T)

  /** The outcome of an operation that can fail. */
  datatype Result<+T, +E> = Success(value: T) | Failure(error: E)

  /** The value of an optional setting, or `default` when it is not set. */
  function GetOr<T>(o: Option<T>, default: T): (v: T)
  {
    if o.Some? then o.value else default
  }

  /** JavaScript truthiness of a string that may be absent: absent and "" are falsy. */
  predicate Truthy(s: Option<string>)
  {
    s.Some? && s.value != ""
  }

  /** JavaScript's `s || fallback` for a string that may be absent. */
  function Or(s: Option<string>, fallback: string): (r: string)
  {
    if Truthy(s) then s.value else fallback
  }
}

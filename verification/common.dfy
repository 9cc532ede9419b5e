/** Failure-carrying wrappers shared by every module of the model. */
module Common {

  /** A value that may be absent (JavaScript `undefined`/`null`). */
  datatype Option<T> = None | Some(value: T) {

    /** The wrapped value, or `d` when absent. */
    function GetOr(d: T): T {
      match this
      case Some(v) => v
      case None => d
    }
  }

  /** The outcome of an operation that can throw: a value or an error. */
  datatype Result<T, E> = Ok(value: T) | Err(error: E)

  /** JavaScript truthiness of an optional string: present and non-empty. */
  predicate Truthy(s: Option<string>) {
    s.Some? && s.value != ""
  }
}

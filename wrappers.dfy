/** Option and Result, used for Python's None and for calls that raise. */
module Wrappers {

  datatype Option<+T> = None | Some(value: T)

  /** The Python exceptions the modelled code can raise. */
  datatype Error = ZeroDivisionError | KeyError(key: string) | ValueError

  datatype Result<+T> = Success(value: T) | Failure(error: Error)

  /** Python truthiness of an optional string: given and non-empty. */
  predicate Truthy(s: Option<string>) {
    s.Some? && s.value != ""
  }
}

/** The optional value used wherever the scripts have `None` or a file that
    may be absent, and the result of a step that either succeeds with a
    value or stops the script with an error. */
module Wrappers {
  datatype Option<+T> = None | Some(value: T)

  datatype Result<+T, +E> = Success(value: T) | Failure(error: E)

  /** Python's truthiness of an optional string argument: given and non-empty. */
  predicate Truthy(arg: Option<string>) {
    arg.Some? && arg.value != ""
  }
}

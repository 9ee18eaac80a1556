/** Failure-compatible result types shared by the build-tool model, and the
    two kinds of exception the modelled code raises. */
module Common {

  datatype Option<+T> = None | Some(value: T)

  /** The outcome of a step that returns nothing but may throw (a promise that
      resolves to void, or a function that returns normally). */
  datatype Outcome<+E> = Pass | Fail(error: E)

  datatype Result<+R, +E> = Success(value: R) | Failure(error: E)

  /** The exceptions the modelled code can raise: the tool's own `BuildError`,
      and the `TypeError` JavaScript throws on a property read of `undefined`. */
  datatype Error =
    | BuildError(message: string)
    | TypeError(message: string)

  /** JavaScript truthiness of an optional string: absent or empty is falsy. */
  predicate Truthy(s: Option<string>)
  {
    s.Some? && s.value != ""
  }
}

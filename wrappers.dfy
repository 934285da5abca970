/** Optional values (a Java reference that may be null), results of
    operations that may throw, and the exceptions the model distinguishes. */
module Wrappers {

  datatype Option<+T> = None | Some(value: T)

  /** The Java exceptions raised by the modelled code. */
  datatype Error =
    | IllegalArgument(reason: string)
    | NullPointer(reason: string)
    | NoSuchElement(reason: string)

  /** A value, or the exception that was thrown instead. */
  datatype Result<+T> = Ok(value: T) | Err(error: Error)

  /** A check that passes or throws. */
  datatype Outcome = Pass | Fail(error: Error)
}

/** Failure-carrying results. Every `sys.exit(1)` after a diagnostic in the
    handlers becomes a `Fail`/`Err` carrying the flag that names the check. */
module Wrappers {

  datatype Result<+T, +E> = Ok(value: T) | Err(error: E)

  /** The outcome of a check that produces no value. */
  datatype Outcome<+E> = Pass | Fail(error: E)

  datatype Option<+T> = None | Some(value: T)
}

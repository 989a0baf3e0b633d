/** Failure-carrying results shared by the modules of the model. */
module Wrappers {

  /** A value that may be absent. Where the source would compute JavaScript's
      NaN (0/0, the mean of an empty list, Number() of a non-number), the
      model carries None: every comparison with NaN is false, so a None makes
      the guarded rule not fire. */
  datatype Option<+T> = None | Some(value: T)

  /** The value when present, the fallback otherwise. */
  function UnwrapOr<T>(o: Option<T>, fallback: T): T
  {
    if o.Some? then o.value else fallback
  }

  /** The outcome of an operation that the source lets throw. */
  datatype Result<+T, +E> = Ok(value: T) | Err(error: E)
}

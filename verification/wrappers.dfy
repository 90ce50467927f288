/** Optional values and error-carrying results shared by every module.
    `None` stands for a missing or NaN field; `Err` for a raised exception. */
module Wrappers {

  datatype Option<+T> = None | Some(value: T)

  datatype Result<+T> = Ok(value: T) | Err(message: string)

  /** Python's `a <= b` on two possibly-missing numbers: false as soon as one is missing. */
  predicate Le(a: Option<real>, b: Option<real>)
  {
    a.Some? && b.Some? && a.value <= b.value
  }
}

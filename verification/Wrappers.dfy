/** The Some/None and Ok/Err datatypes shared by every module of the model. */
module Wrappers {
  datatype Option<+T> = None | Some(value: T)

  /** `Ok` is a normal return, `Err` an exception that leaves the call. */
  datatype Result<+T, +E> = Ok(value: T) | Err(error: E)
}

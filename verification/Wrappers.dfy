/** Option and Result, the two shapes the model uses for absent JSON fields
    and for the schema's verdict. */
module Wrappers {

  /** A value that may be missing, as an optional JSON field may be. */
  datatype Option<+T> = None | Some(value: T)

  /** Either a value or an error describing why there is none. */
  datatype Result<+R, +E> = Success(value: R) | Failure(error: E)
}

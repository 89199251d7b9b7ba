/** Option and Result, used for nullable columns, parser results and error returns. */
module Wrappers {

  /** A nullable value: a database NULL or a Python None is `None`. */
  datatype Option<+T> = None | Some(value: T)

  /** The outcome of an operation that can fail with an error of type `E`. */
  datatype Result<+T, +E> = Ok(value: T) | Err(error: E)
}

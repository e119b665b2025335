/** Option and Result, used for pandas' null values and for the runs that are rejected. */
module Wrappers {

  /** A value that may be missing: None stands for pandas' NaN in a derived column. */
  datatype Option<+T> = None | Some(value: T)

  /** The outcome of a run: a result table, or the reason it was rejected. */
  datatype Result<+T, +E> = Ok(value: T) | Err(error: E)
}

/** Failure-carrying datatypes used by the pipeline: a missing cell, a stage
    that cannot produce a value. */
module Wrappers {

  /** A spreadsheet cell that may be empty (pandas NaN / NaT). */
  datatype Option<+T> = None | Some(value: T)

  /** The outcome of a stage that can fail. */
  datatype Result<+T, +E> = Ok(value: T) | Err(error: E)
}

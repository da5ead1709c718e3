/** Option and Result: the two ways a Python call of the explorer can end
    without a value (None) or with an exception. */
module Outcomes {

  datatype Option<+T> = None | Some(value: T)

  /** `Err` stands for an exception that the Python code lets propagate. */
  datatype Result<+T, +E> = Ok(value: T) | Err(error: E)
}

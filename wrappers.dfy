/** Option and Result: the outcome values that stand for Python's `None`
    returns and raised exceptions in this model. */
module Wrappers {

  datatype Option<+T> = None | Some(value: T)

  datatype Result<+T, +E> = Ok(value: T) | Err(error: E)
}

/** Option and Result values shared by the other modules. */
module Wrappers {

  datatype Option<+T> = None | Some(value: T)

  /** The outcome of an operation that can raise: its value or the error text. */
  datatype Result<+R> = Ok(value: R) | Err(error: string)

  /** The outcome of an operation that returns nothing but can raise. */
  datatype Outcome = Pass | Fail(error: string)
}

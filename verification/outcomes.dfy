/** Failure-carrying values shared by the modules of the model. */
module Outcomes {

  /** An optional value: `None` stands for an absent value (a C++ empty slot, a JS `null`). */
  datatype Option<+T> = None | Some(value: T)

  /** Either a value or an error describing why no value was produced (a JS `throw`). */
  datatype Result<+T, +E> = Ok(value: T) | Err(error: E)
}

/** Option and Result values for the error paths of the model: a Python
    function that returns `None` or raises is modelled by returning `None`
    or `Err(...)` instead of by a precondition. */
module Wrappers {

  datatype Option<+T> = None | Some(value: T)

  datatype Result<+T, +E> = Ok(value: T) | Err(error: E)

  /** The outcome of a call into a collaborator that either raises (with
      the text of the exception) or returns a value. */
  datatype Fetch<+T> = Raised(error: string) | Got(value: T)
}

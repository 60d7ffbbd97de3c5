/** Python's `None` and its exceptions, as values.

 - Option<T>: a value that may be absent (`None` in the source).
 - Error: an exception, carried by its `str(...)` text, which is all the
   modelled code ever reads from one.
 - Result<T>: a call that either returned a value or raised an exception.
 */
module Outcomes {

  datatype Option<+T> = None | Some(value: T)

  /** An exception object; `text` is what `str(exc)` yields. */
  datatype Error = Error(text: string)

  datatype Result<+T> = Returned(value: T) | Raised(error: Error)

}

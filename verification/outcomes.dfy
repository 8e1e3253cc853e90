/** Failure-carrying values shared by the whole model: optional values,
    results of operations that can raise, and the outcome of a single call
    of a function wrapped by the retry decorator. */
module Outcomes {

  /** Python's `x | None`. */
  datatype Option<+T> = None | Some(value: T)

  /** The exceptions the modelled code raises or lets through. */
  datatype Exception =
    | ValueError      // configuration errors, unknown storage type
    | TypeError       // unpacking or measuring the `None` a failed retry returns
    | AttributeError  // reading a field a dataclass does not declare
    | OSError         // a write to the state file or to Redis failed
    | ConnectionError // the search index did not accept a bulk load

  /** Either a value or the exception that interrupted the computation. */
  datatype Result<+T> = Success(value: T) | Failure(error: Exception)

  /** What one call of a wrapped function did: returned a value or raised.
      The retry decorator catches every exception alike, so the kind of the
      exception is not recorded. */
  datatype Attempt<+T> = Returned(value: T) | Raised
}

/** Failure-compatible wrappers shared by the extractor model. */
module Results {

  /** The Python exceptions the extractor can raise on a malformed response.
      Both end the request as an HTTP 500 (main.py:214-217). */
  datatype Error =
    | TypeError       // `in`, `[...]` or iteration on a value that does not support it
    | AttributeError  // `.get` or `.items` on a value that is not a dict

  datatype Option<+T> = None | Some(value: T)

  datatype Result<+T> = Ok(value: T) | Err(error: Error) {
    predicate IsFailure() { Err? }

    function PropagateFailure<U>(): Result<U>
      requires Err?
    {
      Err(error)
    }

    function Extract(): T
      requires Ok?
    {
      value
    }
  }
}

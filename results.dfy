/** Outcomes of calls that can raise. The error is the
    exception's text, which is all the HTTP layer passes on. */
module Results {

  datatype Result<+T> = Success(value: T) | Failure(error: string)

  /** The outcome of a call that returns nothing of interest. */
  datatype Outcome = Pass | Fail(error: string)

  datatype Option<+T> = None | Some(value: T)
}

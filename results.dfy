/** Optional values and success/failure results, used for the values a prompt
    may fail to parse and for the outcome of each invoice validation chain. */
module Results {

  /** A parsed value, or None when the text did not parse. */
  datatype Option<+T> = None | Some(value: T)

  /** The outcome of a validation chain: a finished record or the first error met. */
  datatype Result<+R, +E> = Success(value: R) | Failure(error: E)
}

/** Optional values and success/failure results, used in place of the nulls and
    exceptions of the fetcher. */
module Results {

  /** A value that may be absent (a C# null). */
  datatype Option<+T> = None | Some(value: T)

  /** The outcome of a step that either produces a value or fails with an error
      (where the fetcher would throw). */
  datatype Result<+T, +E> = Ok(value: T) | Err(error: E)
}

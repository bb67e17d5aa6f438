/** Failure-carrying values: the engine's Python exceptions become `Err` results. */
module Results {

  /** A value that may be missing, such as the `active` attribute before the first move. */
  datatype Option<+T> = None | Some(value: T)

  /** Either a value or the error that the source would raise instead. */
  datatype Result<+T, +E> = Ok(value: T) | Err(error: E)
}

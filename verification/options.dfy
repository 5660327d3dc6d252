/** The optional value used wherever the source has a `std::optional`, an error status or a failed `CHECK`. */
module Options {

  datatype Option<+T> = None | Some(value: T)

  /** The outcome of an operation that returns an absl::StatusOr. */
  datatype Result<+T, +E> = Ok(value: T) | Err(error: E)
}

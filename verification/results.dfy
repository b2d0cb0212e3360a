/** Failure-carrying values used in place of Go's `(value, error)` pairs and
    of `log.Fatal` exits: every error path of the program becomes an `Err`. */
module Results {

  /** A value that may be absent; `None` also stands for Go's `nil` error. */
  datatype Option<+T> = None | Some(value: T)

  /** Either a computed value or the error that stopped the computation. */
  datatype Result<+T, +E> = Ok(value: T) | Err(error: E)
}

/** Failure-carrying wrappers shared by every module of the model. */
module Base {

  /** A value that may be absent: Go's nil pointer, nil map or missing key. */
  datatype Option<+T> = None | Some(value: T)

  /** A Go `(value, error)` pair: either a value or an error message. */
  datatype Result<+T> = Ok(value: T) | Err(msg: string)
}

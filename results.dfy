/** Failure-carrying wrappers used throughout the model. */
module Results {

  /** A value that may be absent: a missing key, an unset environment variable, a JSON
      decode that failed. */
  datatype Option<+T> = None | Some(value: T) {
    function GetOr(default: T): T {
      match this
      case Some(v) => v
      case None => default
    }
  }

  /** The outcome of a step that can raise `ValueError`; `Err` carries `str(error)`. */
  datatype Result<+T> = Ok(value: T) | Err(msg: string)
}

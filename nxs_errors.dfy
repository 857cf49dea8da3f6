/** The error kinds the loader raises, and the wrappers used for its
    error paths (a C++ exception becomes a Fail or Err value). */
module NxsErrors {

  /** NCrystal's exception classes that the .nxs loader throws. */
  datatype Error = DataLoadError | BadInput | CalcError

  datatype Option<+T> = None | Some(value: T) {
    function GetOr(default: T): T {
      match this
      case Some(v) => v
      case None => default
    }
  }

  /** The outcome of a routine that returns nothing or throws. */
  datatype Outcome = Pass | Fail(error: Error)

  /** The outcome of a routine that returns a value or throws. */
  datatype Result<+T> = Ok(value: T) | Err(error: Error)
}

/** Small failure-carrying datatypes shared by every agent of the model. */
module Base {

  /** Python's `Optional[...]`: a value or None. */
  datatype Option<+T> = None | Some(value: T) {
    /** `d.get(key, default)` style access. */
    function GetOr(default: T): T {
      match this
      case Some(v) => v
      case None => default
    }
  }

  /** A value or the exception a Python function would raise instead. */
  datatype Result<+R, +E> = Ok(value: R) | Err(error: E)
}

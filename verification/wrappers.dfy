/** The optional value used wherever the source uses `null` or `undefined` for "absent". */
module Wrappers {

  datatype Option<+T> = None | Some(value: T) {

    /** The wrapped value, or `default` when absent. */
    function GetOr(default: T): T {
      match this
      case Some(v) => v
      case None => default
    }
  }

  /** A value or the error that replaced it: the model of a call that may throw. */
  datatype Result<+T, +E> = Ok(value: T) | Err(error: E)
}

/** Option and Result values for the service's "absent" fields and its error returns. */
module Wrappers {

  datatype Option<+T> = None | Some(value: T) {
    function GetOr(default: T): T {
      match this
      case Some(v) => v
      case None => default
    }
  }

  /** A Python dict result `{'success': True, ...}` or `{'success': False, 'error': ...}`. */
  datatype Result<+R, +E> = Success(value: R) | Failure(error: E)
}

/** Small result types shared by the models. */
module Wrappers {
  datatype Option<+T> = None | Some(value: T) {
    function UnwrapOr(default: T): T {
      match this
      case Some(v) => v
      case None => default
    }
  }

  datatype Result<+T, +E> = Ok(value: T) | Err(error: E)

  /** What one file-system primitive did.  A primitive that fails or is cut off by a
      crash has had no effect; a crash just after an effect is the crash just before
      the next primitive. */
  datatype Outcome = Done | Failed | Crashed
}

/** Stock result types shared by every module. */
module Wrappers {

  datatype Option<+T> = None | Some(value: T) {
    function GetOr(default: T): T {
      if Some? then value else default
    }
  }

  /** The source's exceptions become the Err side of a Result. */
  datatype Result<+T, +E> = Ok(value: T) | Err(error: E)
}

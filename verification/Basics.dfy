/** Small datatypes shared by every module. */
module Basics {

  datatype Option<+T> = None | Some(value: T)

  datatype Result<+T, +E> = Success(value: T) | Failure(error: E)

  /** The largest integer a JavaScript number holds exactly. */
  const MAX_SAFE: int := 9007199254740991
}

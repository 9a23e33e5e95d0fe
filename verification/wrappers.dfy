/** Failure-carrying datatypes shared by the whole model. */
module Wrappers {

  /** A value that may be absent. */
  datatype Option<+T> = None | Some(value: T)

  /** The two standard-library exceptions the monitored code can raise:
      `std::invalid_argument` (no digits for `stol`/`stoi`) and
      `std::out_of_range` (a number too large, or `substr` past the end). */
  datatype Exception = InvalidArgument | OutOfRange

  /** The outcome of a C++ call that either returns or throws. */
  datatype Result<+T> = Ok(value: T) | Thrown(error: Exception)
}

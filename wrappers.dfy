/** Success/failure results used by the operations whose source can fail. */
module Wrappers {

  datatype Result<+R, +E> = Success(value: R) | Failure(error: E)
}

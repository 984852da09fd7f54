/** Failure-compatible wrappers used by the validators and by optional record fields. */
module Wrappers {

  /** A value that may be absent: an optional `id`, a nullable state field. */
  datatype Option<+T> = None | Some(value: T)

  /** Either a parsed value or the reasons it was refused. */
  datatype Result<+R, +E> = Success(value: R) | Failure(error: E)
}

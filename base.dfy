/** Value types shared by every layer of the upload pipeline. */
module Base {

  /** One octet of a Node.js Buffer. */
  newtype byte = x: int | 0 <= x < 256

  /** A value that JavaScript may leave `undefined`. */
  datatype Option<+T> = None | Some(value: T)

  /** The outcome of an async function: a value, or the error it throws. */
  datatype Result<+R, +E> = Success(value: R) | Failure(error: E)
}

/** Absent values and error returns, shared by every module of the model. */
module Options {

  /** `undefined`/`null` versus a present value. */
  datatype Option<+T> = None | Some(value: T)

  /** A value or the error a thrown exception would carry. */
  datatype Result<+T, +E> = Ok(value: T) | Err(error: E)
}

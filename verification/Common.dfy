/** Types shared by the whole model. */
module Common {

  datatype Option<+T> = None | Some(value: T)

  /** The source's `Result`, and its exceptions: every failure path of an operation ends in `Err`. */
  datatype Result<+T, +E> = Ok(value: T) | Err(error: E)

  type Byte = b: int | 0 <= b < 256

  type Bytes = seq<Byte>
}

/** Option and Result datatypes shared by every module of the model.
    A Result's error side is the message of the JavaScript `Error` that the
    modelled code would throw. */
module Wrappers {

  datatype Option<+T> = None | Some(value: T)

  datatype Result<+T, +E> = Ok(value: T) | Err(error: E)

  /** An 8-bit unsigned value, the element type of a `Uint8Array`. */
  type Byte = b: int | 0 <= b < 256
}

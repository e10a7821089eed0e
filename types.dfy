/** Values shared by every part of the model: octets and the outcome of an
    operation that can raise. */
module Types {

  /** One octet, as Python's `bytes` holds it. */
  type Byte = b: int | 0 <= b < 256

  type Bytes = seq<Byte>

  datatype Option<+T> = None | Some(value: T)

  /** The outcome of a Python call that either returns a value or raises. */
  datatype Result<+T, +E> = Ok(value: T) | Err(error: E)
}

/** Small shared types: an optional value and the bytes of an HTTP body. */
module Base {

  /** A value that may be absent; PHP's unset property or null. */
  datatype Option<+T> = None | Some(value: T)

  /** One octet of a PHP binary string. */
  newtype byte = x: int | 0 <= x < 256

  /** The raw body of an HTTP response (the image data). */
  type Bytes = seq<byte>
}

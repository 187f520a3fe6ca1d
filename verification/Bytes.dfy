/** Octets. */
module Bytes {
  newtype Byte = b: int | 0 <= b < 256
}

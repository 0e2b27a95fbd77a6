/** Octets, as the C code's `unsigned char`. */
module Bytes {
  type Byte = b: int | 0 <= b < 256
}

/** Octets, as carried by Foundation's `Data`. */
module Bytes {

  /** One octet. */
  type Byte = b: int | 0 <= b < 256
}

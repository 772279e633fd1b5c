/** Octets, the unit both Base64 and UTF-8 work on. */
module Bytes {
  type byte = x: int | 0 <= x < 256
}

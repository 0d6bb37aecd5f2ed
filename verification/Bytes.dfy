/** Bytes as they are stored in the buffers. */
module Bytes {

  type byte = x: int | 0 <= x < 256
}

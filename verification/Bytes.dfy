/** Bytes, as files and connections hold them. */
module Bytes {
  type Byte = b: int | 0 <= b < 256 witness 0
}

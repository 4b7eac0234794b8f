/** Bytes of files and archives. */
module Bytes {

  newtype Byte = x: int | 0 <= x < 256

  type Bytes = seq<Byte>
}

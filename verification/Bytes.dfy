/** Bytes and byte strings. */
module Bytes {
  type u8 = x: nat | x < 256
  type Str = seq<u8>
}

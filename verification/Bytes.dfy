/** Bytes and the fixed- and variable-length integer encodings of util/coding.cc. */
module Bytes {
  newtype byte = x: int | 0 <= x < 256

  type Bytes = seq<byte>
}

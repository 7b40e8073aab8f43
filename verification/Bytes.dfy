/** Bytes as small integers. */
module Bytes {
  type Byte = b: nat | b < 256

  type ByteString = seq<Byte>
}

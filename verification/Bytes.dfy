/** Octets, as file contents and wire formats use them. */
module Bytes {
  type Byte = b: nat | b < 256

  function Value(b: Byte): nat {
    b
  }
}

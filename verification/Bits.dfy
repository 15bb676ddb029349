/** The values that the bits-service models share. */
module Bits {
  newtype Byte = x: int | 0 <= x < 256

  type Bytes = seq<Byte>

  /** Identifiers, blob keys, file names. */
  type Key = string

  /** The two checksums that the Cloud Controller is told. */
  datatype Sums = Sums(sha1: Bytes, sha256: Bytes)

  /** The hash functions: any function at all. */
  type Digester = Bytes -> Sums
}

/** Values shared by every part of the model. */
module Basics {

  datatype Option<+T> = None | Some(value: T)

  /** The hexadecimal part of a `sha256:` digest, or an ostree commit checksum. */
  type Hash = string

  const TWO_63: int := 0x8000_0000_0000_0000
  const TWO_64: int := 0x1_0000_0000_0000_0000

  /** A signed number converted to uint64, as comparisons with a uint64 do. */
  function ToUnsigned(n: int): int {
    if n < 0 then n + TWO_64 else n
  }
}

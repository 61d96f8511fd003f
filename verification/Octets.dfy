/** What the framing of the desktop connection and the answer to its challenge share. */
module Octets {
  type byte = x: int | 0 <= x < 0x100

  /** The data starts with `REDQ`. */
  predicate Challenge(data: seq<byte>) {
    |data| >= 4 && data[..4] == [0x52, 0x45, 0x44, 0x51]
  }
}

/** Small shared vocabulary: the firmware's unsigned byte type and an optional value. */
module Basics {

  /** The firmware's `uint8_t`: LED indices, LED counts and brightness levels all travel as bytes. */
  newtype uint8 = x: int | 0 <= x < 256

  /** A value that may be absent. */
  datatype Option<+T> = None | Some(value: T)

  /** The smaller of two integers. */
  function Min(a: int, b: int): (m: int)
    ensures m <= a && m <= b
    ensures m == a || m == b
  {
    if a <= b then a else b
  }
}

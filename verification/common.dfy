/**
 * Shared vocabulary: fixed-width unsigned integer types, an optional value,
 * powers of two and the clamp helper used by several sync structures.
 */
module Common {

  /** C `unsigned char`. */
  type uint8 = x: int | 0 <= x < 0x100

  /** C `unsigned short`. */
  type uint16 = x: int | 0 <= x < 0x1_0000

  /** C `unsigned int` / `unsigned long` on the 32-bit client. */
  type uint32 = x: int | 0 <= x < 0x1_0000_0000

  /** C `short`. */
  type int16 = x: int | -0x8000 <= x < 0x8000

  datatype Option<+T> = None | Some(value: T)

  function Pow2(n: nat): (r: nat)
    ensures r >= 1
  {
    if n == 0 then 1 else 2 * Pow2(n - 1)
  }

  /** Reduction to 8 bits, as an assignment to an `unsigned char` performs it. */
  function ToUInt8(x: int): (r: uint8)
    ensures 0 <= x < 0x100 ==> r == x
    ensures -0x100 <= x < 0 ==> r == x + 0x100
  {
    x % 0x100
  }

  /** Reduction to 32 bits, as `unsigned int` arithmetic performs it. */
  function ToUInt32(x: int): (r: uint32)
    ensures 0 <= x < 0x1_0000_0000 ==> r == x
    ensures -0x1_0000_0000 <= x < 0 ==> r == x + 0x1_0000_0000
  {
    x % 0x1_0000_0000
  }

  /** `SharedUtil::Clamp(low, value, high)`: the value moved into [low, high]. */
  function Clamp(low: int, value: int, high: int): (r: int)
    requires low <= high
    ensures low <= r <= high
    ensures low <= value <= high ==> r == value
    ensures value < low ==> r == low
    ensures value > high ==> r == high
  {
    if value < low then low else if value > high then high else value
  }
}

/** Machine integers, and the conversion of wide ones to narrow ones, as it is made where a number of any
    size is read into an `int`. */
module Narrowing {
  type Int32 = n: int | -0x8000_0000 <= n < 0x8000_0000

  type UInt64 = n: int | 0 <= n < 0x1_0000_0000_0000_0000

  /** What a JSON number without a fraction can hold: 64 bits, with or without a sign. */
  type Wide = n: int | -0x8000_0000_0000_0000 <= n < 0x1_0000_0000_0000_0000

  /** Reading a wide integer as a 32-bit one keeps its low bits. */
  function Narrow(n: Wide): Int32 {
    (n + 0x8000_0000) % 0x1_0000_0000 - 0x8000_0000
  }
}

/** Fixed-width integers of the C++ code. */
module Char32 {

  /** A `char32_t`: an unsigned 32-bit code unit. */
  type CodePoint = c: int | 0 <= c < 0x1_0000_0000

  /** An `unsigned` (32 bits on the targets the program is built for). */
  type U32 = x: int | 0 <= x < 0x1_0000_0000
}

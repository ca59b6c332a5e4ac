/** Machine integer widths used by the firmware: `uint8_t` and `uint16_t`. */
module Bytes {

  /** An unsigned 8-bit value (`uint8_t`). */
  type u8 = x: int | 0 <= x < 0x100

  /** An unsigned 16-bit value (`uint16_t`). */
  type u16 = x: int | 0 <= x < 0x1_0000

  /** The C `x++` on a `uint16_t`: addition modulo 2^16. */
  function Inc16(x: u16): (r: u16)
    ensures x < 0xFFFF ==> r == x + 1
    ensures x == 0xFFFF ==> r == 0
  {
    (x + 1) % 0x1_0000
  }
}

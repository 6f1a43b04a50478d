/** Machine integers and the wire primitives that the other modules share. */
module Bytes {

  type Byte = x: int | 0 <= x < 256
  type U32 = x: int | 0 <= x < 0x1_0000_0000

  const TWO32 := 0x1_0000_0000

  /** Unsigned 32-bit addition, subtraction and multiplication wrap around. */
  function Add32(x: U32, y: U32): U32 { (x + y) % TWO32 }
  function Sub32(x: U32, y: U32): U32 { (x - y) % TWO32 }
  function Mul32(x: U32, y: U32): U32 { (x * y) % TWO32 }

  function Min(x: int, y: int): int { if x <= y then x else y }
}

/** Machine words of the Go source: fixed-width integers and their wrapping arithmetic. */
module Words {
  datatype Option<+T> = None | Some(value: T)

  type byte = x: int | 0 <= x < 256
  type uint16 = x: int | 0 <= x < 0x1_0000
  type uint32 = x: int | 0 <= x < WORD

  const WORD: int := 0x1_0000_0000

  /** `x + y` on uint32. */
  function Add32(x: uint32, y: uint32): uint32 {
    if x + y < WORD then x + y else x + y - WORD
  }

  /** `x - y` on uint32. */
  function Sub32(x: uint32, y: uint32): uint32 {
    if y <= x then x - y else x - y + WORD
  }

  function Min(x: int, y: int): int {
    if x <= y then x else y
  }
}

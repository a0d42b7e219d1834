/** Fixed-width words, optional values and the small sequence facts every other module uses. */
module Words {

  type byte = x: int | 0 <= x < 0x100
  type u16 = x: int | 0 <= x < 0x1_0000
  type u32 = x: int | 0 <= x < 0x1_0000_0000
  type s16 = x: int | -0x8000 <= x < 0x8000
  type s24 = x: int | -0x80_0000 <= x < 0x80_0000
  type s32 = x: int | -0x8000_0000 <= x < 0x8000_0000
  type s40 = x: int | -0x80_0000_0000 <= x < 0x80_0000_0000

  datatype Option<+T> = None | Some(value: T)

  function Min(a: int, b: int): int {
    if a <= b then a else b
  }

  function Max(a: int, b: int): int {
    if a <= b then b else a
  }

  function Abs(a: int): nat {
    if a < 0 then -a else a
  }

  /** The 16-bit word a C `u16_t` holds after an increment. */
  function Succ16(n: u16): u16 {
    (n + 1) % 0x1_0000
  }

  /** All segments of a buffer chain, one after the other. */
  function Flatten<T>(chain: seq<seq<T>>): seq<T> {
    if chain == [] then [] else chain[0] + Flatten(chain[1..])
  }
}

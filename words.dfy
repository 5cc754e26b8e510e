/** Machine words and characters as the firmware's C code sees them:
    `uint32_t` arithmetic wraps modulo 2^32, and `tolower` maps only the
    ASCII capitals (the C locale). */
module Words {

  const Pow32: int := 0x1_0000_0000

  /** An unsigned 32-bit value (`uint32_t`). */
  type u32 = x: int | 0 <= x < 0x1_0000_0000

  /** One byte received on the serial line. */
  type byte = x: int | 0 <= x < 0x100

  datatype Option<+T> = None | Some(value: T)

  /** The value a `uint32_t` holds after being assigned the mathematical value `x`. */
  function Wrap32(x: int): (r: u32)
    ensures 0 <= x < Pow32 ==> r == x
    ensures (x - r) % Pow32 == 0
  {
    x % Pow32
  }

  /** Adding one to a wrapped value is the same as wrapping the sum. */
  lemma Wrap32Succ(x: int)
    ensures Wrap32(Wrap32(x) + 1) == Wrap32(x + 1)
  {
  }

  /** Character codes the firmware compares against. */
  const NUL: u32 := 0
  const KeyQ: u32 := 'q' as int
  const KeyT: u32 := 't' as int
  const KeyS: u32 := 's' as int
  const Key1: u32 := '1' as int
  const Key2: u32 := '2' as int

  predicate IsUpper(c: int)
  {
    'A' as int <= c <= 'Z' as int
  }

  /** C's `tolower` in the "C" locale: capitals become small letters, every
      other code is returned as it is. */
  function ToLower(c: u32): (r: u32)
    ensures !IsUpper(r)
    ensures r == c || (IsUpper(c) && r - c == 'a' as int - 'A' as int)
  {
    if IsUpper(c) then c + ('a' as int - 'A' as int) else c
  }
}

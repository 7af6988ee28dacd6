/**
 * The fixed-width C integer types of the firmware and the bit operations
 * of its event groups. Dafny integers are unbounded, so every wrap-around
 * of a C unsigned type is written out here.
 */
module Machine {

  const TWO_POW_32: int := 0x1_0000_0000

  /** `uint8_t` */
  type uint8 = x: int | 0 <= x < 0x100

  /** `uint32_t` */
  type uint32 = x: int | 0 <= x < 0x1_0000_0000

  /** A 32-bit `int` (the target's `int` and `long` are both 32 bits wide). */
  type int32 = x: int | -0x8000_0000 <= x < 0x8000_0000

  /** FreeRTOS `EventBits_t` on this 32-bit target. */
  type EventBits = bv32

  /** Conversion of any integer to `uint32_t`: reduction modulo 2^32. */
  function Wrap32(x: int): (r: uint32)
    ensures (r - x) % TWO_POW_32 == 0
  {
    x % TWO_POW_32
  }

  /** `uint8_t` increment, which wraps from 255 to 0. */
  function Inc8(x: uint8): (r: uint8)
    ensures x < 255 ==> r == x + 1
    ensures x == 255 ==> r == 0
  {
    (x + 1) % 0x100
  }

  /** Unsigned subtraction `a - b` of two `uint32_t` values. */
  function Sub32(a: uint32, b: uint32): uint32
  {
    Wrap32(a - b)
  }

  /** A `uint32_t` passed to a `%ld` conversion: its bits read as a signed 32-bit `long`. */
  function AsSigned32(n: uint32): (r: int32)
    ensures Wrap32(r) == n
  {
    if n < 0x8000_0000 then n else n - TWO_POW_32
  }

  lemma ModShift(x: int, q: int)
    ensures (x + q * TWO_POW_32) % TWO_POW_32 == x % TWO_POW_32
  {
  }

  /** Wrapping a value that already fits changes nothing. */
  lemma Wrap32Fits(x: int)
    requires 0 <= x < TWO_POW_32
    ensures Wrap32(x) == x
  {
  }

  /** Incrementing a wrapped counter is wrapping the incremented count. */
  lemma Wrap32Inc(x: int)
    ensures Wrap32(Wrap32(x) + 1) == Wrap32(x + 1)
  {
    var q := x / TWO_POW_32;
    assert x == q * TWO_POW_32 + Wrap32(x);
    ModShift(Wrap32(x) + 1, q);
  }

  /** `READ_BIT(x, i)`: whether bit `i` of `x` is set. */
  predicate ReadBit(x: EventBits, i: nat)
    requires i < 32
  {
    (x >> i) & 1 == 1
  }

  /** `SET_BIT(x, i)`: `x` with bit `i` set. */
  function SetBit(x: EventBits, i: nat): (r: EventBits)
    requires i < 32
    ensures ReadBit(r, i)
  {
    x | (1 << i)
  }
}

/** Fixed-width unsigned machine words and the C++ operations on them.
    Dafny's integers are unbounded, so every store into a `uint8_t` or
    `uint16_t` field of the interpreter is written out as a wrap. */
module Word {

  type u8 = x: int | 0 <= x < 0x100
  type u16 = x: int | 0 <= x < 0x1_0000
  type u32 = x: int | 0 <= x < 0x1_0000_0000

  /** A 4-bit field of an instruction word. */
  type nibble = x: int | 0 <= x < 0x10

  /** The 12-bit address field `nnn` of an instruction word. */
  type u12 = x: int | 0 <= x < 0x1000

  /** Storing an int into a `uint8_t` keeps it modulo 256. */
  function Wrap8(n: int): (r: u8)
    ensures 0 <= n < 0x100 ==> r == n
    ensures n < 0 && -0x100 <= n ==> r == n + 0x100
  {
    n % 0x100
  }

  /** Storing an int into a `uint16_t` keeps it modulo 65536. */
  function Wrap16(n: int): (r: u16)
    ensures 0 <= n < 0x1_0000 ==> r == n
    ensures 0x1_0000 <= n < 0x2_0000 ==> r == n - 0x1_0000
    ensures n < 0 && -0x1_0000 <= n ==> r == n + 0x1_0000
  {
    n % 0x1_0000
  }

  /** `a & b` on bytes. */
  function And8(a: u8, b: u8): u8 {
    (a as bv8 & b as bv8) as int
  }

  /** `a | b` on bytes. */
  function Or8(a: u8, b: u8): u8 {
    (a as bv8 | b as bv8) as int
  }

  /** `a ^ b` on bytes. */
  function Xor8(a: u8, b: u8): u8 {
    (a as bv8 ^ b as bv8) as int
  }
}

/**
 * The unchecked integer conversions of C#, written out on unbounded integers:
 * each keeps the low bits of its operand (two's complement), as `unchecked`
 * casts do.
 */
module Casts {

  const Two8: int := 0x100
  const Two16: int := 0x1_0000
  const Two32: int := 0x1_0000_0000

  /** `(byte)x` */
  function ToByte(x: int): (r: int)
    ensures 0 <= r < Two8
    ensures 0 <= x < Two8 ==> r == x
  {
    x % Two8
  }

  /** `(ushort)x` */
  function ToUInt16(x: int): (r: int)
    ensures 0 <= r < Two16
    ensures 0 <= x < Two16 ==> r == x
  {
    x % Two16
  }

  /** `(uint)x` */
  function ToUInt32(x: int): (r: int)
    ensures 0 <= r < Two32
    ensures 0 <= x < Two32 ==> r == x
  {
    x % Two32
  }

  /** `(short)x`: the low 16 bits read as a signed number. */
  function ToInt16(x: int): (r: int)
    ensures -0x8000 <= r < 0x8000
    ensures -0x8000 <= x < 0x8000 ==> r == x
    ensures (x - r) % Two16 == 0
  {
    var low := x % Two16;
    if low < 0x8000 then low else low - Two16
  }

  /** `(int)x` for a `long` operand: the low 32 bits read as a signed number. */
  function ToInt32(x: int): (r: int)
    ensures -0x8000_0000 <= r < 0x8000_0000
    ensures -0x8000_0000 <= x < 0x8000_0000 ==> r == x
    ensures (x - r) % Two32 == 0
  {
    var low := x % Two32;
    if low < 0x8000_0000 then low else low - Two32
  }

  /** The signed high word of a 32-bit value, `(short)((x >> 16) & 0xffff)`. */
  function SignedHighWord(x: int): (r: int)
    ensures -0x8000 <= r < 0x8000
  {
    ToInt16(HighWord(x))
  }

  /** The unsigned high word of a 32-bit value, `(x >> 16) & 0xffff`. */
  function HighWord(x: int): (r: int)
    ensures 0 <= r < Two16
    ensures 0 <= x < Two32 ==> r == x / Two16
  {
    // `>>` on a C# int is an arithmetic shift, which is floor division by 2^16,
    // and so is Dafny's `/` for a positive divisor; `& 0xffff` keeps 16 bits.
    (x / Two16) % Two16
  }
}

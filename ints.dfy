/** Fixed-width machine integers of the C++ source, stated over Dafny's
    unbounded `int`, with the wrap-around of unsigned arithmetic written out. */
module Ints {

  const TwoTo32: int := 0x1_0000_0000
  const TwoTo64: int := 0x1_0000_0000_0000_0000

  /** `unsigned char` / one octet of a buffer. */
  type Byte = x: int | 0 <= x < 0x100

  /** `uint32_t`. */
  type U32 = x: int | 0 <= x < 0x1_0000_0000

  /** `uint64_t`. */
  type U64 = x: int | 0 <= x < 0x1_0000_0000_0000_0000

  /** `int` on the platforms the feed targets. */
  type I32 = x: int | -0x8000_0000 <= x < 0x8000_0000

  /** Unsigned 32-bit arithmetic: the value is reduced modulo 2^32. */
  function Wrap32(x: int): (r: U32)
    ensures 0 <= x < TwoTo32 ==> r == x
    ensures x == TwoTo32 ==> r == 0
  {
    x % TwoTo32
  }

  /** Unsigned 64-bit arithmetic: the value is reduced modulo 2^64. */
  function Wrap64(x: int): (r: U64)
    ensures 0 <= x < TwoTo64 ==> r == x
    ensures TwoTo64 <= x < 2 * TwoTo64 ==> r == x - TwoTo64
    ensures -TwoTo64 <= x < 0 ==> r == x + TwoTo64
  {
    x % TwoTo64
  }

  /** Reducing before an addition gives the same residue as reducing after it. */
  lemma Wrap32AddLeft(a: int, b: int)
    ensures Wrap32(Wrap32(a) + b) == Wrap32(a + b)
  {
  }

  lemma Wrap64AddLeft(a: int, b: int)
    ensures Wrap64(Wrap64(a) + b) == Wrap64(a + b)
  {
  }
}

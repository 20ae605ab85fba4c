/**
 * The C integer types the firmware computes with, and the two C operations whose
 * meaning differs from Dafny's unbounded integers: signed division (which truncates
 * toward zero) and conversion to a narrower signed type (which wraps modulo 2^n on
 * the two's-complement targets the firmware is built for).
 */
module FixedWidth {

  type uint8 = x: int | 0 <= x < 0x100
  type uint16 = x: int | 0 <= x < 0x1_0000
  type int16 = x: int | -0x8000 <= x < 0x8000
  type int32 = x: int | -0x8000_0000 <= x < 0x8000_0000
  type int64 = x: int | -0x8000_0000_0000_0000 <= x < 0x8000_0000_0000_0000

  /** C's `a / b` for a positive divisor: the quotient truncated toward zero. */
  function CDiv(a: int, b: int): (q: int)
    requires b > 0
    ensures a >= 0 ==> q * b <= a < (q + 1) * b
    ensures a < 0 ==> (q - 1) * b < a <= q * b
  {
    if a >= 0 then a / b else -((-a) / b)
  }

  /** `(int16_t)x`: the one value in the int16 range congruent to x modulo 2^16. */
  function WrapInt16(x: int): (r: int16)
    ensures (x - r) % 0x1_0000 == 0
    ensures -0x8000 <= x < 0x8000 ==> r == x
  {
    (x + 0x8000) % 0x1_0000 - 0x8000
  }

  /** `(int32_t)x`, or a 32-bit `int` result that overflowed on a two's-complement target. */
  function WrapInt32(x: int): (r: int32)
    ensures (x - r) % 0x1_0000_0000 == 0
    ensures -0x8000_0000 <= x < 0x8000_0000 ==> r == x
  {
    (x + 0x8000_0000) % 0x1_0000_0000 - 0x8000_0000
  }

  /** Wrapping to 32 bits first never changes what a later cast to int16 yields. */
  lemma WrapInt16AfterWrapInt32(x: int)
    ensures WrapInt16(WrapInt32(x)) == WrapInt16(x)
  {
    var k := (x - WrapInt32(x)) / 0x1_0000_0000;
    assert x == WrapInt32(x) + k * 0x1_0000_0000;
    SameWrapModulo(WrapInt32(x), x, k * 0x1_0000);
  }

  lemma SameWrapModulo(a: int, b: int, k: int)
    requires b == a + k * 0x1_0000
    ensures WrapInt16(a) == WrapInt16(b)
  {
    var ra, rb := WrapInt16(a), WrapInt16(b);
    var ka, kb := (a - ra) / 0x1_0000, (b - rb) / 0x1_0000;
    assert a == ra + ka * 0x1_0000;
    assert b == rb + kb * 0x1_0000;
    assert ra - rb == (kb - ka - k) * 0x1_0000;
  }
}

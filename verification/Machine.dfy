/** Fixed-width machine integers.  Intermediate results wrap as on a two's-complement machine; an
    arithmetic right shift by n is floor division by 2^n, which for a positive divisor is Dafny's `/`. */
module Machine {

  predicate InS16(x: int) { -0x8000 <= x < 0x8000 }
  predicate InU16(x: int) { 0 <= x < 0x1_0000 }
  predicate InS32(x: int) { -0x8000_0000 <= x < 0x8000_0000 }
  predicate InU32(x: int) { 0 <= x < 0x1_0000_0000 }
  predicate InS64(x: int) { -0x8000_0000_0000_0000 <= x < 0x8000_0000_0000_0000 }

  /** The representative of x modulo 2^bits, in lo .. lo + 2^bits. */
  function Wrap(x: int, lo: int, modulus: int): (r: int)
    requires 0 < modulus
    ensures lo <= r < lo + modulus
  {
    (x - lo) % modulus + lo
  }

  function S8(x: int): (r: int)
    ensures -0x80 <= r < 0x80
  {
    if -0x80 <= x < 0x80 then x else Wrap(x, -0x80, 0x100)
  }

  function S16(x: int): (r: int)
    ensures InS16(r)
  {
    if InS16(x) then x else Wrap(x, -0x8000, 0x1_0000)
  }

  function S32(x: int): (r: int)
    ensures InS32(r)
  {
    if InS32(x) then x else Wrap(x, -0x8000_0000, 0x1_0000_0000)
  }

  function U32(x: int): (r: int)
    ensures InU32(r)
  {
    if InU32(x) then x else Wrap(x, 0, 0x1_0000_0000)
  }

  function S64(x: int): (r: int)
    ensures InS64(r)
  {
    if InS64(x) then x else Wrap(x, -0x8000_0000_0000_0000, 0x1_0000_0000_0000_0000)
  }

  /** C division of signed integers, which truncates towards zero. */
  function Quotient(x: int, y: int): int
    requires y != 0
  {
    if x >= 0 then x / y else -((-x) / y)
  }

  lemma MulBound(x: int, y: int, mx: int, my: int)
    requires 0 <= mx && 0 <= my
    requires -mx <= x <= mx && -my <= y <= my
    ensures -(mx * my) <= x * y <= mx * my
  {
    if x >= 0 {
      MulMono(x, y, my);
      MulMono(x, -my, y);
      MulMono(my, x, mx);
    } else {
      MulMono(-x, y, my);
      MulMono(-x, -my, y);
      MulMono(my, -x, mx);
    }
  }

  /** Multiplying by a number that is not negative keeps an inequality. */
  lemma MulMono(k: int, x: int, y: int)
    requires 0 <= k && x <= y
    ensures k * x <= k * y
  {}

  lemma SquareBound(x: int, bound: int)
    requires 0 <= bound
    requires -bound <= x <= bound
    ensures 0 <= x * x <= bound * bound
  {
    MulBound(x, x, bound, bound);
  }
}

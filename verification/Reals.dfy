/** Inequalities between products of reals. */
module Reals {

  /** x and y differ by at most e. */
  predicate Near(x: real, y: real, e: real) { -e <= x - y <= e }

  lemma RealMulMono(k: real, x: real, y: real)
    requires 0.0 <= k && x <= y
    ensures k * x <= k * y
  {}

  lemma RealMulBound(x: real, y: real, mx: real, my: real)
    requires 0.0 <= mx && 0.0 <= my && -mx <= x <= mx && -my <= y <= my
    ensures -(mx * my) <= x * y <= mx * my
  {
    if x >= 0.0 {
      RealMulMono(x, y, my);
      RealMulMono(x, -my, y);
      RealMulMono(my, x, mx);
    } else {
      RealMulMono(-x, y, my);
      RealMulMono(-x, -my, y);
      RealMulMono(my, -x, mx);
    }
  }

  lemma RealMulRange(h: real, mh: real, e: real, lo: real, hi: real)
    requires 0.0 <= h <= mh && lo <= e <= hi && lo <= 0.0 <= hi
    ensures mh * lo <= h * e <= mh * hi
  {
    RealMulMono(h, e, hi);
    RealMulMono(h, lo, e);
    RealMulMono(hi, h, mh);
    RealMulMono(-lo, h, mh);
  }

  lemma IntProduct(a: int, b: int)
    ensures (a * b) as real == a as real * b as real
  {}

  /** A product of approximations, expanded. */
  lemma Expand(x: real, a: real, y: real, b: real)
    ensures x * y == a * b + (x - a) * y + a * (y - b)
  {}

  // Products under a name, so that a proof can hide how they are computed.

  function Times(x: real, y: real): real { x * y }

  function IntTimes(x: int, y: int): int { x * y }

  lemma TimesBound(x: real, y: real, mx: real, my: real, bound: real)
    requires 0.0 <= mx && 0.0 <= my && -mx <= x <= mx && -my <= y <= my && mx * my <= bound
    ensures -bound <= Times(x, y) <= bound
  {
    RealMulBound(x, y, mx, my);
  }

  /** An approximation u of m, and a word p no larger than pmax. */
  lemma TermGap(u: real, m: int, p: int, gap: real, pmax: real, bound: real)
    requires Near(u, m as real, gap) && -pmax <= p as real <= pmax && 0.0 <= gap && 0.0 <= pmax && gap * pmax <= bound
    ensures Near(Times(u, p as real), IntTimes(m, p) as real, bound)
  {
    RealMulBound(u - m as real, p as real, gap, pmax);
    Difference(u, m as real, p as real);
    IntProduct(m, p);
  }

  lemma Difference(x: real, a: real, k: real)
    ensures (x - a) * k == x * k - a * k
  {}
}

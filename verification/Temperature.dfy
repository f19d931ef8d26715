/** Temperature compensation in s32, against the exact formula of the floating-point variant. */
module Temperature {
  import opened Machine
  import opened Calibration

  /** What the s32 code computes for `t_fine`. */
  function TFine(c: Calib, adc: int): int {
    var a := S32(adc / 8 - S32(c.t1 * 2));
    var x1 := S32(a * c.t2) / 2048;
    var b := S32(adc / 16 - c.t1);
    var x2 := S32(S32(b * b) / 4096 * c.t3) / 16384;
    S32(x1 + x2)
  }

  /** What the s32 code computes from `t_fine`: hundredths of a degree. */
  function Hundredths(tFine: int): int {
    S32(S32(tFine * 5) + 128) / 256
  }

  /** The 16-bit variant, in 1/500 of a degree around 24 degrees. */
  function Sixteen(tFine: int): int {
    S16(S32(S32(S32(tFine - 122880) * 25) + 128) / 256)
  }

  /** The formula of the floating-point variant, in exact arithmetic: degrees Celsius. */
  function ExactDegrees(c: Calib, adc: int): real {
    var d1 := (adc as real / 16384.0 - c.t1 as real / 1024.0) * c.t2 as real;
    var d2 := (adc as real / 131072.0 - c.t1 as real / 8192.0)
              * (adc as real / 131072.0 - c.t1 as real / 8192.0) * c.t3 as real;
    (d1 + d2) / 5120.0
  }

  predicate Envelope(c: Calib, adc: int) {
    && InU16(c.t1) && InS16(c.t2) && -8191 <= c.t3 <= 8191
    && -65535 <= adc / 8 - 2 * c.t1 <= 65535
  }

  // ----- no wrap-around -----

  function Linear(t2: int, a: int): int { a * t2 / 2048 }

  function Square(a: int): int { (a / 2) * (a / 2) / 4096 }

  function Quadratic(t3: int, a: int): int { Square(a) * t3 / 16384 }

  /** The same computation without machine limits, from a = adc/8 - 2*T1. */
  function Unbounded(c: Calib, a: int): int {
    Linear(c.t2, a) + Quadratic(c.t3, a)
  }

  lemma SquareRange(a: int)
    requires -65535 <= a <= 65535
    ensures 0 <= (a / 2) * (a / 2) <= 0x4000_0000 && 0 <= Square(a) <= 262144
  {
    SquareBound(a / 2, 32768);
  }

  /** Every s32 step of the temperature computation gets a result that fits. */
  predicate NoStepWraps(c: Calib, adc: int) {
    var a, b := adc / 8 - S32(c.t1 * 2), adc / 16 - c.t1;
    var p, q := S32(a) * c.t2, S32(b) * S32(b);
    var r := S32(q) / 4096 * c.t3;
    var t := S32(p) / 2048 + S32(r) / 16384;
    && InS32(c.t1 * 2) && InS32(a) && InS32(b) && InS32(p) && InS32(q) && InS32(r) && InS32(t)
    && InS32(S32(t) * 5) && InS32(S32(S32(t) * 5) + 128)
  }

  /** The three products fit s32. */
  predicate ProductsFit(c: Calib, adc: int) {
    var b := adc / 16 - c.t1;
    InS32((adc / 8 - 2 * c.t1) * c.t2) && InS32(b * b) && InS32(b * b / 4096 * c.t3)
  }

  /** No step wraps if and only if the three products fit; then the machine computes the unbounded formula.
      (A reading has 20 bits; the range here is wider.) */
  lemma WrapsExactly(c: Calib, adc: int)
    requires InU16(c.t1) && InS16(c.t2) && InS16(c.t3) && -0x80_0000 <= adc < 0x80_0000
    ensures NoStepWraps(c, adc) <==> ProductsFit(c, adc)
    ensures ProductsFit(c, adc) ==>
              var t := Unbounded(c, adc / 8 - 2 * c.t1);
              TFine(c, adc) == t && Hundredths(t) == (5 * t + 128) / 256
  {
    var a, b := adc / 8 - 2 * c.t1, adc / 16 - c.t1;
    assert b == a / 2;
    var p, q := a * c.t2, b * b;
    StepsFit(c, adc, a, b, p, q, q / 4096 * c.t3);
  }

  lemma StepsFit(c: Calib, adc: int, a: int, b: int, p: int, q: int, r: int)
    requires InU16(c.t1) && -0x80_0000 <= adc < 0x80_0000
    requires a == adc / 8 - 2 * c.t1 && b == adc / 16 - c.t1
    requires p == a * c.t2 && q == b * b && r == q / 4096 * c.t3
    ensures NoStepWraps(c, adc) <==> InS32(p) && InS32(q) && InS32(r)
    ensures InS32(p) && InS32(q) && InS32(r) ==>
              var t := p / 2048 + r / 16384;
              TFine(c, adc) == t && Hundredths(t) == (5 * t + 128) / 256
  {
    assert S32(c.t1 * 2) == c.t1 * 2 && S32(a) == a && S32(b) == b;
  }

  /** A sufficient envelope on the words and the reading. */
  lemma NoWrap(c: Calib, adc: int)
    requires Envelope(c, adc)
    ensures NoStepWraps(c, adc)
    ensures TFine(c, adc) == Unbounded(c, adc / 8 - 2 * c.t1)
    ensures -1_180_000 <= TFine(c, adc) <= 1_180_000
  {
    var a := adc / 8 - 2 * c.t1;
    assert adc / 16 - c.t1 == a / 2;
    MulBound(a, c.t2, 65535, 32768);
    SquareRange(a);
    MulBound(Square(a), c.t3, 262144, 8191);
    WrapsExactly(c, adc);
  }

  lemma HundredthsExact(t: int)
    requires -1_180_000 <= t <= 1_180_000
    ensures Hundredths(t) == (5 * t + 128) / 256
  {}

  /** From -40 to 85 degrees the 16-bit variant does not wrap, and is within half a unit of
      500 * (T - 24), where T = t_fine/5120 degrees. */
  lemma SixteenAccurate(t: int)
    requires -204800 <= t <= 435200
    ensures -0.5 <= Sixteen(t) as real - 500.0 * (t as real / 5120.0 - 24.0) <= 0.5
  {
    var n := Sixteen(t);
    assert n == (25 * (t - 122880) + 128) / 256;
    assert -128 <= 256 * n - 25 * (t - 122880) <= 128;
    assert 500.0 * (t as real / 5120.0 - 24.0) == (25 * (t - 122880)) as real / 256.0;
  }

  // ----- accuracy -----

  /** x1 against d*T2/2^14, where d = adc - 16*T1. */
  lemma LinearError(t2: int, d: int)
    requires InS16(t2)
    ensures -14 * 16384 <= d * t2 - 16384 * Linear(t2, d / 8) < 15 * 16384
  {
    var a, e := d / 8, d % 8;
    assert d == 8 * a + e;
    MulBound(e, t2, 7, 32768);
    assert d * t2 == 8 * (a * t2) + e * t2;
  }

  /** b^2/2^12 against d^2/2^20. */
  lemma SquareError(d: int)
    requires -65535 <= d / 8 <= 65535
    ensures -0x100_0000 < d * d - 0x10_0000 * Square(d / 8) < 0x100_0000
  {
    var b, f := d / 16, d % 16;
    assert d / 8 / 2 == b && d == 16 * b + f;
    assert d * d == 256 * (b * b) + f * (32 * b + f) by {
      assert d * d == (16 * b + f) * (16 * b + f);
      assert (16 * b + f) * (16 * b + f) == 256 * (b * b) + 32 * (b * f) + f * f;
      assert f * (32 * b + f) == 32 * (b * f) + f * f;
    }
    MulBound(f, 32 * b + f, 15, 1048576);
  }

  /** x2 against d^2*T3/2^34. */
  lemma QuadraticError(t3: int, d: int)
    requires -8191 <= t3 <= 8191 && -65535 <= d / 8 <= 65535
    ensures -8 * 0x4_0000_0000 < d * d * t3 - 0x4_0000_0000 * Quadratic(t3, d / 8) < 9 * 0x4_0000_0000
  {
    var s := Square(d / 8);
    var g := d * d - 0x10_0000 * s;
    SquareError(d);
    MulBound(g, t3, 0x100_0000, 8191);
    assert d * d * t3 == 0x10_0000 * (s * t3) + g * t3 by {
      assert d * d == 0x10_0000 * s + g;
      assert (0x10_0000 * s + g) * t3 == 0x10_0000 * (s * t3) + g * t3;
    }
  }

  /** The exact temperature in units of 0.01 degree is 5/256 of (d*T2/2^14 + d^2*T3/2^34). */
  lemma ExactAsFraction(c: Calib, adc: int)
    ensures var d := adc - 16 * c.t1;
            100.0 * ExactDegrees(c, adc) * 4398046511104.0 == 5.0 * (1048576 * (d * c.t2) + d * d * c.t3) as real
  {
    var d := adc - 16 * c.t1;
    var dr, t2, t3 := d as real, c.t2 as real, c.t3 as real;
    assert adc as real / 16384.0 - c.t1 as real / 1024.0 == dr / 16384.0;
    assert adc as real / 131072.0 - c.t1 as real / 8192.0 == dr / 131072.0;
    assert ExactDegrees(c, adc) == (dr / 16384.0 * t2 + (dr / 131072.0) * (dr / 131072.0) * t3) / 5120.0;
    assert dr / 16384.0 * t2 == dr * t2 / 16384.0;
    assert (dr / 131072.0) * (dr / 131072.0) * t3 == dr * dr * t3 / 17179869184.0;
    assert (d * c.t2) as real == dr * t2;
    assert (d * d * c.t3) as real == dr * dr * t3 by {
      assert (d * d) as real == dr * dr;
    }
  }

  /** Despite five nested floors, the s32 temperature is within 0.01 degree of the exact one. */
  lemma TemperatureAccurate(c: Calib, adc: int)
    requires Envelope(c, adc)
    ensures -1.0 < Hundredths(TFine(c, adc)) as real - 100.0 * ExactDegrees(c, adc) < 1.0
  {
    var d := adc - 16 * c.t1;
    var t := TFine(c, adc);
    assert d / 8 == adc / 8 - 2 * c.t1;
    NoWrap(c, adc);
    HundredthsExact(t);
    LinearError(c.t2, d);
    QuadraticError(c.t3, d);
    ExactAsFraction(c, adc);
    var h := Hundredths(t);
    var n := 1048576 * (d * c.t2) + d * d * c.t3;
    assert -22 * 0x4_0000_0000 < n - 0x4_0000_0000 * t < 24 * 0x4_0000_0000;
    assert -4398046511104 < 4398046511104 * h - 5 * n < 4398046511104;
    var r := 100.0 * ExactDegrees(c, adc);
    assert r * 4398046511104.0 == (5 * n) as real;
    assert -4398046511104.0 < 4398046511104.0 * (h as real) - r * 4398046511104.0 < 4398046511104.0;
  }

  /** Words and readings within their widths do wrap: a calibration and a reading for which the code
      reports -0.02 degrees where the exact formula gives more than 400. */
  lemma FullRangeWraps()
    ensures exists c: Calib, adc: int ::
              && Words(c) && 0 <= adc < 0x10_0000
              && Hundredths(TFine(c, adc)) == -2 && ExactDegrees(c, adc) > 400.0
  {
    hide ExactDegrees, TFine;
    var c := Calib(0, 32767, 0, 0, 0, 0, 0, 0, 0, 0, 0, 0, 0, 0, 0, 0, 0, 0);
    WrappedTemperature(c);
    assert Words(c) && Hundredths(TFine(c, 0xF_FFFF)) == -2 && ExactDegrees(c, 0xF_FFFF) > 400.0;
  }

  lemma WrappedTemperature(c: Calib)
    requires c.t1 == 0 && c.t2 == 32767 && c.t3 == 0
    ensures TFine(c, 0xF_FFFF) == -80 && ExactDegrees(c, 0xF_FFFF) > 400.0
  {
    assert ExactDegrees(c, 0xF_FFFF) == 1048575.0 / 16384.0 * 32767.0 / 5120.0;
  }

  // ----- monotonicity -----

  /** One step up in a raises the linear term by at least 8 and lowers the quadratic one by at most 8. */
  lemma StepUp(c: Calib, a: int)
    requires 16384 <= c.t2 && -8191 <= c.t3 <= 8191
    requires -65535 <= a < 65535
    ensures Unbounded(c, a) <= Unbounded(c, a + 1)
  {
    assert (a + 1) * c.t2 == a * c.t2 + c.t2;
    assert Linear(c.t2, a) + 8 <= Linear(c.t2, a + 1);
    SquareStep(a);
    var s, s' := Square(a), Square(a + 1);
    MulBound(s' - s, c.t3, 16, 8191);
    assert s' * c.t3 == s * c.t3 + (s' - s) * c.t3;
  }

  lemma SquareStep(a: int)
    requires -65535 <= a < 65535
    ensures -16 <= Square(a + 1) - Square(a) <= 16
  {
    var b, b' := a / 2, (a + 1) / 2;
    if b' != b {
      assert b' == b + 1;
      assert b' * b' == b * b + 2 * b + 1;
    }
  }

  lemma {:induction false} UnboundedMonotone(c: Calib, a: int, a': int)
    requires 16384 <= c.t2 && -8191 <= c.t3 <= 8191
    requires -65535 <= a <= a' <= 65535
    ensures Unbounded(c, a) <= Unbounded(c, a')
    decreases a' - a
  {
    if a < a' {
      StepUp(c, a);
      UnboundedMonotone(c, a + 1, a');
    }
  }

  /** A larger raw reading never gives a smaller t_fine or temperature. */
  lemma TemperatureMonotone(c: Calib, adc: int, adc': int)
    requires Envelope(c, adc) && Envelope(c, adc') && 16384 <= c.t2 && adc <= adc'
    ensures TFine(c, adc) <= TFine(c, adc')
    ensures Hundredths(TFine(c, adc)) <= Hundredths(TFine(c, adc'))
  {
    NoWrap(c, adc);
    NoWrap(c, adc');
    UnboundedMonotone(c, adc / 8 - 2 * c.t1, adc' / 8 - 2 * c.t1);
    HundredthsExact(TFine(c, adc));
    HundredthsExact(TFine(c, adc'));
  }
}

/** The s64 pressure against the formula of the floating-point variant, in exact arithmetic. */
module PressureAccuracy {
  import opened Machine
  import opened Calibration
  import opened Pressure
  import opened Reals

  // ----- the exact formula -----

  function ExactOffset(c: Calib, x: real): real {
    (x * x * c.p6 as real / 32768.0 + x * c.p5 as real * 2.0) / 4.0 + c.p4 as real * 65536.0
  }

  function ExactDivisor(c: Calib, x: real): real {
    (1.0 + (c.p3 as real * x * x / 524288.0 + c.p2 as real * x) / 524288.0 / 32768.0) * c.p1 as real
  }

  function ExactCorrect(c: Calib, p: real): real {
    p + (c.p9 as real * p * p / 2147483648.0 + p * c.p8 as real / 32768.0 + c.p7 as real) / 16.0
  }

  /** Pressure in pascals; 0 stands for invalid data. */
  function ExactPascals(c: Calib, tFine: int, adc: int): real {
    var x := tFine as real / 2.0 - 64000.0;
    var d := ExactDivisor(c, x);
    if d == 0.0 then 0.0
    else ExactCorrect(c, (1048576.0 - adc as real - ExactOffset(c, x) / 4096.0) * 6250.0 / d)
  }

  // ----- numerator and divisor, scaled to the integers of the s64 code -----

  function DivisorReal(c: Calib, v: int): real {
    (140737488355328.0 + (v * v * c.p3) as real / 256.0 + (v * c.p2 * 4096) as real) * c.p1 as real / 8589934592.0
  }

  lemma NumeratorIsExact(c: Calib, v: int, adc: int)
    ensures Numerator(c, v, adc) as real ==
              6710886400000.0 * (1048576.0 - adc as real - ExactOffset(c, v as real / 2.0) / 4096.0)
  {
    var vr := v as real;
    IntProduct(v, v);
    IntProduct(v * v, c.p6);
    IntProduct(v, c.p5);
    OffsetScale(vr, c.p6 as real, c.p5 as real, c.p4 as real);
  }

  lemma OffsetScale(v: real, p6: real, p5: real, p4: real)
    ensures v * v * p6 + v * p5 * 131072.0 + p4 * 34359738368.0
            == 524288.0 * (((v / 2.0) * (v / 2.0) * p6 / 32768.0 + (v / 2.0) * p5 * 2.0) / 4.0 + p4 * 65536.0)
  {}

  lemma DivisorIsExact(c: Calib, v: int)
    ensures DivisorReal(c, v) == 16384.0 * ExactDivisor(c, v as real / 2.0)
  {
    IntProduct(v, v);
    IntProduct(v * v, c.p3);
    IntProduct(v, c.p2);
    DivisorScale(v as real, c.p3 as real, c.p2 as real, c.p1 as real);
  }

  lemma DivisorScale(v: real, p3: real, p2: real, p1: real)
    ensures (140737488355328.0 + v * v * p3 / 256.0 + v * p2 * 4096.0) * p1 / 8589934592.0
            == 16384.0 * ((1.0 + (p3 * (v / 2.0) * (v / 2.0) / 524288.0 + p2 * (v / 2.0)) / 524288.0 / 32768.0) * p1)
  {}

  /** The two floors of the divisor lose hardly more than 1. */
  lemma DivisorError(c: Calib, v: int)
    requires 0 <= c.p1 <= 46000
    ensures 0.0 <= DivisorReal(c, v) - Divisor(c, v) as real <= 1.00001
  {
    var n, k := v * v * c.p3, v * c.p2 * 4096;
    var s := 0x8000_0000_0000 + n / 256 + k;
    var e := n as real / 256.0 - (n / 256) as real;
    assert n as real == 256.0 * (n / 256) as real + (n % 256) as real;
    assert 0.0 <= e <= 1.0;
    assert 140737488355328.0 + n as real / 256.0 + k as real == s as real + e;
    RealMulRange(c.p1 as real, 46000.0, e, 0.0, 1.0);
    IntProduct(s, c.p1);
    SumTimes(s as real, e, c.p1 as real);
    DivisorFloor((s as real + e) * c.p1 as real, s * c.p1);
  }

  lemma SumTimes(s: real, e: real, p: real)
    ensures (s + e) * p == s * p + p * e
  {}

  lemma DivisorFloor(x: real, n: int)
    requires 0.0 <= x - n as real <= 46000.0
    ensures 0.0 <= x / 8589934592.0 - (n / 0x2_0000_0000) as real <= 1.00001
  {
    assert n as real == 8589934592.0 * (n / 0x2_0000_0000) as real + (n % 0x2_0000_0000) as real;
  }

  // ----- the quotient -----

  /** The integer quotient against the real one, r = n / dr. */
  lemma QuotientError(n: int, d: int, dr: real, r: real)
    requires 190_000_000 <= d && 0.0 <= dr - d as real <= 1.00001 && r * dr == n as real
    requires -48_000_000_000 <= Quotient(n, d) <= 48_000_000_000
    ensures Near(Quotient(n, d) as real, r, 254.0)
  {
    var q := Quotient(n, d);
    QuotientRemainder(n, d);
    DividedByLess(n, d, q, dr, r);
  }

  lemma DividedByLess(n: int, d: int, q: int, dr: real, r: real)
    requires 190_000_000 <= d && 0.0 <= dr - d as real <= 1.00001 && r * dr == n as real
    requires -48_000_000_000 <= q <= 48_000_000_000 && -d < n - q * d < d
    ensures Near(q as real, r, 254.0)
  {
    IntProduct(q, d);
    var a, b := q as real * (dr - d as real), n - q * d;
    RealMulBound(q as real, dr - d as real, 48_000_000_000.0, 1.00001);
    assert b as real == n as real - q as real * d as real;
    Deviation(q as real, d as real, dr, r, n as real);
    CancelSum(q as real - r, dr, a, b as real, d as real);
  }

  lemma CancelSum(x: real, dr: real, a: real, b: real, d: real)
    requires x * dr == a - b && -48_000_480_000.0 <= a <= 48_000_480_000.0 && -d <= b <= d && 190_000_000.0 <= d <= dr
    ensures -254.0 <= x <= 254.0
  {
    Cancel(x, dr);
  }

  lemma QuotientRemainder(n: int, d: int)
    requires 0 < d
    ensures -d < n - Quotient(n, d) * d < d
  {
    if n >= 0 {
      assert n == n / d * d + n % d;
    } else {
      assert -n == (-n) / d * d + (-n) % d;
      assert Quotient(n, d) * d == -((-n) / d * d);
    }
  }

  lemma Deviation(q: real, d: real, dr: real, r: real, n: real)
    requires r * dr == n && -d <= n - q * d <= d
    ensures (q - r) * dr == q * (dr - d) - (n - q * d)
  {}

  lemma Cancel(x: real, d: real)
    requires 190_000_000.0 <= d && -48_001_000_000.0 - d <= x * d <= 48_001_000_000.0 + d
    ensures -254.0 <= x <= 254.0
  {
    if x > 254.0 {
      RealMulMono(d, 254.0, x);
    } else if x < -254.0 {
      RealMulMono(d, x, -254.0);
    }
  }

  // ----- the final correction -----

  /** 256 times the exact corrected pressure, from r = 65536 times the uncorrected one. */
  function CorrectReal(c: Calib, r: real): real {
    (r + c.p9 as real * r * r / 2251799813685248.0 + c.p8 as real * r / 524288.0) / 256.0 + 16.0 * c.p7 as real
  }

  lemma CorrectIsExact(c: Calib, p: real)
    ensures CorrectReal(c, 65536.0 * p) == 256.0 * ExactCorrect(c, p)
  {}

  /** P9 * floor(p / 2^13)^2 against P9 * p^2 / 2^26. */
  lemma SquareTerm(p: int, p9: int)
    requires InS16(p9) && -48_000_000_000 <= p <= 48_000_000_000
    ensures var y := p9 * (p / 8192) * (p / 8192);
            -25_767_000_000_000_000_000 <= p * p * p9 - 0x400_0000 * y <= 25_767_000_000_000_000_000
  {
    var q, r := p / 8192, p % 8192;
    assert p == 8192 * q + r;
    SquareOfSum(q, r);
    MulBound(r, 16384 * q + r, 8191, 96_000_100_000);
    MulBound(r * (16384 * q + r), p9, 786_337_000_000_000, 32768);
    Distribute(q, r * (16384 * q + r), p9);
  }

  lemma SquareOfSum(q: int, r: int)
    ensures (8192 * q + r) * (8192 * q + r) == 0x400_0000 * (q * q) + r * (16384 * q + r)
  {}

  lemma Distribute(q: int, e: int, p9: int)
    ensures (0x400_0000 * (q * q) + e) * p9 == 0x400_0000 * (p9 * q * q) + e * p9
  {}

  lemma CorrectFloors(c: Calib, p: int)
    requires InS16(c.p9) && -48_000_000_000 <= p <= 48_000_000_000
    ensures Near(Correct(c, p) as real, CorrectReal(c, p as real), 46.0)
  {
    var y, z := c.p9 * (p / 8192) * (p / 8192), c.p8 * p;
    SquareTerm(p, c.p9);
    IntProduct(p, p);
    IntProduct(p * p, c.p9);
    IntProduct(c.p8, p);
    Commute(c.p9 as real, p as real);
    SumFloors(p, y, z, c.p7, p * p * c.p9);
  }

  lemma Commute(a: real, b: real)
    ensures b * b * a == a * b * b
  {}

  lemma SumFloors(p: int, y: int, z: int, p7: int, s: int)
    requires -25_767_000_000_000_000_000 <= s - 0x400_0000 * y <= 25_767_000_000_000_000_000
    ensures Near(Sum(p, y, z, p7) as real,
                 (p as real + s as real / 2251799813685248.0 + z as real / 524288.0) / 256.0 + 16.0 * p7 as real, 46.0)
  {
    var a, b := y / 0x200_0000, z / 0x8_0000;
    var n := p + a + b;
    assert y as real == 33554432.0 * a as real + (y % 0x200_0000) as real;
    assert z as real == 524288.0 * b as real + (z % 0x8_0000) as real;
    assert n as real == 256.0 * (n / 256) as real + (n % 256) as real;
    assert Near(s as real / 2251799813685248.0, y as real / 33554432.0, 11443.0);
  }

  lemma CorrectLipschitz(c: Calib, p: real, r: real)
    requires InS16(c.p9) && InS16(c.p8)
    requires Near(p, 0.0, 48_000_000_000.0) && Near(p, r, 254.0)
    ensures Near(CorrectReal(c, p), CorrectReal(c, r), 3.0)
  {
    hide Times, CorrectReal;
    var s := Times(p + r, p - r);
    TimesBound(p + r, p - r, 96_000_000_254.0, 254.0, 24_384_000_100_000.0);
    TimesBound(s, c.p9 as real, 24_384_000_100_000.0, 32768.0, 799_014_920_000_000_000.0);
    TimesBound(p - r, c.p8 as real, 254.0, 32768.0, 8_323_072.0);
    CorrectDiffers(c, p, r);
  }

  lemma CorrectDiffers(c: Calib, p: real, r: real)
    ensures CorrectReal(c, p) - CorrectReal(c, r) ==
              ((p - r) + Times(Times(p + r, p - r), c.p9 as real) / 2251799813685248.0
               + Times(p - r, c.p8 as real) / 524288.0) / 256.0
  {
    SquaresDiffer(p, r, c.p9 as real);
    LinesDiffer(p, r, c.p8 as real);
  }

  lemma SquaresDiffer(p: real, r: real, k: real)
    ensures k * p * p - k * r * r == (p + r) * (p - r) * k
  {}

  lemma LinesDiffer(p: real, r: real, k: real)
    ensures k * p - k * r == (p - r) * k
  {}

  // ----- the result -----

  /** 65536 times the exact uncorrected pressure. */
  function ExactRatio(c: Calib, v: int, adc: int): real
    requires DivisorReal(c, v) != 0.0
  {
    Numerator(c, v, adc) as real / DivisorReal(c, v)
  }

  lemma RatioIsExact(c: Calib, tFine: int, adc: int)
    requires DivisorReal(c, tFine - 128000) > 0.0
    ensures CorrectReal(c, ExactRatio(c, tFine - 128000, adc)) == 256.0 * ExactPascals(c, tFine, adc)
  {
    hide CorrectReal, ExactCorrect, ExactOffset, ExactDivisor, DivisorReal, Numerator;
    var v := tFine - 128000;
    var x := v as real / 2.0;
    assert x == tFine as real / 2.0 - 64000.0;
    NumeratorIsExact(c, v, adc);
    DivisorIsExact(c, v);
    var m, d := 1048576.0 - adc as real - ExactOffset(c, x) / 4096.0, ExactDivisor(c, x);
    RatioScale(m, d);
    CorrectIsExact(c, m * 6250.0 / d);
  }

  lemma RatioScale(m: real, d: real)
    requires d != 0.0
    ensures 6710886400000.0 * m / (16384.0 * d) == 65536.0 * (m * 6250.0 / d)
  {
    assert 6710886400000.0 * m == 65536.0 * (m * 6250.0) * 16384.0;
    DivideBoth(65536.0 * (m * 6250.0), d);
    assert 65536.0 * (m * 6250.0) / d == 65536.0 * (m * 6250.0 / d);
  }

  lemma DivideBoth(a: real, d: real)
    requires d != 0.0
    ensures a * 16384.0 / (16384.0 * d) == a / d
  {
    var q := a / d;
    assert q * d == a;
    assert q * (16384.0 * d) == a * 16384.0;
  }

  /** Within the envelope the signed s64 result is within 49/256 (0.19) pascal of the exact pressure;
      where that is at least one pascal, the stored result is, too. */
  lemma PressureAccurate(c: Calib, tFine: int, adc: int)
    requires Envelope64(c, tFine, adc)
    ensures Pascals256(c, tFine, adc) == U32(Unbounded256(c, tFine, adc))
    ensures Near(Unbounded256(c, tFine, adc) as real, 256.0 * ExactPascals(c, tFine, adc), 49.0)
    ensures ExactPascals(c, tFine, adc) >= 1.0 ==>
              Near(Pascals256(c, tFine, adc) as real, 256.0 * ExactPascals(c, tFine, adc), 49.0)
  {
    hide Correct, CorrectReal, Numerator, Divisor, DivisorReal, ExactPascals, Pascals256, Quotient;
    var v := tFine - 128000;
    var n, d := Numerator(c, v, adc), Divisor(c, v);
    EnvelopeBounds(c, tFine, adc);
    DivisorError(c, v);
    var q := Quotient(n, d);
    var r := ExactRatio(c, v, adc);
    assert r * DivisorReal(c, v) == n as real;
    QuotientError(n, d, DivisorReal(c, v), r);
    assert Unbounded256(c, tFine, adc) == Correct(c, q);
    CorrectFloors(c, q);
    CorrectLipschitz(c, q as real, r);
    RatioIsExact(c, tFine, adc);
    CorrectInRange(c, q);
    Pressure64Exact(c, tFine, adc);
  }

  /** The 24-bit variant, in 1/128 of a pascal, keeps that accuracy but for the bit it drops. */
  lemma HalfAccurate(c: Calib, tFine: int, adc: int)
    requires Envelope64(c, tFine, adc) && ExactPascals(c, tFine, adc) >= 1.0
    ensures Near(Pascals128(c, tFine, adc) as real, 128.0 * ExactPascals(c, tFine, adc), 25.0)
  {
    hide Envelope64, ExactPascals, Pascals256;
    PressureAccurate(c, tFine, adc);
    var n := Pascals256(c, tFine, adc);
    assert n as real == 2.0 * (n / 2) as real + (n % 2) as real;
  }

  lemma EnvelopeBounds(c: Calib, tFine: int, adc: int)
    requires Envelope64(c, tFine, adc)
    ensures var v := tFine - 128000;
            && Divisor(c, v) >= 190_000_000
            && -48_000_000_000 <= Quotient(Numerator(c, v, adc), Divisor(c, v)) <= 48_000_000_000
  {
    var v := tFine - 128000;
    Numerator64Exact(c, v, adc);
    Divisor64Exact(c, v);
    QuotientBound(Numerator(c, v, adc), Divisor(c, v));
  }

  lemma CorrectInRange(c: Calib, p: int)
    requires Words(c) && -48_000_000_000 <= p <= 48_000_000_000
    ensures Correct(c, p) < 0x1_0000_0000
  {
    CorrectionBound64(c.p9, p / 8192);
    MulBound(c.p8, p, 32768, 48_000_000_000);
  }
}

/** The s32 pressure, the one the sensor reports, against the formula of the floating-point variant. */
module PressureAccuracy32 {
  import opened Machine
  import opened Calibration
  import opened Pressure
  import opened PressureAccuracy
  import opened Reals

  // x is the temperature as the s32 code halves it, xr the exact half.

  predicate Halved(x: int, xr: real) {
    -166400 <= x <= 153600 && 0.0 <= xr - x as real <= 0.5
  }

  /** The s32 code takes the square of x/4, that is, without the two low bits of x. */
  function QuarterSquare(x: int): int { (x / 4) * (x / 4) }

  lemma SquareGap(x: int, xr: real)
    requires Halved(x, xr)
    ensures Near(Times(xr, xr), 16.0 * QuarterSquare(x) as real, 1_165_000.0)
  {
    var k := x / 4;
    var kr, e := k as real, xr - 4.0 * k as real;
    assert x as real == 4.0 * kr + (x % 4) as real;
    RealMulBound(e, 8.0 * kr + e, 3.5, 332_804.0);
    SquareSplit(kr, e);
    IntProduct(k, k);
    assert xr == 4.0 * kr + e;
  }

  lemma SquareSplit(k: real, e: real)
    ensures (4.0 * k + e) * (4.0 * k + e) == 16.0 * (k * k) + e * (8.0 * k + e)
  {}

  lemma ScaledSquareGap(x: int, xr: real)
    requires Halved(x, xr)
    ensures Near(Times(xr, xr) / 32768.0, (QuarterSquare(x) / 2048) as real, 36.6)
    ensures Near(Times(xr, xr) / 131072.0, (QuarterSquare(x) / 8192) as real, 9.9)
    ensures Near(xr, x as real, 0.5)
  {
    hide Times, QuarterSquare;
    SquareGap(x, xr);
    SquareFloors(QuarterSquare(x), Times(xr, xr));
  }

  lemma SquareFloors(s: int, y: real)
    requires Near(y, 16.0 * s as real, 1_165_000.0)
    ensures Near(y / 32768.0, (s / 2048) as real, 36.6) && Near(y / 131072.0, (s / 8192) as real, 9.9)
  {
    assert s as real == 2048.0 * (s / 2048) as real + (s % 2048) as real;
    assert s as real == 8192.0 * (s / 8192) as real + (s % 8192) as real;
  }

  // ----- numerator -----

  function RawReal(c: Calib, xr: real, adc: int): real {
    1048576.0 - adc as real - ExactOffset(c, xr) / 4096.0
  }

  lemma RawGap(c: Calib, x: int, xr: real, adc: int)
    requires Halved(x, xr) && -1024 <= c.p5 <= 1024 && -512 <= c.p6 <= 512
    ensures Near(RawPressure(c, x, adc) as real, RawReal(c, xr, adc), 2.25)
  {
    hide Near, Times, IntTimes, QuarterSquare, RawPressure, ExactOffset;
    var m, u := QuarterSquare(x) / 2048, Times(xr, xr) / 32768.0;
    ScaledSquareGap(x, xr);
    TermGap(u, m, c.p6, 36.6, 512.0, 18740.0);
    TermGap(xr, x, c.p5, 0.5, 1024.0, 512.0);
    ExactOffsetIs(c, xr);
    RawPressureIs(c, x, adc);
    OffsetFloors(IntTimes(m, c.p6), IntTimes(x, c.p5), c.p4, Times(u, c.p6 as real), Times(xr, c.p5 as real), adc);
  }

  lemma ExactOffsetIs(c: Calib, xr: real)
    ensures ExactOffset(c, xr) ==
              (Times(Times(xr, xr) / 32768.0, c.p6 as real) + Times(xr, c.p5 as real) * 2.0) / 4.0
                  + c.p4 as real * 65536.0
  {
    ScaleFirst(xr * xr, c.p6 as real, 32768.0);
  }

  lemma ScaleFirst(y: real, k: real, d: real)
    requires d > 0.0
    ensures y * k / d == y / d * k
  {
    var q := y / d;
    assert q * d == y;
    assert q * k * d == y * k;
  }

  lemma RawPressureIs(c: Calib, x: int, adc: int)
    ensures RawPressure(c, x, adc) ==
              1048576 - adc - ((IntTimes(QuarterSquare(x) / 2048, c.p6) + IntTimes(x, c.p5) * 2) / 4
                               + c.p4 * 0x1_0000) / 4096
  {}

  lemma OffsetFloors(a: int, b: int, p4: int, ar: real, br: real, adc: int)
    requires Near(ar, a as real, 18740.0) && Near(br, b as real, 512.0)
    ensures Near((1048576 - adc - ((a + b * 2) / 4 + p4 * 0x1_0000) / 4096) as real,
                 1048576.0 - adc as real - ((ar + br * 2.0) / 4.0 + p4 as real * 65536.0) / 4096.0, 2.25)
  {
    var n := (a + b * 2) / 4 + p4 * 0x1_0000;
    assert (a + b * 2) as real == 4.0 * ((a + b * 2) / 4) as real + ((a + b * 2) % 4) as real;
    assert n as real == 4096.0 * (n / 4096) as real + (n % 4096) as real;
  }

  // ----- divisor -----

  function ScaleReal(c: Calib, xr: real): real {
    (c.p3 as real * xr * xr / 524288.0 + c.p2 as real * xr) / 524288.0
  }

  function ScaleInt(c: Calib, x: int): int {
    Scale(c.p3 * ((x / 4) * (x / 4) / 8192), c.p2 * x)
  }

  lemma ScaleGap(c: Calib, x: int, xr: real)
    requires Halved(x, xr) && -12288 <= c.p2 <= 12288 && -8192 <= c.p3 <= 8192
    ensures -0.051 <= ScaleReal(c, xr) - ScaleInt(c, x) as real <= 1.051
  {
    hide Near, Times, IntTimes, QuarterSquare, ScaleReal, ScaleInt, Scale;
    var m, u := QuarterSquare(x) / 8192, Times(xr, xr) / 131072.0;
    ScaledSquareGap(x, xr);
    TermGap(u, m, c.p3, 9.9, 8192.0, 81101.0);
    TermGap(xr, x, c.p2, 0.5, 12288.0, 6144.0);
    ScaleRealIs(c, xr);
    ScaleIntIs(c, x);
    ScaleFloors(IntTimes(m, c.p3), IntTimes(x, c.p2), Times(u, c.p3 as real), Times(xr, c.p2 as real));
  }

  lemma ScaleRealIs(c: Calib, xr: real)
    ensures ScaleReal(c, xr) ==
              (Times(Times(xr, xr) / 131072.0, c.p3 as real) / 8.0 + Times(xr, c.p2 as real) / 2.0) / 262144.0
  {
    ScaleFirst(xr * xr, c.p3 as real, 131072.0);
    Rotate(c.p3 as real, xr);
  }

  lemma Rotate(p: real, x: real)
    ensures p * x * x == x * x * p
  {}

  lemma ScaleIntIs(c: Calib, x: int)
    ensures ScaleInt(c, x) == Scale(IntTimes(QuarterSquare(x) / 8192, c.p3), IntTimes(x, c.p2))
  {}

  lemma ScaleFloors(a: int, b: int, ar: real, br: real)
    requires Near(ar, a as real, 81101.0) && Near(br, b as real, 6144.0)
    ensures -0.051 <= (ar / 8.0 + br / 2.0) / 262144.0 - Scale(a, b) as real <= 1.051
  {
    var n := a / 8 + b / 2;
    assert a as real == 8.0 * (a / 8) as real + (a % 8) as real;
    assert b as real == 2.0 * (b / 2) as real + (b % 2) as real;
    assert n as real == 262144.0 * (n / 0x4_0000) as real + (n % 0x4_0000) as real;
  }

  lemma DivisorGap(c: Calib, x: int, xr: real)
    requires Halved(x, xr) && 0 <= c.p1 <= 46000 && -12288 <= c.p2 <= 12288 && -8192 <= c.p3 <= 8192
    ensures -0.08 <= ExactDivisor(c, xr) - DivisorOf(c, x) as real <= 2.48
  {
    hide Times, IntTimes, ExactDivisor, DivisorOf, ScaleReal, ScaleInt;
    var s, sr := ScaleInt(c, x), ScaleReal(c, xr);
    ScaleGap(c, x, xr);
    TimesP1(sr, s, c.p1);
    DivisorFloors(IntTimes(32768 + s, c.p1), Times(32768.0 + sr, c.p1 as real));
    DivisorsAre(c, x, xr);
  }

  lemma TimesP1(sr: real, s: int, p1: int)
    requires 0 <= p1 <= 46000 && -0.051 <= sr - s as real <= 1.051
    ensures -2346.0 <= Times(32768.0 + sr, p1 as real) - IntTimes(32768 + s, p1) as real <= 48346.0
  {
    RealMulRange(p1 as real, 46000.0, sr - s as real, -0.051, 1.051);
    Difference(32768.0 + sr, (32768 + s) as real, p1 as real);
    IntProduct(32768 + s, p1);
  }

  lemma DivisorsAre(c: Calib, x: int, xr: real)
    ensures ExactDivisor(c, xr) == Times(32768.0 + ScaleReal(c, xr), c.p1 as real) / 32768.0
    ensures DivisorOf(c, x) == IntTimes(32768 + ScaleInt(c, x), c.p1) / 32768
  {
    DivideFirst(ScaleReal(c, xr), c.p1 as real);
  }

  lemma DivideFirst(s: real, p1: real)
    ensures (1.0 + s / 32768.0) * p1 == (32768.0 + s) * p1 / 32768.0
  {}

  lemma DivisorFloors(n: int, x: real)
    requires -2346.0 <= x - n as real <= 48346.0
    ensures -0.08 <= x / 32768.0 - (n / 32768) as real <= 2.48
  {
    assert n as real == 32768.0 * (n / 32768) as real + (n % 32768) as real;
  }

  // ----- quotient -----

  /** How far the integer quotient q, of divisor d, is from the exact one. */
  function QuotientGap(q: int, d: int): real
    requires d > 0
  {
    2.9 + 2.5 * (q as real / d as real)
  }

  lemma QuotientClose(raw: int, rawR: real, d: int, dr: real, q: int, e: real)
    requires 17000 <= d <= 53000 && -0.08 <= dr - d as real <= 2.48 && Near(raw as real, rawR, 2.25)
    requires 0 <= q <= 180000 && 6250 * raw - 2 * d <= IntTimes(q, d) <= 6250 * raw
    requires Times(e, dr) == 6250.0 * rawR
    ensures Near(q as real, e, QuotientGap(q, d))
  {
    hide Near, Times;
    var qr, t := q as real, q as real / d as real;
    RatioTimes(qr, d as real);
    RatioAtMost(t, qr, d as real);
    IntTimesAsReal(q, d);
    ProductGap(qr, d as real, dr, e, raw as real, rawR);
    Divided(qr, e, dr, d as real, t);
  }

  lemma IntTimesAsReal(a: int, b: int)
    ensures IntTimes(a, b) as real == Times(a as real, b as real)
  {}

  lemma ProductGap(q: real, d: real, dr: real, e: real, raw: real, rawR: real)
    requires 0.0 <= q && 0.0 <= d && -0.08 <= dr - d <= 2.48 && Near(raw, rawR, 2.25) && Times(e, dr) == 6250.0 * rawR
    requires 6250.0 * raw - 2.0 * d <= Times(q, d) <= 6250.0 * raw
    ensures -(2.0 * d + 14063.0 + 2.48 * q) <= Times(q - e, dr) <= 2.0 * d + 14063.0 + 2.48 * q
  {
    hide Times;
    TimesDivisorGap(q, dr - d);
    ProductParts(q, d, dr, e);
    ProductSum(q, d, Times(q, d), Times(q, dr - d), Times(e, dr), raw, rawR);
  }

  lemma ProductSum(q: real, d: real, qd: real, w: real, edr: real, raw: real, rawR: real)
    requires 0.0 <= q && 0.0 <= d && Near(raw, rawR, 2.25) && edr == 6250.0 * rawR
    requires 6250.0 * raw - 2.0 * d <= qd <= 6250.0 * raw && -0.08 * q <= w <= 2.48 * q
    ensures -(2.0 * d + 14063.0 + 2.48 * q) <= qd + w - edr <= 2.0 * d + 14063.0 + 2.48 * q
  {}

  lemma TimesDivisorGap(q: real, e: real)
    requires 0.0 <= q && -0.08 <= e <= 2.48
    ensures -0.08 * q <= Times(q, e) <= 2.48 * q
  {
    RealMulMono(q, -0.08, e);
    RealMulMono(q, e, 2.48);
  }

  lemma ProductParts(q: real, d: real, dr: real, e: real)
    ensures Times(q - e, dr) == Times(q, d) + Times(q, dr - d) - Times(e, dr)
  {}

  lemma RatioAtMost(t: real, q: real, d: real)
    requires Times(t, d) == q && 0.0 <= q <= 180000.0 && 17000.0 <= d
    ensures 0.0 <= t <= 10.6
  {
    if t < 0.0 {
      RealMulMono(d, t, 0.0);
    }
    if t > 10.6 {
      RealMulMono(t, 17000.0, d);
    }
  }

  lemma Divided(q: real, e: real, dr: real, d: real, t: real)
    requires 17000.0 <= d && -0.08 <= dr - d <= 2.48 && 0.0 <= t <= 10.6 && Times(t, d) == q
    requires -(2.0 * d + 14063.0 + 2.48 * q) <= Times(q - e, dr) <= 2.0 * d + 14063.0 + 2.48 * q
    ensures Near(q, e, 2.9 + 2.5 * t)
  {
    var b, x := 2.9 + 2.5 * t, q - e;
    LowerProduct(t, d, dr);
    if x > b {
      RealMulMono(dr, b, x);
    } else if x < -b {
      RealMulMono(dr, x, -b);
    }
  }

  /** The gap times the divisor exceeds the error of the product. */
  lemma LowerProduct(t: real, d: real, dr: real)
    requires 17000.0 <= d && -0.08 <= dr - d && 0.0 <= t <= 10.6
    ensures dr * (2.9 + 2.5 * t) > 2.0 * d + 14063.0 + 2.48 * (t * d)
  {
    var b := 2.9 + 2.5 * t;
    RealMulMono(b, d - 0.08, dr);
    RealMulMono(d, 0.0, t);
    assert b * (d - 0.08) == 2.9 * d + 2.5 * (t * d) - 0.08 * b;
  }

  // ----- correction -----

  lemma CorrectGap(c: Calib, q: int)
    requires InS16(c.p9) && InS16(c.p8) && 0 <= q <= 180000
    ensures Near(CorrectOf(c, q) as real, ExactCorrect(c, q as real), 4.3)
  {
    hide Near, Times, IntTimes, CorrectOf, ExactCorrect;
    var qr, m := q as real, (q / 8) * (q / 8) / 8192;
    SquareTermGap(q, c.p9);
    LinearTermGap(q, c.p8);
    CorrectFloors(q, IntTimes(m, c.p9), IntTimes(q / 4, c.p8), c.p7, Times(Times(qr, qr) / 524288.0, c.p9 as real),
                  Times(qr, c.p8 as real));
    CorrectOfIs(c, q);
    ExactCorrectIs(c, qr);
  }

  lemma SquareTermGap(q: int, p9: int)
    requires InS16(p9) && 0 <= q <= 180000
    ensures Near(Times(Times(q as real, q as real) / 524288.0, p9 as real),
                 IntTimes((q / 8) * (q / 8) / 8192, p9) as real, 190_800.0)
  {
    var s := (q / 8) * (q / 8);
    EighthSquareRange(q);
    IntProduct(q, q);
    assert s as real == 8192.0 * (s / 8192) as real + (s % 8192) as real;
    TermGap(Times(q as real, q as real) / 524288.0, s / 8192, p9, 5.82, 32768.0, 190_800.0);
  }

  lemma EighthSquareRange(q: int)
    requires 0 <= q <= 180000
    ensures 0 <= q * q - 64 * ((q / 8) * (q / 8)) <= 2_520_049
  {
    var j, f := q / 8, q % 8;
    assert q == 8 * j + f;
    EighthSquare(j, f);
    MulBound(f, 16 * j + f, 7, 360_007);
    MulMono(f, 0, 16 * j + f);
  }

  lemma EighthSquare(j: int, f: int)
    ensures (8 * j + f) * (8 * j + f) == 64 * (j * j) + f * (16 * j + f)
  {}

  lemma LinearTermGap(q: int, p8: int)
    requires InS16(p8) && 0 <= q
    ensures Near(Times(q as real, p8 as real), 4.0 * IntTimes(q / 4, p8) as real, 98304.0)
  {
    var k, g := q / 4, q % 4;
    assert q as real == 4.0 * k as real + g as real;
    RealMulBound(g as real, p8 as real, 3.0, 32768.0);
    IntProduct(k, p8);
    FourTimes(k as real, g as real, p8 as real);
  }

  lemma FourTimes(k: real, g: real, p: real)
    ensures (4.0 * k + g) * p == 4.0 * (k * p) + g * p
  {}

  lemma CorrectFloors(q: int, y: int, z: int, p7: int, yr: real, zr: real)
    requires Near(yr, y as real, 190_800.0) && Near(zr, 4.0 * z as real, 98304.0)
    ensures Near(SumOf(q, y, z, p7) as real, q as real + (yr / 4096.0 + zr / 32768.0 + p7 as real) / 16.0, 4.3)
  {
    var n := y / 4096 + z / 8192 + p7;
    assert y as real == 4096.0 * (y / 4096) as real + (y % 4096) as real;
    assert z as real == 8192.0 * (z / 8192) as real + (z % 8192) as real;
    assert n as real == 16.0 * (n / 16) as real + (n % 16) as real;
  }

  lemma CorrectOfIs(c: Calib, q: int)
    ensures CorrectOf(c, q) == SumOf(q, IntTimes((q / 8) * (q / 8) / 8192, c.p9), IntTimes(q / 4, c.p8), c.p7)
  {}

  lemma ExactCorrectIs(c: Calib, q: real)
    ensures ExactCorrect(c, q) ==
              q + (Times(Times(q, q) / 524288.0, c.p9 as real) / 4096.0 + Times(q, c.p8 as real) / 32768.0
                   + c.p7 as real) / 16.0
  {
    ScaleFirst(q * q, c.p9 as real, 524288.0);
    Rotate(c.p9 as real, q);
  }

  lemma ExactCorrectLipschitz(c: Calib, q: real, e: real, b: real)
    requires InS16(c.p9) && InS16(c.p8) && 0.0 <= q <= 180000.0 && Near(q, e, b) && 0.0 <= b <= 30.0
    ensures Near(ExactCorrect(c, q), ExactCorrect(c, e), 1.41 * b)
  {
    hide Times, ExactCorrect;
    var p9, p8 := c.p9 as real, c.p8 as real;
    var s := Times(q + e, q - e);
    TimesBound(q + e, q - e, 360_030.0, b, 360_030.0 * b);
    TimesBound(s, p9, 360_030.0 * b, 32768.0, 11_797_463_040.0 * b);
    TimesBound(q - e, p8, b, 32768.0, 32768.0 * b);
    ExactCorrectDiffers(c, q, e);
    GapSum(q - e, Times(s, p9), Times(q - e, p8), b);
  }

  lemma ExactCorrectDiffers(c: Calib, q: real, e: real)
    ensures ExactCorrect(c, q) - ExactCorrect(c, e) ==
              (q - e) + (Times(Times(q + e, q - e), c.p9 as real) / 2147483648.0
                         + Times(q - e, c.p8 as real) / 32768.0) / 16.0
  {
    SquaresApart(q, e, c.p9 as real);
    Difference(q, e, c.p8 as real);
  }

  lemma SquaresApart(q: real, e: real, k: real)
    ensures k * q * q - k * e * e == (q + e) * (q - e) * k
  {}

  lemma GapSum(d: real, a: real, z: real, b: real)
    requires 0.0 <= b && -b <= d <= b && -11_797_463_040.0 * b <= a <= 11_797_463_040.0 * b
             && -32768.0 * b <= z <= 32768.0 * b
    ensures -1.41 * b <= d + (a / 2147483648.0 + z / 32768.0) / 16.0 <= 1.41 * b
  {}

  // ----- the result -----

  /** The integer quotient that the s32 code reaches. */
  function MachineQuotient(c: Calib, x: int, adc: int): int {
    if DivisorOf(c, x) <= 0 then 0
    else ExactQuotient(c, x, adc) - Loss(3125 * RawPressure(c, x, adc), DivisorOf(c, x))
  }

  /** The s32 result, as a signed integer, before it is stored as u32. */
  function Signed(c: Calib, tFine: int, adc: int): int {
    CorrectOf(c, MachineQuotient(c, tFine / 2 - 64000, adc))
  }

  /** The error bound in pascals, from the quotient and the divisor. */
  function Gap(c: Calib, tFine: int, adc: int): real {
    var x := tFine / 2 - 64000;
    if DivisorOf(c, x) <= 0 then 0.0
    else 9.0 + 4.0 * (MachineQuotient(c, x, adc) as real / DivisorOf(c, x) as real)
  }

  /** Neither the value before the division nor the quotient is out of range. */
  predicate Divisible(c: Calib, tFine: int, adc: int) {
    RawPressure(c, tFine / 2 - 64000, adc) >= 0 && ExactQuotient(c, tFine / 2 - 64000, adc) <= 180000
  }

  predicate InRange(c: Calib, tFine: int, adc: int) {
    Envelope32(c, tFine, adc) && Divisible(c, tFine, adc)
  }

  lemma MachineQuotientRange(c: Calib, x: int, adc: int)
    requires 0 <= RawPressure(c, x, adc) && 17000 <= DivisorOf(c, x) <= 53000
    ensures var raw, d, q := RawPressure(c, x, adc), DivisorOf(c, x), MachineQuotient(c, x, adc);
            0 <= q <= ExactQuotient(c, x, adc) && 6250 * raw - 2 * d <= IntTimes(q, d) <= 6250 * raw
  {
    QuotientRange(RawPressure(c, x, adc), DivisorOf(c, x));
  }

  lemma QuotientRange(raw: int, d: int)
    requires 0 <= raw && 17000 <= d <= 53000
    ensures var q := 2 * (3125 * raw) / d - Loss(3125 * raw, d);
            0 <= q <= 2 * (3125 * raw) / d && 6250 * raw - 2 * d <= IntTimes(q, d) <= 6250 * raw
  {
    var n := 2 * (3125 * raw);
    assert n == n / d * d + n % d;
    TwiceQuotient(3125 * raw, d);
    var l := Loss(3125 * raw, d);
    assert (n / d - l) * d == n / d * d - l * d;
  }

  lemma RatioTimes(n: real, d: real)
    requires d != 0.0
    ensures Times(n / d, d) == n
  {}

  lemma QuotientAccurate(c: Calib, tFine: int, adc: int)
    requires InRange(c, tFine, adc)
    ensures var x, xr := tFine / 2 - 64000, tFine as real / 2.0 - 64000.0;
            var d, dr, q := DivisorOf(c, x), ExactDivisor(c, xr), MachineQuotient(c, x, adc);
            17000 <= d && 0.0 < dr && 0 <= q <= 180000 && Near(q as real, RealQuotient(c, xr, adc), QuotientGap(q, d))
  {
    hide ExactDivisor, RawPressure, RawReal, DivisorOf, Near, Loss, QuotientGap, ExactQuotient, MachineQuotient,
         RealQuotient;
    var x, xr := tFine / 2 - 64000, tFine as real / 2.0 - 64000.0;
    Divisor32Exact(c, x);
    HalvedIs(tFine);
    DivisorGap(c, x, xr);
    RawGap(c, x, xr, adc);
    QuotientOf(c, x, xr, adc);
  }

  /** The exact uncorrected pressure. */
  function RealQuotient(c: Calib, xr: real, adc: int): real {
    if ExactDivisor(c, xr) == 0.0 then 0.0 else RawReal(c, xr, adc) * 6250.0 / ExactDivisor(c, xr)
  }

  lemma RealQuotientTimes(c: Calib, xr: real, adc: int)
    requires ExactDivisor(c, xr) != 0.0
    ensures Times(RealQuotient(c, xr, adc), ExactDivisor(c, xr)) == 6250.0 * RawReal(c, xr, adc)
  {
    hide ExactDivisor, RawReal;
  }

  lemma QuotientOf(c: Calib, x: int, xr: real, adc: int)
    requires 17000 <= DivisorOf(c, x) <= 53000 && -0.08 <= ExactDivisor(c, xr) - DivisorOf(c, x) as real <= 2.48
    requires 0 <= RawPressure(c, x, adc) && Near(RawPressure(c, x, adc) as real, RawReal(c, xr, adc), 2.25)
    requires ExactQuotient(c, x, adc) <= 180000
    ensures var q := MachineQuotient(c, x, adc);
            0 <= q <= 180000 && Near(q as real, RealQuotient(c, xr, adc), QuotientGap(q, DivisorOf(c, x)))
  {
    hide Near, QuotientGap, RawPressure, DivisorOf, ExactQuotient, MachineQuotient, Times, IntTimes, ExactDivisor,
         RawReal, RealQuotient;
    MachineQuotientRange(c, x, adc);
    RealQuotientTimes(c, xr, adc);
    QuotientClose(RawPressure(c, x, adc), RawReal(c, xr, adc), DivisorOf(c, x), ExactDivisor(c, xr),
                  MachineQuotient(c, x, adc), RealQuotient(c, xr, adc));
  }

  /** In range, the s32 result is within 9 + 4*q/d pascals of the exact pressure, which is at most 52. */
  lemma PressureAccurate32(c: Calib, tFine: int, adc: int)
    requires InRange(c, tFine, adc)
    ensures Pascals(c, tFine, adc) == U32(Signed(c, tFine, adc))
    ensures Near(Signed(c, tFine, adc) as real, ExactPascals(c, tFine, adc), Gap(c, tFine, adc))
    ensures Gap(c, tFine, adc) <= 52.0
  {
    hide ExactCorrect, ExactDivisor, CorrectOf, RawPressure, RawReal, DivisorOf, Pascals, Near, Loss, ExactPascals,
         ExactQuotient, RealQuotient, Times;
    var x, xr := tFine / 2 - 64000, tFine as real / 2.0 - 64000.0;
    Pressure32Exact(c, tFine, adc);
    QuotientAccurate(c, tFine, adc);
    var q, d, e := MachineQuotient(c, x, adc), DivisorOf(c, x), RealQuotient(c, xr, adc);
    var t := q as real / d as real;
    RatioTimes(q as real, d as real);
    RatioAtMost(t, q as real, d as real);
    CorrectGap(c, q);
    ExactCorrectLipschitz(c, q as real, e, QuotientGap(q, d));
    ExactPascalsIs(c, tFine, adc);
    GapAdds(CorrectOf(c, q) as real, ExactCorrect(c, q as real), ExactCorrect(c, e), t);
  }

  lemma GapAdds(a: real, b: real, e: real, t: real)
    requires 0.0 <= t && Near(a, b, 4.3) && Near(b, e, 1.41 * (2.9 + 2.5 * t))
    ensures Near(a, e, 9.0 + 4.0 * t)
  {}

  lemma HalvedIs(tFine: int)
    requires InTemperatureRange(tFine)
    ensures Halved(tFine / 2 - 64000, tFine as real / 2.0 - 64000.0)
  {
    assert tFine as real == 2.0 * (tFine / 2) as real + (tFine % 2) as real;
  }

  lemma ExactPascalsIs(c: Calib, tFine: int, adc: int)
    requires ExactDivisor(c, tFine as real / 2.0 - 64000.0) > 0.0
    ensures ExactPascals(c, tFine, adc) == ExactCorrect(c, RealQuotient(c, tFine as real / 2.0 - 64000.0, adc))
  {}
}

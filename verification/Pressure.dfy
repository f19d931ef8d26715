/** Pressure compensation in s64 and in s32/u32. */
module Pressure {
  import opened Machine
  import opened Calibration

  // ----- 64-bit variant: pascals in Q24.8 -----

  function Offset64(c: Calib, v: int): int {
    var x2 := S64(S64(v * v) * c.p6);
    var x2' := S64(x2 + S64(S64(v * c.p5) * 0x2_0000));
    S64(x2' + S64(c.p4 * 0x8_0000_0000))
  }

  function Numerator64(offset: int, adc: int): int {
    S64(S64(S64((1048576 - adc) * 0x8000_0000) - offset) * 3125)
  }

  function Slope64(c: Calib, v: int): int {
    S64(S64(S64(v * v) * c.p3) / 256 + S64(S64(v * c.p2) * 4096))
  }

  function Divisor64(c: Calib, v: int): int {
    S64(S64(0x8000_0000_0000 + Slope64(c, v)) * c.p1) / 0x2_0000_0000
  }

  function Sum64(p: int, y: int, z: int, p7: int): int {
    S64(S64(S64(p + S64(y) / 0x200_0000) + S64(z) / 0x8_0000) / 256 + S64(p7 * 16))
  }

  function Correct64(c: Calib, p: int): int {
    Sum64(p, S64(c.p9 * (p / 8192)) * (p / 8192), c.p8 * p, c.p7)
  }

  /** What the s64 code returns. */
  function Pascals256(c: Calib, tFine: int, adc: int): int {
    var v := S64(tFine - 128000);
    var d := Divisor64(c, v);
    if d == 0 then 0
    else U32(Correct64(c, S64(Quotient(Numerator64(Offset64(c, v), adc), d))))
  }

  /** The 24-bit variant: half of it. */
  function Pascals128(c: Calib, tFine: int, adc: int): int {
    Pascals256(c, tFine, adc) / 2
  }

  // The same formula on unbounded integers.

  function Numerator(c: Calib, v: int, adc: int): int {
    ((1048576 - adc) * 0x8000_0000 - (v * v * c.p6 + v * c.p5 * 0x2_0000 + c.p4 * 0x8_0000_0000)) * 3125
  }

  function Divisor(c: Calib, v: int): int {
    (0x8000_0000_0000 + v * v * c.p3 / 256 + v * c.p2 * 4096) * c.p1 / 0x2_0000_0000
  }

  function Sum(p: int, y: int, z: int, p7: int): int {
    (p + y / 0x200_0000 + z / 0x8_0000) / 256 + p7 * 16
  }

  function Correct(c: Calib, p: int): int {
    Sum(p, c.p9 * (p / 8192) * (p / 8192), c.p8 * p, c.p7)
  }

  /** The result on unbounded integers, before it is stored as u32. */
  function Unbounded256(c: Calib, tFine: int, adc: int): int {
    var v := tFine - 128000;
    if Divisor(c, v) == 0 then 0 else Correct(c, Quotient(Numerator(c, v, adc), Divisor(c, v)))
  }

  // The steps of the s64 code: every result before it is cut to s64.

  predicate OffsetSteps64(c: Calib, v: int) {
    var a, e, h := v * v, v * c.p5, c.p4 * 0x8_0000_0000;
    var b, f := S64(a) * c.p6, S64(e) * 0x2_0000;
    var g := S64(b) + S64(f);
    InS64(a) && InS64(b) && InS64(e) && InS64(f) && InS64(g) && InS64(h) && InS64(S64(g) + S64(h))
  }

  predicate NumeratorSteps64(offset: int, adc: int) {
    var a := (1048576 - adc) * 0x8000_0000;
    var b := S64(a) - offset;
    InS64(a) && InS64(b) && InS64(S64(b) * 3125)
  }

  predicate SlopeSteps64(c: Calib, v: int) {
    var a, e := v * v, v * c.p2;
    var b, f := S64(a) * c.p3, S64(e) * 4096;
    InS64(a) && InS64(b) && InS64(e) && InS64(f) && InS64(S64(b) / 256 + S64(f))
  }

  predicate DivisorSteps64(c: Calib, v: int) {
    var s := 0x8000_0000_0000 + Slope64(c, v);
    SlopeSteps64(c, v) && InS64(s) && InS64(S64(s) * c.p1)
  }

  predicate CorrectSteps64(c: Calib, p: int) {
    var a := c.p9 * (p / 8192);
    SumSteps64(p, S64(a) * (p / 8192), c.p8 * p, c.p7) && InS64(a)
  }

  predicate SumSteps64(p: int, y: int, z: int, p7: int) {
    var m := p + S64(y) / 0x200_0000;
    var n := S64(m) + S64(z) / 0x8_0000;
    && InS64(y) && InS64(z) && InS64(m) && InS64(n) && InS64(p7 * 16) && InS64(S64(n) / 256 + S64(p7 * 16))
  }

  /** Every s64 step of the pressure computation gets a result that fits. */
  predicate NoStepWraps64(c: Calib, tFine: int, adc: int) {
    var v := S64(tFine - 128000);
    var d, offset := Divisor64(c, v), Offset64(c, v);
    && InS64(tFine - 128000) && OffsetSteps64(c, v) && DivisorSteps64(c, v)
    && (d != 0 ==>
          var q := Quotient(Numerator64(offset, adc), d);
          NumeratorSteps64(offset, adc) && InS64(q) && CorrectSteps64(c, S64(q)))
  }

  lemma StepsSuffice64(c: Calib, v: int, adc: int, p: int)
    ensures OffsetSteps64(c, v) && NumeratorSteps64(Offset64(c, v), adc) ==>
              Numerator64(Offset64(c, v), adc) == Numerator(c, v, adc)
    ensures DivisorSteps64(c, v) ==> Divisor64(c, v) == Divisor(c, v)
    ensures CorrectSteps64(c, p) ==> Correct64(c, p) == Correct(c, p)
  {}

  /** Where no step wraps, the machine computes the integer formula, for any words and reading. */
  lemma MachineIsUnbounded64(c: Calib, tFine: int, adc: int)
    requires NoStepWraps64(c, tFine, adc)
    ensures Pascals256(c, tFine, adc) == U32(Unbounded256(c, tFine, adc))
  {
    hide OffsetSteps64, NumeratorSteps64, DivisorSteps64, CorrectSteps64;
    hide Offset64, Numerator64, Divisor64, Correct64, Numerator, Divisor, Correct;
    var v := tFine - 128000;
    StepsSuffice64(c, v, adc, 0);
    if Divisor64(c, v) != 0 {
      StepsSuffice64(c, v, adc, S64(Quotient(Numerator64(Offset64(c, v), adc), Divisor64(c, v))));
    }
  }

  predicate InTemperatureRange(tFine: int) {
    -204800 <= tFine <= 435200
  }

  predicate Envelope64(c: Calib, tFine: int, adc: int) {
    && Words(c) && InTemperatureRange(tFine) && 0 <= adc < 0x10_0000
    && 20000 <= c.p1 <= 46000 && -16383 <= c.p4 <= 16383 && -1024 <= c.p5 <= 1024 && -512 <= c.p6 <= 512
  }

  lemma SquareV(v: int)
    requires -332800 <= v <= 307200
    ensures 0 <= v * v <= 110755840000
  {
    SquareBound(v, 332800);
  }

  lemma Numerator64Exact(c: Calib, v: int, adc: int)
    requires -332800 <= v <= 307200 && 0 <= adc < 0x10_0000
    requires -16383 <= c.p4 <= 16383 && -1024 <= c.p5 <= 1024 && -512 <= c.p6 <= 512
    ensures OffsetSteps64(c, v) && NumeratorSteps64(Offset64(c, v), adc)
    ensures Numerator64(Offset64(c, v), adc) == Numerator(c, v, adc)
    ensures -2_100_000_000_000_000_000 <= Numerator(c, v, adc) <= 9_115_000_000_000_000_000
  {
    SquareV(v);
    MulBound(v * v, c.p6, 110755840000, 512);
    MulBound(v, c.p5, 332800, 1024);
  }

  /** The scale factor before multiplication with P1 stays well above zero. */
  lemma Slope64Exact(c: Calib, v: int)
    requires -332800 <= v <= 307200 && InS16(c.p2) && InS16(c.p3)
    ensures SlopeSteps64(c, v) && Slope64(c, v) == v * v * c.p3 / 256 + v * c.p2 * 4096
    ensures -58_850_000_000_000 <= Slope64(c, v) <= 58_850_000_000_000
  {
    SquareV(v);
    MulBound(v * v, c.p3, 110755840000, 32768);
    MulBound(v, c.p2, 332800, 32768);
  }

  lemma Divisor64Exact(c: Calib, v: int)
    requires -332800 <= v <= 307200 && InS16(c.p2) && InS16(c.p3) && 0 <= c.p1 <= 46000
    ensures DivisorSteps64(c, v) && Divisor64(c, v) == Divisor(c, v)
    ensures c.p1 * 9500 <= Divisor(c, v)
    ensures Divisor(c, v) == 0 <==> c.p1 == 0
  {
    hide SlopeSteps64, Slope64;
    Slope64Exact(c, v);
    ScaledDivisor(0x8000_0000_0000 + Slope64(c, v), c.p1);
  }

  lemma ScaledDivisor(s: int, p1: int)
    requires 81_880_000_000_000 <= s <= 199_590_000_000_000 && 0 <= p1 <= 46000
    ensures InS64(s * p1) && p1 * 9500 <= s * p1 / 0x2_0000_0000
    ensures s * p1 / 0x2_0000_0000 == 0 <==> p1 == 0
  {
    MulMono(p1, 81_880_000_000_000, s);
    MulMono(s, p1, 46000);
  }

  /** In the temperature range, with P1 at most 46000, the code reports invalid data (0, before any
      division) exactly when P1 is 0. */
  lemma InvalidOnlyWithoutP1(c: Calib, tFine: int)
    requires Words(c) && InTemperatureRange(tFine) && c.p1 <= 46000
    ensures Divisor64(c, S64(tFine - 128000)) == 0 <==> c.p1 == 0
  {
    Divisor64Exact(c, tFine - 128000);
  }

  lemma QuotientBound(n: int, d: int)
    requires -2_100_000_000_000_000_000 <= n <= 9_115_000_000_000_000_000 && 190_000_000 <= d
    ensures -48_000_000_000 <= Quotient(n, d) <= 48_000_000_000
  {
    MulMono(48_000_000_000, 190_000_000, d);
    if n >= 0 {
      DivAtMost(n, d, 48_000_000_000);
    } else {
      DivAtMost(-n, d, 48_000_000_000);
    }
  }

  lemma DivAtMost(n: int, d: int, k: int)
    requires 0 <= n <= k * d && 0 < d
    ensures 0 <= n / d <= k
  {
    var e := n / d - k;
    assert e * d == (n / d) * d - k * d;
    if e >= 1 {
      MulMono(d, 1, e);
    }
  }

  lemma Correct64Exact(c: Calib, p: int)
    requires Words(c) && -48_000_000_000 <= p <= 48_000_000_000
    ensures CorrectSteps64(c, p) && Correct64(c, p) == Correct(c, p)
  {
    var q := p / 8192;
    assert -5_859_375 <= q <= 5_859_375;
    CorrectionBound64(c.p9, q);
    MulBound(c.p8, p, 32768, 48_000_000_000);
    Sum64Exact(p, c.p9 * q * q, c.p8 * p, c.p7);
  }

  lemma CorrectionBound64(p9: int, q: int)
    requires InS16(p9) && -5_859_375 <= q <= 5_859_375
    ensures S64(p9 * q) == p9 * q && -1_125_000_000_000_000_000 <= p9 * q * q <= 1_125_000_000_000_000_000
  {
    MulBound(p9, q, 32768, 5_859_375);
    MulBound(p9 * q, q, 192_000_000_000, 5_859_375);
  }

  lemma Sum64Exact(p: int, y: int, z: int, p7: int)
    requires -48_000_000_000 <= p <= 48_000_000_000 && InS16(p7)
    requires -1_125_000_000_000_000_000 <= y <= 1_125_000_000_000_000_000
    requires -1_572_864_000_000_000 <= z <= 1_572_864_000_000_000
    ensures SumSteps64(p, y, z, p7) && Sum64(p, y, z, p7) == Sum(p, y, z, p7)
  {}

  /** Within the envelope no s64 step wraps and the divisor is positive, so the machine result is the
      integer formula. */
  lemma Pressure64Exact(c: Calib, tFine: int, adc: int)
    requires Envelope64(c, tFine, adc)
    ensures NoStepWraps64(c, tFine, adc)
    ensures var v := tFine - 128000;
            && Divisor(c, v) > 0
            && Pascals256(c, tFine, adc) == U32(Correct(c, Quotient(Numerator(c, v, adc), Divisor(c, v))))
  {
    hide OffsetSteps64, NumeratorSteps64, DivisorSteps64, CorrectSteps64;
    hide Offset64, Numerator64, Divisor64, Correct64, Numerator, Divisor, Correct;
    var v := tFine - 128000;
    Numerator64Exact(c, v, adc);
    Divisor64Exact(c, v);
    PositiveDivisor(c.p1, Divisor(c, v));
    QuotientBound(Numerator(c, v, adc), Divisor(c, v));
    Correct64Exact(c, Quotient(Numerator(c, v, adc), Divisor(c, v)));
    MachineIsUnbounded64(c, tFine, adc);
  }

  lemma PositiveDivisor(p1: int, d: int)
    requires 20000 <= p1 && p1 * 9500 <= d
    ensures 190_000_000 <= d
  {}

  // ----- 32-bit variant: pascals -----

  function Offset32(c: Calib, x: int): int {
    var x2 := S32(S32((x / 4) * (x / 4)) / 2048 * c.p6);
    var x2' := S32(x2 + S32(S32(x * c.p5) * 2));
    S32(x2' / 4 + S32(c.p4 * 0x1_0000))
  }

  function Divisor32(c: Calib, x: int): int {
    var x1 := Scale32(c.p3 * (S32((x / 4) * (x / 4)) / 8192), c.p2 * x);
    S32(S32(32768 + x1) * c.p1) / 32768
  }

  function Scale32(a: int, b: int): int {
    S32(S32(a) / 8 + S32(b) / 2) / 0x4_0000
  }

  /** The value before division: u32 arithmetic. */
  function Prescaled32(c: Calib, x: int, adc: int): int {
    U32(U32(U32(S32(1048576 - adc)) - U32(Offset32(c, x) / 4096)) * 3125)
  }

  /** The division, doubled before or after so as to stay within u32. */
  function Divide32(p: int, d: int): int
    requires U32(d) != 0
  {
    if p < 0x8000_0000 then U32(p * 2) / U32(d) else U32(p / U32(d) * 2)
  }

  function Correct32(c: Calib, q: int): int {
    Sum32(q, c.p9 * S32(U32((q / 8) * (q / 8)) / 8192), S32(q / 4) * c.p8, c.p7)
  }

  function Sum32(q: int, y: int, z: int, p7: int): int {
    U32(S32(S32(q) + S32(S32(S32(y) / 4096 + S32(z) / 8192) + p7) / 16))
  }

  lemma U32OfNonzero(d: int)
    requires InS32(d) && d != 0
    ensures U32(d) != 0
  {}

  /** What the s32 code returns. */
  function Pascals(c: Calib, tFine: int, adc: int): int {
    var x := S32(tFine / 2 - 64000);
    var d := Divisor32(c, x);
    if d == 0 then 0 else Correct32(c, Divide32(Prescaled32(c, x, adc), d))
  }

  // The same formula on unbounded integers.

  function Offset(c: Calib, x: int): int {
    ((x / 4) * (x / 4) / 2048 * c.p6 + x * c.p5 * 2) / 4 + c.p4 * 0x1_0000
  }

  function DivisorOf(c: Calib, x: int): int {
    (32768 + Scale(c.p3 * ((x / 4) * (x / 4) / 8192), c.p2 * x)) * c.p1 / 32768
  }

  function Scale(a: int, b: int): int {
    (a / 8 + b / 2) / 0x4_0000
  }

  /** The value before scaling by 3125. */
  function RawPressure(c: Calib, x: int, adc: int): int {
    1048576 - adc - Offset(c, x) / 4096
  }

  function CorrectOf(c: Calib, q: int): int {
    SumOf(q, c.p9 * ((q / 8) * (q / 8) / 8192), q / 4 * c.p8, c.p7)
  }

  function SumOf(q: int, y: int, z: int, p7: int): int {
    q + (y / 4096 + z / 8192 + p7) / 16
  }

  /** Without P1 both variants report invalid data, 0, for any other words, temperature and reading. */
  lemma NoPressureWithoutP1(c: Calib, tFine: int, adc: int)
    requires c.p1 == 0
    ensures Pascals(c, tFine, adc) == 0 && Pascals256(c, tFine, adc) == 0
  {
    hide Scale32, Slope64, Prescaled32, Divide32, Correct32, Numerator64, Correct64;
    assert Divisor32(c, S32(tFine / 2 - 64000)) == 0;
    assert Divisor64(c, S64(tFine - 128000)) == 0;
  }

  // The steps of the s32/u32 code.

  predicate OffsetSteps32(c: Calib, x: int) {
    var a, e, h := (x / 4) * (x / 4), x * c.p5, c.p4 * 0x1_0000;
    var b, f := S32(a) / 2048 * c.p6, S32(e) * 2;
    var g := S32(b) + S32(f);
    InS32(a) && InS32(b) && InS32(e) && InS32(f) && InS32(g) && InS32(h) && InS32(S32(g) / 4 + S32(h))
  }

  predicate DivisorSteps32(c: Calib, x: int) {
    var a := (x / 4) * (x / 4);
    var b, e := c.p3 * (S32(a) / 8192), c.p2 * x;
    var h := 32768 + Scale32(b, e);
    && InS32(a) && InS32(b) && InS32(e) && InS32(S32(b) / 8 + S32(e) / 2)
    && InS32(h) && InS32(S32(h) * c.p1)
  }

  predicate CorrectSteps32(c: Calib, q: int) {
    var a, b := c.p9 * ((q / 8) * (q / 8) / 8192), q / 4 * c.p8;
    && InU32((q / 8) * (q / 8)) && InS32((q / 8) * (q / 8) / 8192) && InS32(q / 4) && InS32(q)
    && SumSteps32(q, a, b, c.p7)
  }

  predicate SumSteps32(q: int, y: int, z: int, p7: int) {
    var m := S32(y) / 4096 + S32(z) / 8192;
    InS32(y) && InS32(z) && InS32(m) && InS32(S32(m) + p7) && InS32(q + S32(S32(m) + p7) / 16)
  }

  /** Every s32 step, and every conversion to s32, gets a value that fits. */
  predicate NoSignedStepWraps32(c: Calib, tFine: int, adc: int) {
    var x := S32(tFine / 2 - 64000);
    var d := Divisor32(c, x);
    && InS32(tFine / 2 - 64000) && OffsetSteps32(c, x) && DivisorSteps32(c, x) && InS32(1048576 - adc)
    && (U32(d) != 0 ==> CorrectSteps32(c, Divide32(Prescaled32(c, x, adc), d)))
  }

  /** The conversion of the scaled offset to u32 wraps. */
  predicate ConversionWraps32(c: Calib, x: int) {
    !InU32(Offset32(c, x) / 4096)
  }

  /** The u32 difference of reading and offset wraps. */
  predicate DifferenceWraps32(c: Calib, x: int, adc: int) {
    !InU32(U32(1048576 - adc) - U32(Offset32(c, x) / 4096))
  }

  /** Every other u32 step, and conversion to u32, gets a value that fits. */
  predicate OtherStepsFit32(c: Calib, x: int, adc: int) {
    var d, p := Divisor32(c, x), Prescaled32(c, x, adc);
    && InU32(1048576 - adc) && InU32(d)
    && InU32(U32(U32(1048576 - adc) - U32(Offset32(c, x) / 4096)) * 3125)
    && (U32(d) != 0 ==> if p < 0x8000_0000 then InU32(p * 2) else InU32(p / U32(d) * 2))
  }

  /** Temperature and words are in range. */
  predicate Moderate32(c: Calib, tFine: int) {
    && Words(c) && InTemperatureRange(tFine)
    && 20000 <= c.p1 <= 46000 && -12288 <= c.p2 <= 12288 && -8192 <= c.p3 <= 8192
    && -16383 <= c.p4 <= 16383 && -1024 <= c.p5 <= 1024 && -512 <= c.p6 <= 512
  }

  predicate Envelope32(c: Calib, tFine: int, adc: int) {
    Moderate32(c, tFine) && 0 <= adc < 0x10_0000
  }

  lemma SquareX(x: int)
    requires -166400 <= x <= 153600
    ensures 0 <= (x / 4) * (x / 4) <= 1_730_560_000
  {
    SquareBound(x / 4, 41600);
  }

  lemma Offset32Exact(c: Calib, x: int)
    requires -166400 <= x <= 153600
    requires -16383 <= c.p4 <= 16383 && -1024 <= c.p5 <= 1024 && -512 <= c.p6 <= 512
    ensures OffsetSteps32(c, x) && Offset32(c, x) == Offset(c, x)
    ensures -310_000 <= Offset(c, x) / 4096 <= 310_000
  {
    SquareX(x);
    MulBound((x / 4) * (x / 4) / 2048, c.p6, 845_000, 512);
    MulBound(x, c.p5, 166400, 1024);
  }

  lemma Divisor32Exact(c: Calib, x: int)
    requires -166400 <= x <= 153600
    requires 20000 <= c.p1 <= 46000 && -12288 <= c.p2 <= 12288 && -8192 <= c.p3 <= 8192
    ensures DivisorSteps32(c, x) && Divisor32(c, x) == DivisorOf(c, x) && 17000 <= DivisorOf(c, x) <= 53000
  {
    SquareX(x);
    MulBound(c.p3, (x / 4) * (x / 4) / 8192, 8192, 211_250);
    MulBound(c.p2, x, 12288, 166400);
    var a, b := c.p3 * ((x / 4) * (x / 4) / 8192), c.p2 * x;
    Scale32Exact(a, b);
    Scaled32Exact(Scale(a, b), c.p1);
  }

  lemma Scale32Exact(a: int, b: int)
    requires -1_730_560_000 <= a <= 1_730_560_000 && -2_044_723_200 <= b <= 2_044_723_200
    ensures InS32(S32(a) / 8 + S32(b) / 2) && Scale32(a, b) == Scale(a, b) && -4768 <= Scale(a, b) <= 4732
  {}

  lemma Scaled32Exact(s: int, p1: int)
    requires -4768 <= s <= 4732 && 20000 <= p1 <= 46000
    ensures S32(S32(32768 + s) * p1) / 32768 == (32768 + s) * p1 / 32768
    ensures 17000 <= (32768 + s) * p1 / 32768 <= 53000
  {
    MulMono(p1, 28000, 32768 + s);
    MulMono(p1, 32768 + s, 37500);
  }

  /** What doubling after the division loses against doubling before. */
  function Loss(p: int, d: int): int
    requires d > 0
  {
    if p >= 0x8000_0000 && (p % d) * 2 >= d then 1 else 0
  }

  /** The two-branch division is the floor of 2p/d, or one less when p does not fit 31 bits. */
  lemma DivideLosesAtMostOne(p: int, d: int)
    requires InU32(p) && 2 <= d < 0x8000_0000
    ensures U32(d) == d
    ensures Divide32(p, d) == 2 * p / d - Loss(p, d)
  {
    if p >= 0x8000_0000 {
      TwiceQuotient(p, d);
      MulMono(p / d, 2, d);
    }
  }

  lemma TwiceQuotient(p: int, d: int)
    requires 0 <= p && 0 < d
    ensures 2 * p / d == 2 * (p / d) + (if (p % d) * 2 >= d then 1 else 0)
    ensures 0 <= p / d && (p / d) * d <= p
  {
    var q, r := p / d, p % d;
    assert p == q * d + r;
    assert 2 * p == (2 * q) * d + 2 * r;
    if 2 * r < d {
      DivisionIs(2 * p, d, 2 * q, 2 * r);
    } else {
      assert (2 * q + 1) * d == (2 * q) * d + d;
      DivisionIs(2 * p, d, 2 * q + 1, 2 * r - d);
    }
    if q < 0 {
      MulMono(d, q, -1);
    }
  }

  lemma DivisionIs(n: int, d: int, q: int, r: int)
    requires n == q * d + r && 0 <= r < d
    ensures n / d == q
  {
    var k := n / d - q;
    assert k * d == (n / d) * d - q * d;
    if k >= 1 { MulMono(d, 1, k); }
    if k <= -1 { MulMono(d, k, -1); }
  }

  lemma Correct32Exact(c: Calib, q: int)
    requires Words(c) && 0 <= q <= 180000
    ensures CorrectSteps32(c, q) && Correct32(c, q) == U32(CorrectOf(c, q))
  {
    SquareBound(q / 8, 22500);
    MulBound(c.p9, (q / 8) * (q / 8) / 8192, 32768, 61798);
    MulBound(q / 4, c.p8, 45000, 32768);
    Sum32Exact(q, c.p9 * ((q / 8) * (q / 8) / 8192), q / 4 * c.p8, c.p7);
  }

  lemma Sum32Exact(q: int, y: int, z: int, p7: int)
    requires 0 <= q <= 180000 && InS16(p7)
    requires -2_025_000_000 <= y <= 2_025_000_000 && -1_474_560_000 <= z <= 1_474_560_000
    ensures SumSteps32(q, y, z, p7) && Sum32(q, y, z, p7) == U32(SumOf(q, y, z, p7))
  {}

  lemma Prescaled32Exact(c: Calib, x: int, adc: int)
    requires -166400 <= x <= 153600 && 0 <= adc < 0x10_0000
    requires -16383 <= c.p4 <= 16383 && -1024 <= c.p5 <= 1024 && -512 <= c.p6 <= 512
    requires RawPressure(c, x, adc) >= 0
    ensures Prescaled32(c, x, adc) == 3125 * RawPressure(c, x, adc) && InU32(3125 * RawPressure(c, x, adc))
    ensures ConversionWraps32(c, x) <==> Offset(c, x) / 4096 < 0
    ensures DifferenceWraps32(c, x, adc) <==> Offset(c, x) / 4096 < 0
    ensures InU32(U32(U32(1048576 - adc) - U32(Offset32(c, x) / 4096)) * 3125)
  {
    hide Offset32, OffsetSteps32, Offset;
    Offset32Exact(c, x);
    U32OfDifference(1048576 - adc, Offset(c, x) / 4096);
  }

  lemma U32OfDifference(a: int, b: int)
    requires 0 <= a <= 1048576 && -310_000 <= b <= 310_000 && 0 <= a - b
    ensures U32(U32(a) - U32(b)) == a - b
    ensures !InU32(b) <==> b < 0
    ensures !InU32(U32(a) - U32(b)) <==> b < 0
  {}

  /** The quotient 2p/d without machine limits, p being 3125 times the raw value. */
  function ExactQuotient(c: Calib, x: int, adc: int): int {
    if DivisorOf(c, x) == 0 then 0 else 2 * (3125 * RawPressure(c, x, adc)) / DivisorOf(c, x)
  }

  /** Within the envelope no s32 step wraps, and the divisor is positive.  Of the u32 steps, the conversion
      of the scaled offset and the difference that takes it wrap if and only if that offset is negative, and
      no other.  The result is the integer formula applied to floor(2p/d), less one at most. */
  lemma Pressure32Exact(c: Calib, tFine: int, adc: int)
    requires Envelope32(c, tFine, adc)
    requires RawPressure(c, tFine / 2 - 64000, adc) >= 0 && ExactQuotient(c, tFine / 2 - 64000, adc) <= 180000
    ensures NoSignedStepWraps32(c, tFine, adc)
    ensures var x := tFine / 2 - 64000;
            && OtherStepsFit32(c, x, adc)
            && (ConversionWraps32(c, x) <==> Offset(c, x) / 4096 < 0)
            && (DifferenceWraps32(c, x, adc) <==> Offset(c, x) / 4096 < 0)
    ensures var x := tFine / 2 - 64000;
            && DivisorOf(c, x) > 0
            && Pascals(c, tFine, adc) ==
                 U32(CorrectOf(c, ExactQuotient(c, x, adc) - Loss(3125 * RawPressure(c, x, adc), DivisorOf(c, x))))
  {
    hide Offset32, OffsetSteps32, Offset, Divisor32, DivisorSteps32, DivisorOf, CorrectSteps32, Correct32, CorrectOf;
    hide RawPressure, Prescaled32, ConversionWraps32, DifferenceWraps32;
    var x := tFine / 2 - 64000;
    var p, d := 3125 * RawPressure(c, x, adc), DivisorOf(c, x);
    Offset32Exact(c, x);
    Divisor32Exact(c, x);
    Prescaled32Exact(c, x, adc);
    DivideLosesAtMostOne(p, d);
    DoublingFits(p, d);
    TwiceQuotient(p, d);
    Correct32Exact(c, Divide32(p, d));
  }

  lemma DoublingFits(p: int, d: int)
    requires InU32(p) && 2 <= d
    ensures if p < 0x8000_0000 then InU32(p * 2) else InU32(p / d * 2)
  {
    if p >= 0x8000_0000 {
      TwiceQuotient(p, d);
      MulMono(p / d, 2, d);
    }
  }

  /** A small negative offset, on words and reading well inside the envelope: conversion and difference wrap,
      and the result is right. */
  lemma NegativeOffsetWraps(c: Calib)
    requires c == Calib(0, 0, 0, 36000, 0, 0, -1, 0, 0, 0, 0, 0, 0, 0, 0, 0, 0, 0)
    ensures Envelope32(c, 128000, 500000)
    ensures RawPressure(c, 0, 500000) == 548592 && ExactQuotient(c, 0, 500000) == 95241
    ensures ConversionWraps32(c, 0) && DifferenceWraps32(c, 0, 500000) && Pascals(c, 128000, 500000) == 95241
  {
    hide Pascals, ConversionWraps32, DifferenceWraps32, OtherStepsFit32, NoSignedStepWraps32;
    hide Offset, DivisorOf, CorrectOf;
    NegativeOffset(c);
    Pressure32Exact(c, 128000, 500000);
  }

  lemma NegativeOffset(c: Calib)
    requires c == Calib(0, 0, 0, 36000, 0, 0, -1, 0, 0, 0, 0, 0, 0, 0, 0, 0, 0, 0)
    ensures Offset(c, 0) == -65536 && DivisorOf(c, 0) == 36000 && CorrectOf(c, 95241) == 95241
  {
    OffsetOfP4(c);
    DivisorOfP1(c);
    CorrectOfNothing(c, 95241);
  }

  lemma OffsetOfP4(c: Calib)
    ensures Offset(c, 0) == c.p4 * 0x1_0000
  {}

  lemma DivisorOfP1(c: Calib)
    ensures DivisorOf(c, 0) == c.p1
  {
    assert (0 / 4) * (0 / 4) / 8192 == 0;
    assert Scale(c.p3 * 0, c.p2 * 0) == 0;
  }

  lemma CorrectOfNothing(c: Calib, q: int)
    requires c.p7 == 0 && c.p8 == 0 && c.p9 == 0
    ensures CorrectOf(c, q) == q
  {
    Zero((q / 8) * (q / 8) / 8192);
    Zero(q / 4);
  }

  lemma Zero(x: int)
    ensures 0 * x == 0 && x * 0 == 0
  {}
}

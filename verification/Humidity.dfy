/** Humidity compensation in s32. */
module Humidity {
  import opened Machine
  import opened Calibration

  // The three stages of the s32 code: the reading scaled and offset, the gain, their product
  // corrected quadratically.

  function Offset32(c: Calib, v: int, adc: int): int {
    S32(S32(S32(S32(adc * 0x4000) - S32(c.h4 * 0x10_0000)) - S32(c.h5 * v)) + 16384) / 32768
  }

  function Slope32(c: Calib, v: int): int {
    S32(S32(S32(v * c.h6) / 1024) * S32(S32(v * c.h3) / 2048 + 32768)) / 1024
  }

  function Scale32(slope: int, h2: int): int {
    S32(S32(S32(slope + 2097152) * h2) + 8192) / 16384
  }

  function Gain32(c: Calib, v: int): int {
    Scale32(Slope32(c, v), c.h2)
  }

  function Correct32(c: Calib, x: int): int {
    S32(x - S32(S32(S32((x / 32768) * (x / 32768)) / 128) * c.h1) / 16)
  }

  function Clamp(x: int): int {
    if x < 0 then 0 else if x > 419430400 then 419430400 else x
  }

  /** What the s32 code returns: relative humidity in 1/1024 of a percent. */
  function Percent1024(c: Calib, tFine: int, adc: int): int {
    var v := S32(tFine - 76800);
    Clamp(Correct32(c, S32(Offset32(c, v, adc) * Gain32(c, v)))) / 4096
  }

  /** The 16-bit variant: the same value halved, cut to u16. */
  function Percent512(c: Calib, tFine: int, adc: int): int {
    (Percent1024(c, tFine, adc) / 2) % 0x1_0000
  }

  // ----- the same formula on unbounded integers -----

  function Offset(c: Calib, v: int, adc: int): int {
    ((adc - 64 * c.h4) * 0x4000 - c.h5 * v + 16384) / 32768
  }

  function Slope(c: Calib, v: int): int {
    (v * c.h6 / 1024) * (v * c.h3 / 2048 + 32768) / 1024
  }

  function Scale(slope: int, h2: int): int {
    ((slope + 2097152) * h2 + 8192) / 16384
  }

  function Gain(c: Calib, v: int): int {
    Scale(Slope(c, v), c.h2)
  }

  function Correct(c: Calib, x: int): int {
    x - (x / 32768) * (x / 32768) / 128 * c.h1 / 16
  }

  /** The integer formula without machine limits and before clamping, in 1/1024 of a percent. */
  function Unclamped(c: Calib, tFine: int, adc: int): int {
    var v := tFine - 76800;
    Correct(c, Offset(c, v, adc) * Gain(c, v)) / 4096
  }

  /** In 0..100 percent. */
  function Clamped(u: int): int {
    if u < 0 then 0 else if u > 102400 then 102400 else u
  }

  // ----- the steps: every result before it is cut to s32 -----

  predicate OffsetSteps(c: Calib, v: int, adc: int) {
    var a, b, e := adc * 0x4000, c.h4 * 0x10_0000, c.h5 * v;
    var d := S32(a) - S32(b);
    var f := S32(d) - S32(e);
    InS32(a) && InS32(b) && InS32(d) && InS32(e) && InS32(f) && InS32(S32(f) + 16384)
  }

  predicate SlopeSteps(c: Calib, v: int) {
    var a, b := v * c.h6, v * c.h3;
    var e := S32(b) / 2048 + 32768;
    InS32(a) && InS32(b) && InS32(e) && InS32(S32(a) / 1024 * S32(e))
  }

  predicate ScaleSteps(slope: int, h2: int) {
    var a := slope + 2097152;
    var b := S32(a) * h2;
    InS32(a) && InS32(b) && InS32(S32(b) + 8192)
  }

  predicate CorrectSteps(c: Calib, x: int) {
    var q := (x / 32768) * (x / 32768);
    var r := S32(q) / 128 * c.h1;
    InS32(q) && InS32(r) && InS32(x - S32(r) / 16)
  }

  /** Every s32 step of the humidity computation gets a result that fits. */
  predicate NoStepWraps(c: Calib, tFine: int, adc: int) {
    var v := S32(tFine - 76800);
    var p := Offset32(c, v, adc) * Gain32(c, v);
    && InS32(tFine - 76800) && OffsetSteps(c, v, adc)
    && SlopeSteps(c, v) && ScaleSteps(Slope32(c, v), c.h2)
    && InS32(p) && CorrectSteps(c, S32(p))
  }

  lemma StepsSuffice(c: Calib, v: int, adc: int)
    ensures OffsetSteps(c, v, adc) ==> Offset32(c, v, adc) == Offset(c, v, adc)
    ensures SlopeSteps(c, v) ==> Slope32(c, v) == Slope(c, v)
  {}

  lemma LaterStepsSuffice(c: Calib, slope: int, x: int)
    ensures ScaleSteps(slope, c.h2) ==> Scale32(slope, c.h2) == Scale(slope, c.h2)
    ensures CorrectSteps(c, x) ==> Correct32(c, x) == Correct(c, x)
  {}

  /** Where no step wraps, the machine computes the integer formula, clamped, for any words and reading. */
  lemma MachineIsUnbounded(c: Calib, tFine: int, adc: int)
    requires NoStepWraps(c, tFine, adc)
    ensures Percent1024(c, tFine, adc) == Clamped(Unclamped(c, tFine, adc))
  {
    hide Offset32, Slope32, Scale32, Correct32, Offset, Slope, Scale, Correct, OffsetSteps, SlopeSteps, ScaleSteps,
         CorrectSteps;
    var v := tFine - 76800;
    StepsSuffice(c, v, adc);
    LaterStepsSuffice(c, Slope(c, v), Offset(c, v, adc) * Gain(c, v));
  }

  /** The converse fails: an overflow can cancel.  Here the difference of reading and offset leaves s32, and
      the result is right nevertheless. */
  lemma OverflowCanCancel()
    ensures exists c: Calib, adc: int ::
              && Storable(c) && 0 <= adc <= 0xFFFF
              && !NoStepWraps(c, 435200, adc) && Percent1024(c, 435200, adc) == Clamped(Unclamped(c, 435200, adc))
  {
    var c := Calib(0, 0, 0, 0, 0, 0, 0, 0, 0, 0, 0, 0, 0, 1, 0, -2048, 2047, 0);
    assert Storable(c);
    CancellingOverflow(c);
  }

  lemma CancellingOverflow(c: Calib)
    requires c.h1 == 0 && c.h2 == 1 && c.h3 == 0 && c.h4 == -2048 && c.h5 == 2047 && c.h6 == 0
    ensures !NoStepWraps(c, 435200, 20000)
    ensures Percent1024(c, 435200, 20000) == Clamped(Unclamped(c, 435200, 20000))
  {
    hide Correct32, Correct, CorrectSteps, Gain32, Gain;
    CancellingOffset(c);
    assert Gain32(c, 358400) == 128 && Gain(c, 358400) == 128 by { CancellingGain(c); }
    LaterStepsSuffice(c, 0, Offset(c, 358400, 20000) * 128);
    SmallCorrection(c, Offset(c, 358400, 20000) * 128);
  }

  lemma CancellingOffset(c: Calib)
    requires c.h4 == -2048 && c.h5 == 2047
    ensures !OffsetSteps(c, 358400, 20000)
    ensures Offset32(c, 358400, 20000) == Offset(c, 358400, 20000) == 53147
  {}

  lemma CancellingGain(c: Calib)
    requires c.h2 == 1 && c.h3 == 0 && c.h6 == 0
    ensures Gain32(c, 358400) == 128 && Gain(c, 358400) == 128
  {
    assert 358400 * c.h6 == 0 && 358400 * c.h3 == 0;
  }

  lemma SmallCorrection(c: Calib, x: int)
    requires c.h1 == 0 && 0 <= x <= 7_000_000
    ensures CorrectSteps(c, x)
  {
    SquareBound(x / 32768, 213);
  }

  // ----- the envelope -----

  /** Temperature, words and their distance from the reading are in range. */
  predicate Moderate(c: Calib, tFine: int, adc: int) {
    && -204800 <= tFine <= 435200
    && 0 <= c.h1 <= 127 && 0 <= c.h2 <= 400 && 0 <= c.h3 <= 16
    && 0 <= c.h4 <= 1023 && -100 <= c.h5 <= 100 && -32 <= c.h6 <= 32
    && -47000 <= adc - 64 * c.h4 <= 47000
  }

  predicate Envelope(c: Calib, tFine: int, adc: int) {
    Moderate(c, tFine, adc) && 0 <= adc <= 0xFFFF
  }

  lemma OffsetExact(c: Calib, tFine: int, adc: int)
    requires Envelope(c, tFine, adc)
    ensures var v := tFine - 76800;
            && OffsetSteps(c, v, adc)
            && Offset32(c, v, adc) == Offset(c, v, adc) && -24595 <= Offset(c, v, adc) <= 24595
  {
    var v := tFine - 76800;
    MulBound(c.h5, v, 100, 358400);
    assert adc * 0x4000 - c.h4 * 0x10_0000 == (adc - 64 * c.h4) * 0x4000;
  }

  lemma SlopeExact(c: Calib, v: int)
    requires -281600 <= v <= 358400 && 0 <= c.h3 <= 16 && -32 <= c.h6 <= 32
    ensures SlopeSteps(c, v) && Slope32(c, v) == Slope(c, v)
    ensures -389026 <= Slope(c, v) <= 389026
  {
    MulBound(v, c.h6, 358400, 32);
    MulBound(v, c.h3, 358400, 16);
    MulBound(v * c.h6 / 1024, v * c.h3 / 2048 + 32768, 11200, 35568);
  }

  lemma GainExact(c: Calib, v: int)
    requires -281600 <= v <= 358400 && 0 <= c.h2 <= 400 && 0 <= c.h3 <= 16 && -32 <= c.h6 <= 32
    ensures SlopeSteps(c, v) && ScaleSteps(Slope32(c, v), c.h2)
    ensures Gain32(c, v) == Gain(c, v) && 0 <= Gain(c, v) <= 60699
  {
    SlopeExact(c, v);
    ScaleExact(Slope(c, v), c.h2);
  }

  lemma ScaleExact(slope: int, h2: int)
    requires -389026 <= slope <= 389026 && 0 <= h2 <= 400
    ensures ScaleSteps(slope, h2) && Scale32(slope, h2) == Scale(slope, h2) && 0 <= Scale(slope, h2) <= 60699
  {
    MulMono(h2, 0, slope + 2097152);
    MulMono(slope + 2097152, h2, 400);
  }

  lemma CorrectExact(c: Calib, x: int)
    requires 0 <= c.h1 <= 127 && -1_492_900_000 <= x <= 1_492_900_000
    ensures CorrectSteps(c, x) && Correct32(c, x) == Correct(c, x)
  {
    var y := x / 32768;
    SquareBound(y, 45560);
    MulBound(y * y / 128, c.h1, 16216700, 127);
  }

  /** Within the envelope no step wraps, so the machine result is the integer formula, clamped to 0..100
      percent. */
  lemma HumidityExact(c: Calib, tFine: int, adc: int)
    requires Envelope(c, tFine, adc)
    ensures NoStepWraps(c, tFine, adc)
    ensures Percent1024(c, tFine, adc) == Clamped(Unclamped(c, tFine, adc))
  {
    hide OffsetSteps, SlopeSteps, ScaleSteps, CorrectSteps, Offset32, Slope32, Correct32, Percent1024, Unclamped;
    var v := tFine - 76800;
    OffsetExact(c, tFine, adc);
    GainExact(c, v);
    MulBound(Offset(c, v, adc), Gain(c, v), 24595, 60699);
    CorrectExact(c, Offset(c, v, adc) * Gain(c, v));
    MachineIsUnbounded(c, tFine, adc);
  }

  /** For any calibration words, the result is within 0..100 percent, and the 16-bit variant is its
      half: cutting to u16 loses nothing. */
  lemma SixteenBitIsHalf(c: Calib, tFine: int, adc: int)
    ensures 0 <= Percent1024(c, tFine, adc) <= 102400
    ensures Percent512(c, tFine, adc) == Percent1024(c, tFine, adc) / 2
  {}
}

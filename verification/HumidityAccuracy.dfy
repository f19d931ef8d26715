/** The s32 humidity against the formula of the floating-point variant, in exact arithmetic. */
module HumidityAccuracy {
  import opened Machine
  import opened Calibration
  import opened Humidity
  import opened Reals

  // ----- the exact formula -----

  function RawHumidity(c: Calib, v: real, adc: int): real {
    (adc as real - (c.h4 as real * 64.0 + c.h5 as real / 16384.0 * v))
    * (c.h2 as real / 65536.0 * (1.0 + c.h6 as real / 67108864.0 * v * (1.0 + c.h3 as real / 67108864.0 * v)))
  }

  function Corrected(h: real, h1: real): real {
    h * (1.0 - h1 * h / 524288.0)
  }

  function ClampPercent(h: real): real {
    if h > 100.0 then 100.0 else if h < 0.0 then 0.0 else h
  }

  /** Relative humidity in percent. */
  function ExactPercent(c: Calib, tFine: int, adc: int): real {
    var h := RawHumidity(c, (tFine - 76800) as real, adc);
    ClampPercent(Corrected(h, c.h1 as real))
  }

  // ----- the gain -----

  function SlopeReal(p: real, q: real): real { p * q / 1024.0 }

  lemma SlopeError(p: real, p': int, q: real, q': int)
    requires 0.0 <= p - p' as real < 1.0 && 0.0 <= q - q' as real < 1.0
    requires -11200 <= p' <= 11200 && 0 <= q' <= 35568
    ensures -11.0 < SlopeReal(p, q) - (p' * q' / 1024) as real < 46.7
  {
    SlopeProduct(p, p' as real, q, q' as real);
    IntProduct(p', q');
    SlopeFloor(p * q, p' * q');
  }

  lemma SlopeProduct(p: real, a: real, q: real, b: real)
    requires 0.0 <= p - a < 1.0 && 0.0 <= q - b < 1.0 && -11200.0 <= a <= 11200.0 && 0.0 <= b <= 35568.0
    ensures -11200.0 <= p * q - a * b <= 46769.0
  {
    var e, f := p - a, q - b;
    RealMulRange(q, 35569.0, e, 0.0, 1.0);
    RealMulBound(a, f, 11200.0, 1.0);
    assert q * e == q * p - q * a && a * f == a * q - a * b;
    assert p * q - a * b == q * e + a * f;
    assert q * e + a * f <= 46769.0;
  }

  lemma SlopeFloor(pq: real, n: int)
    requires -11200.0 <= pq - n as real <= 46769.0
    ensures -11.0 < pq / 1024.0 - (n / 1024) as real < 46.7
  {
    assert n as real == 1024.0 * (n / 1024) as real + (n % 1024) as real;
  }

  lemma GainError(s: real, slope: int, h2: int)
    requires -11.0 < s - slope as real < 46.7 && 0 <= h2 <= 400
    ensures Near((s + 2097152.0) * h2 as real / 16384.0, Scale(slope, h2) as real, 1.65)
  {
    GainProduct(s + 2097152.0, (slope + 2097152) as real, h2 as real);
    IntProduct(slope + 2097152, h2);
    GainFloor((s + 2097152.0) * h2 as real, (slope + 2097152) * h2);
  }

  lemma GainProduct(x: real, a: real, h: real)
    requires -11.0 <= x - a <= 46.7 && 0.0 <= h <= 400.0
    ensures -4400.0 <= x * h - a * h <= 18680.0
  {
    var e := x - a;
    RealMulRange(h, 400.0, e, -11.0, 46.7);
    assert h * e == h * x - h * a;
  }

  lemma GainFloor(x: real, n: int)
    requires -4400.0 <= x - n as real <= 18680.0
    ensures Near(x / 16384.0, ((n + 8192) / 16384) as real, 1.65)
  {
    var m := n + 8192;
    assert m as real == 16384.0 * (m / 16384) as real + (m % 16384) as real;
  }

  function GainReal(c: Calib, v: int): real {
    (SlopeReal((v * c.h6) as real / 1024.0, (v * c.h3) as real / 2048.0 + 32768.0) + 2097152.0) * c.h2 as real / 16384.0
  }

  lemma FloorOf(n: int, d: int)
    requires d == 1024 || d == 2048
    ensures 0.0 <= n as real / d as real - (n / d) as real < 1.0
  {
    assert n as real == d as real * (n / d) as real + (n % d) as real;
  }

  lemma GainAccurate(c: Calib, v: int)
    requires -281600 <= v <= 358400 && 0 <= c.h2 <= 400 && 0 <= c.h3 <= 16 && -32 <= c.h6 <= 32
    ensures Near(GainReal(c, v), Gain(c, v) as real, 1.65)
  {
    var p', q' := v * c.h6 / 1024, v * c.h3 / 2048 + 32768;
    MulBound(v, c.h6, 358400, 32);
    MulBound(v, c.h3, 358400, 16);
    FloorOf(v * c.h6, 1024);
    FloorOf(v * c.h3, 2048);
    SlopeError((v * c.h6) as real / 1024.0, p', (v * c.h3) as real / 2048.0 + 32768.0, q');
    GainError(SlopeReal((v * c.h6) as real / 1024.0, (v * c.h3) as real / 2048.0 + 32768.0), p' * q' / 1024, c.h2);
  }

  // ----- the product -----

  function OffsetReal(c: Calib, v: int, adc: int): real {
    ((adc - 64 * c.h4) * 0x4000 - c.h5 * v) as real / 32768.0
  }

  lemma OffsetAccurate(c: Calib, v: int, adc: int)
    ensures Near(OffsetReal(c, v, adc), Offset(c, v, adc) as real, 0.5)
  {
    var n := (adc - 64 * c.h4) * 0x4000 - c.h5 * v + 16384;
    assert n as real == 32768.0 * (n / 32768) as real + (n % 32768) as real;
  }

  lemma ProductError(o: real, o': int, g: real, g': int)
    requires Near(o, o' as real, 0.5) && Near(g, g' as real, 1.65)
    requires -24595 <= o' <= 24595 && 0 <= g' <= 60699
    ensures Near(Times(o, g), IntTimes(o', g') as real, 71000.0)
    ensures Near(Times(o, g), 0.0, 1_493_000_000.0)
  {
    hide Times, IntTimes;
    TimesBound(o' as real, g - g' as real, 24595.0, 1.65, 40600.0);
    TimesBound(o - o' as real, g, 0.5, 60701.0, 30351.0);
    TimesBound(o, g, 24595.5, 60701.0, 1_493_000_000.0);
    ExpandTimes(o, o', g, g');
  }

  lemma ExpandTimes(o: real, o': int, g: real, g': int)
    ensures Times(o, g) == IntTimes(o', g') as real + Times(o - o' as real, g) + Times(o' as real, g - g' as real)
  {
    IntProduct(o', g');
    Expand(o, o' as real, g, g' as real);
  }

  /** The product of the two real factors is the exact humidity, before correction, times 2^22. */
  lemma ProductIsRawHumidity(c: Calib, v: int, adc: int)
    ensures OffsetReal(c, v, adc) * GainReal(c, v) == 4194304.0 * RawHumidity(c, v as real, adc)
  {
    var vr, h3, h6, h2 := v as real, c.h3 as real, c.h6 as real, c.h2 as real;
    assert (v * c.h6) as real == vr * h6 && (v * c.h3) as real == vr * h3 && (c.h5 * v) as real == c.h5 as real * vr;
    var k := 1.0 + h6 / 67108864.0 * vr * (1.0 + h3 / 67108864.0 * vr);
    SlopeIdentity(vr, h3, h6);
    assert GainReal(c, v) == 8388608.0 * (h2 / 65536.0 * k);
    var o := adc as real - (c.h4 as real * 64.0 + c.h5 as real / 16384.0 * vr);
    assert OffsetReal(c, v, adc) == o / 2.0;
    Regroup(o, h2 / 65536.0 * k);
  }

  lemma SlopeIdentity(v: real, h3: real, h6: real)
    ensures SlopeReal(v * h6 / 1024.0, v * h3 / 2048.0 + 32768.0) + 2097152.0
            == 2097152.0 * (1.0 + h6 / 67108864.0 * v * (1.0 + h3 / 67108864.0 * v))
  {}

  lemma Regroup(o: real, g: real)
    ensures o / 2.0 * (8388608.0 * g) == 4194304.0 * (o * g)
  {}

  // ----- the correction -----

  function CorrectReal(x: real, h1: real): real { x - x * x * h1 / 2199023255552.0 }

  lemma CorrectError(c: Calib, x: int)
    requires -1_492_900_000 <= x <= 1_492_900_000 && 0 <= c.h1 <= 127
    ensures Near(CorrectReal(x as real, c.h1 as real), Correct(c, x) as real, 5670.0)
  {
    var z := (x / 32768) * (x / 32768) / 128;
    SquareError(x);
    MulBound(x * x - 0x20_0000_0000 * z, c.h1, 97_980_000_000_000, 127);
    assert x * x * c.h1 == 0x20_0000_0000 * (z * c.h1) + (x * x - 0x20_0000_0000 * z) * c.h1;
    IntProduct(x, x);
    IntProduct(x * x, c.h1);
    CorrectFloor(x, x * x * c.h1, z * c.h1);
  }

  /** floor(x / 2^15)^2 / 2^7 against x^2 / 2^37. */
  lemma SquareError(x: int)
    requires -1_492_900_000 <= x <= 1_492_900_000
    ensures var z := (x / 32768) * (x / 32768) / 128;
            -97_980_000_000_000 <= x * x - 0x20_0000_0000 * z <= 97_980_000_000_000
  {
    var y, r := x / 32768, x % 32768;
    SquareOfSum(y, r);
    assert x == 32768 * y + r;
    MulBound(r, 65536 * y + r, 32767, 2_985_900_000);
  }

  lemma SquareOfSum(y: int, r: int)
    ensures (32768 * y + r) * (32768 * y + r) == 0x4000_0000 * (y * y) + r * (65536 * y + r)
  {}

  lemma CorrectFloor(x: int, xxh: int, zh: int)
    requires -12_443_460_000_000_000 <= xxh - 0x20_0000_0000 * zh <= 12_443_460_000_000_000
    ensures Near(x as real - xxh as real / 2199023255552.0, (x - zh / 16) as real, 5670.0)
  {
    var w := zh / 16;
    var d := xxh - 2199023255552 * w;
    assert -5670 * 2199023255552 <= d <= 5670 * 2199023255552;
    assert xxh as real == 2199023255552.0 * w as real + d as real;
  }

  lemma CorrectLipschitz(x: real, x': real, h1: real)
    requires Near(x, 0.0, 1_493_000_000.0) && Near(x', 0.0, 1_493_000_000.0) && Near(x, x', 71000.0)
             && 0.0 <= h1 <= 127.0
    ensures Near(CorrectReal(x, h1), CorrectReal(x', h1), 83300.0)
  {
    var d := (x + x') * (x - x');
    RealMulBound(x + x', x - x', 2_986_000_000.0, 71000.0);
    RealMulBound(d, h1, 212_006_000_000_000.0, 127.0);
    SquaresDiffer(x, x', h1);
    LipschitzSum(x, x', x * x * h1, x' * x' * h1);
  }

  lemma SquaresDiffer(x: real, x': real, h1: real)
    ensures x * x * h1 - x' * x' * h1 == (x + x') * (x - x') * h1
  {}

  lemma LipschitzSum(x: real, x': real, a: real, a': real)
    requires Near(x, x', 71000.0) && Near(a, a', 26_924_762_000_000_000.0)
    ensures Near(x - a / 2199023255552.0, x' - a' / 2199023255552.0, 83300.0)
  {}

  /** Clamping brings two values no further apart. */
  lemma ClampError(u: int, h: real)
    requires Near(u as real, 1024.0 * h, 23.0)
    ensures Near((if u < 0 then 0 else if u > 102400 then 102400 else u) as real, 1024.0 * ClampPercent(h), 23.0)
  {}

  lemma CorrectedHumidity(h: real, h1: real)
    ensures CorrectReal(4194304.0 * h, h1) == 4194304.0 * Corrected(h, h1)
  {}

  /** The unclamped machine value against the exact corrected humidity h. */
  lemma UnclampedAccurate(c: Calib, v: int, adc: int, h: real)
    requires -281600 <= v <= 358400 && Envelope(c, v + 76800, adc)
    requires h == RawHumidity(c, v as real, adc)
    ensures Near(Correct(c, Offset(c, v, adc) * Gain(c, v)) as real,
                 4194304.0 * Corrected(h, c.h1 as real), 89000.0)
  {
    hide GainReal, OffsetReal, Gain, Offset, RawHumidity, CorrectReal, Correct, Corrected, Gain32, Offset32;
    var o, g := Offset(c, v, adc), Gain(c, v);
    OffsetExact(c, v + 76800, adc);
    GainExact(c, v);
    OffsetAccurate(c, v, adc);
    GainAccurate(c, v);
    ProductIsRawHumidity(c, v, adc);
    CorrectedHumidity(h, c.h1 as real);
    CombineErrors(c, OffsetReal(c, v, adc), o, GainReal(c, v), g, 4194304.0 * h, o * g);
  }

  lemma CombineErrors(c: Calib, o: real, o': int, g: real, g': int, x: real, x': int)
    requires x == o * g && x' == o' * g'
    requires Near(o, o' as real, 0.5) && Near(g, g' as real, 1.65)
    requires -24595 <= o' <= 24595 && 0 <= g' <= 60699 && 0 <= c.h1 <= 127
    ensures Near(Correct(c, x') as real, CorrectReal(x, c.h1 as real), 89000.0)
  {
    ProductError(o, o', g, g');
    MulBound(o', g', 24595, 60699);
    CorrectError(c, x');
    CorrectLipschitz(x, x' as real, c.h1 as real);
  }

  /** Within the envelope the s32 humidity is within 23/1024 (0.0225) percent of the exact one. */
  lemma HumidityAccurate(c: Calib, tFine: int, adc: int)
    requires Envelope(c, tFine, adc)
    ensures Near(Percent1024(c, tFine, adc) as real, 1024.0 * ExactPercent(c, tFine, adc), 23.0)
  {
    hide RawHumidity, Correct, Offset, Gain, Percent1024, Near, ClampPercent, Corrected;
    var v := tFine - 76800;
    var h := RawHumidity(c, v as real, adc);
    var k := Corrected(h, c.h1 as real);
    assert ExactPercent(c, tFine, adc) == ClampPercent(k);
    assert Unclamped(c, tFine, adc) == Correct(c, Offset(c, v, adc) * Gain(c, v)) / 4096;
    HumidityExact(c, tFine, adc);
    UnclampedAccurate(c, v, adc, h);
    FinalScale(Correct(c, Offset(c, v, adc) * Gain(c, v)), k);
    ClampError(Unclamped(c, tFine, adc), k);
  }

  /** What the floating-point variant returns: it takes a t_fine of 76800 for invalid data. */
  function DoublePercent(c: Calib, tFine: int, adc: int): real {
    if tFine == 76800 then 0.0 else ExactPercent(c, tFine, adc)
  }

  /** The two variants agree to that accuracy if and only if t_fine is not 76800 (15 degrees), or the
      reading is so low that the humidity there is below 24/1024 percent. */
  lemma AgreesWithDouble(c: Calib, tFine: int, adc: int)
    requires Envelope(c, tFine, adc)
    ensures Near(Percent1024(c, tFine, adc) as real, 1024.0 * DoublePercent(c, tFine, adc), 23.0) <==>
              (tFine != 76800 || (adc - 64 * c.h4 + 1) / 2 * c.h2 < 768)
  {
    hide Percent1024, ExactPercent;
    SixteenBitIsHalf(c, tFine, adc);
    HumidityAccurate(c, tFine, adc);
    if tFine == 76800 {
      LowAt15Degrees(c, adc);
    }
  }

  /** At 15 degrees offset and gain are simple, so the reading tells whether the result is next to nothing. */
  lemma LowAt15Degrees(c: Calib, adc: int)
    requires Envelope(c, 76800, adc)
    ensures Percent1024(c, 76800, adc) <= 23 <==> (adc - 64 * c.h4 + 1) / 2 * c.h2 < 768
  {
    hide Correct, Gain, Offset, Percent1024, Unclamped;
    var o := (adc - 64 * c.h4 + 1) / 2;
    HumidityExact(c, 76800, adc);
    UnclampedAt15Degrees(c, adc);
    SmallProduct(o, c.h2);
    CorrectBelow24(c, 128 * (o * c.h2));
    Below24(Correct(c, 128 * (o * c.h2)));
  }

  lemma SmallProduct(o: int, h2: int)
    requires -23500 <= o <= 23501 && 0 <= h2 <= 400
    ensures -1_203_300_000 <= 128 * (o * h2) <= 1_203_300_000
  {
    MulBound(o, h2, 23501, 400);
  }

  lemma Below24(n: int)
    ensures n / 4096 <= 23 <==> n < 24 * 4096
  {}

  lemma UnclampedAt15Degrees(c: Calib, adc: int)
    ensures Unclamped(c, 76800, adc) == Correct(c, 128 * ((adc - 64 * c.h4 + 1) / 2 * c.h2)) / 4096
  {
    hide Correct, Gain, Offset;
    GainAt15Degrees(c);
    OffsetAt15Degrees(c, adc);
    Regroup128((adc - 64 * c.h4 + 1) / 2, c.h2);
  }

  lemma Regroup128(o: int, h: int)
    ensures o * (128 * h) == 128 * (o * h)
  {}

  lemma OffsetAt15Degrees(c: Calib, adc: int)
    ensures Offset(c, 0, adc) == (adc - 64 * c.h4 + 1) / 2
  {
    assert c.h5 * 0 == 0;
  }

  lemma GainAt15Degrees(c: Calib)
    ensures Gain(c, 0) == 128 * c.h2
  {
    assert 0 * c.h6 == 0 && 0 * c.h3 == 0;
    assert Slope(c, 0) == 0;
  }

  /** The quadratic correction cannot move a product across 24/1024 percent. */
  lemma CorrectBelow24(c: Calib, x: int)
    requires 0 <= c.h1 <= 127 && -1_203_300_000 <= x <= 1_203_300_000
    ensures Correct(c, x) < 24 * 4096 <==> x < 24 * 4096
  {
    var y := x / 32768;
    var z := y * y / 128;
    assert -36723 <= y <= 36723;
    SquareBound(y, 36723);
    MulMono(z, 0, c.h1);
    if x >= 24 * 4096 {
      if y <= 3 {
        assert y == 3 && z == 0;
      } else {
        MulMono(z, c.h1, 128);
        MulMono(y, y, 36723);
      }
    }
  }

  /** An ordinary chip and an ordinary reading at 15 degrees: 27.3 percent, and 0 from the
      floating-point variant. */
  lemma DisagreesAt15Degrees()
    ensures exists c: Calib, adc: int ::
              && Words(c) && Envelope(c, 76800, adc)
              && Percent1024(c, 76800, adc) == 27989 && DoublePercent(c, 76800, adc) == 0.0
  {
    var c := Calib(0, 0, 0, 0, 0, 0, 0, 0, 0, 0, 0, 0, 75, 362, 0, 313, 50, 30);
    assert Words(c) && Envelope(c, 76800, 25000);
    ExampleAt15Degrees(c);
  }

  lemma ExampleAt15Degrees(c: Calib)
    requires Envelope(c, 76800, 25000) && c.h1 == 75 && c.h2 == 362 && c.h4 == 313
    ensures Percent1024(c, 76800, 25000) == 27989
  {
    hide Percent1024, Unclamped;
    HumidityExact(c, 76800, 25000);
    UnclampedAt15Degrees(c, 25000);
    var x := 128 * ((25000 - 64 * 313 + 1) / 2 * 362);
    assert x == 115_098_624 && x / 32768 == 3512 && 3512 * 3512 / 128 == 96360;
    assert Correct(c, x) == 114_646_937;
  }

  lemma FinalScale(n: int, h: real)
    requires Near(n as real, 4194304.0 * h, 89000.0)
    ensures Near((n / 4096) as real, 1024.0 * h, 23.0)
  {
    assert n as real == 4096.0 * (n / 4096) as real + (n % 4096) as real;
  }
}

/** What the numbers that leave the sensor mean: value / divider against the exact formulas. */
module SensorAccuracy {
  import opened Machine
  import opened Calibration
  import opened Reals
  import opened Bus
  import opened Protocol
  import opened SgmData
  import opened Driver
  import opened Sensor
  import Temperature
  import Pressure
  import PressureAccuracy
  import PressureAccuracy32
  import Humidity
  import HumidityAccuracy

  /** The quantity a record stands for. */
  function Quantity(r: SgmProcessData): real
    requires r.divider > 0
  {
    r.value as real / r.divider as real
  }

  /** The raw readings of the three conversions, and the t_fine of the first. */
  datatype Readings = Readings(temperature: int, pressure: int, humidity: int, tFine: int)

  function ReadingsOf(u: Setup, b: Bench): Readings {
    var st1 := ForcedRead(u.env, b.st);
    var st2 := ForcedRead(u.env, st1);
    var adc := FetchedRaw(u.env, b.st).temperature;
    Readings(adc, FetchedRaw(u.env, st1).pressure, FetchedRaw(u.env, st2).humidity, Temperature.TFine(u.cal, adc))
  }

  /** Calibration and readings for which the fixed-point formulas are known not to overflow, at a
      pressure that the record can hold. */
  predicate Measurable(u: Setup, r: Readings) {
    && Temperature.Envelope(u.cal, r.temperature)
    && Pressure.Moderate32(u.cal, r.tFine) && PressureAccuracy32.Divisible(u.cal, r.tFine, r.pressure)
    && 52.0 <= PressureAccuracy.ExactPascals(u.cal, r.tFine, r.pressure) <= 1_000_000.0
    && Humidity.Moderate(u.cal, r.tFine, r.humidity)
  }

  /** Whatever the bus delivers, the readings have 20, 20 and 16 bits. */
  lemma ReadingsHaveBits(u: Setup, b: Bench)
    ensures var r := ReadingsOf(u, b);
            0 <= r.temperature < 0x10_0000 && 0 <= r.pressure < 0x10_0000 && 0 <= r.humidity < 0x1_0000
  {
    hide ForcedRead, Started, DecodeBurst, Received, Temperature.TFine;
    var st1 := ForcedRead(u.env, b.st);
    FetchedHasBits(u.env, b.st);
    FetchedHasBits(u.env, st1);
    FetchedHasBits(u.env, ForcedRead(u.env, st1));
  }

  lemma FetchedHasBits(env: Env, st: State)
    ensures var raw := FetchedRaw(env, st);
            && 0 <= raw.pressure < 0x10_0000 && 0 <= raw.temperature < 0x10_0000 && 0 <= raw.humidity < 0x1_0000
  {
    hide Started, DecodeBurst, Received;
    var n := Started(env, st).now;
    BurstRange(Received(env, n, env(n).data));
  }

  lemma EnvelopesHold(u: Setup, r: Readings)
    requires Measurable(u, r) && 0 <= r.pressure < 0x10_0000 && 0 <= r.humidity < 0x1_0000
    ensures Temperature.Envelope(u.cal, r.temperature) && PressureAccuracy32.InRange(u.cal, r.tFine, r.pressure)
    ensures Humidity.Envelope(u.cal, r.tFine, r.humidity)
  {}

  lemma TemperatureRecordAccurate(u: Setup, st: State, adc: int)
    requires Temperature.Envelope(u.cal, adc)
    ensures Near(Quantity(TemperatureRecord(u, st, Temperature.TFine(u.cal, adc))),
                 Temperature.ExactDegrees(u.cal, adc), 0.01)
  {
    Temperature.TemperatureAccurate(u.cal, adc);
  }

  lemma PressureRecordAccurate(u: Setup, st: State, tFine: int, adc: int)
    requires PressureAccuracy32.InRange(u.cal, tFine, adc)
    requires 52.0 <= PressureAccuracy.ExactPascals(u.cal, tFine, adc) <= 1_000_000.0
    ensures Near(Quantity(PressureRecord(u, st, tFine, adc)),
                 PressureAccuracy.ExactPascals(u.cal, tFine, adc) / 100.0, 0.52)
  {
    hide PressureAccuracy.ExactPascals, PressureAccuracy32.Gap, PressureAccuracy32.Signed,
         PressureAccuracy32.InRange, Pressure.Pascals;
    PressureAccuracy32.PressureAccurate32(u.cal, tFine, adc);
    var v := PressureAccuracy32.Signed(u.cal, tFine, adc);
    assert 0 <= v < 0x8000_0000;
  }

  lemma HumidityRecordAccurate(u: Setup, st: State, tFine: int, adc: int)
    requires Humidity.Envelope(u.cal, tFine, adc)
    ensures Near(Quantity(HumidityRecord(u, st, tFine, adc)), HumidityAccuracy.ExactPercent(u.cal, tFine, adc), 0.0225)
  {
    hide HumidityAccuracy.ExactPercent, Humidity.Percent1024, Humidity.Envelope;
    Humidity.SixteenBitIsHalf(u.cal, tFine, adc);
    HumidityAccuracy.HumidityAccurate(u.cal, tFine, adc);
  }

  /** The three records of an acquisition, divided out, are within 0.01 degree, 0.52 hPa and 0.0225
      percent of what the exact formulas give for the readings they were made from. */
  lemma AcquisitionAccurate(u: Setup, b: Bench)
    requires Measurable(u, ReadingsOf(u, b))
    ensures var r, records := ReadingsOf(u, b), AllMeasured(u, b, STANDARD_QUANTITIES);
            && |records| == 3
            && records[0].divider == 100 && records[1].divider == 100 && records[2].divider == 1024
            && Near(Quantity(records[0]), Temperature.ExactDegrees(u.cal, r.temperature), 0.01)
            && Near(Quantity(records[1]), PressureAccuracy.ExactPascals(u.cal, r.tFine, r.pressure) / 100.0, 0.52)
            && Near(Quantity(records[2]), HumidityAccuracy.ExactPercent(u.cal, r.tFine, r.humidity), 0.0225)
  {
    hide PressureAccuracy.ExactPascals, HumidityAccuracy.ExactPercent, Temperature.ExactDegrees, Temperature.TFine,
         Quantity, ForcedRead, FetchedRaw, Pressure.Pascals, Humidity.Percent1024, Temperature.Hundredths, Near,
         PressureAccuracy32.InRange, PressureAccuracy32.Divisible, Humidity.Envelope, Temperature.Envelope,
         Pressure.Moderate32, Humidity.Moderate;
    var r := ReadingsOf(u, b);
    ReadingsHaveBits(u, b);
    EnvelopesHold(u, r);
    var st1 := ForcedRead(u.env, b.st);
    var st2 := ForcedRead(u.env, st1);
    StandardRecords(u, b);
    TemperatureRecordAccurate(u, st1, r.temperature);
    PressureRecordAccurate(u, st2, r.tFine, r.pressure);
    HumidityRecordAccurate(u, ForcedRead(u.env, st2), r.tFine, r.humidity);
  }

  /** The calibration words of the worked example in the BMP280 datasheet, section 3.12, with ordinary
      humidity words beside them. */
  const EXAMPLE: Calib := Calib(
    27504, 26435, -1000,
    36477, -10685, 3024, 2855, 140, -7, 15500, -14600, 6000,
    75, 362, 0, 313, 50, 30)

  /** The envelopes hold of an ordinary chip on an ordinary day: 25.08 degrees, 1006.56 hPa. */
  lemma EnvelopesHoldOfExample()
    ensures Temperature.Envelope(EXAMPLE, 519888) && Temperature.Hundredths(Temperature.TFine(EXAMPLE, 519888)) == 2508
    ensures PressureAccuracy32.InRange(EXAMPLE, Temperature.TFine(EXAMPLE, 519888), 415148)
    ensures Pressure.Pascals(EXAMPLE, Temperature.TFine(EXAMPLE, 519888), 415148) == 100656
    ensures Humidity.Envelope(EXAMPLE, Temperature.TFine(EXAMPLE, 519888), 30000)
  {
    hide PressureAccuracy32.InRange, Pressure.Pascals, Temperature.TFine;
    TemperatureOfExample();
    DivisorOfExample();
    PressureOfExample();
  }

  lemma TemperatureOfExample()
    ensures Temperature.TFine(EXAMPLE, 519888) == 128422
  {
    var a := 519888 / 8 - 2 * 27504;
    assert a == 9978 && a * 26435 / 2048 == 128793;
    assert (519888 / 16 - 27504) == 4989 && 4989 * 4989 / 4096 * -1000 / 16384 == -371;
  }

  lemma DivisorOfExample()
    ensures Pressure.DivisorOf(EXAMPLE, 211) == 36471 && Pressure.RawPressure(EXAMPLE, 211, 415148) == 587745
  {
    var s := (211 / 4) * (211 / 4);
    assert s == 2704;
    assert Pressure.Scale(3024 * (s / 8192), -10685 * 211) == -5;
    assert Pressure.Offset(EXAMPLE, 211) == 187120048;
  }

  lemma PressureOfExample()
    requires Pressure.DivisorOf(EXAMPLE, 211) == 36471 && Pressure.RawPressure(EXAMPLE, 211, 415148) == 587745
    ensures PressureAccuracy32.InRange(EXAMPLE, 128422, 415148) && Pressure.Pascals(EXAMPLE, 128422, 415148) == 100656
  {
    hide Pressure.DivisorOf, Pressure.RawPressure, Pressure.Pascals, Pressure.CorrectOf;
    assert Pressure.ExactQuotient(EXAMPLE, 211, 415148) == 100721;
    Pressure.Pressure32Exact(EXAMPLE, 128422, 415148);
    assert Pressure.Loss(3125 * 587745, 36471) == 0;
    CorrectOfExample();
  }

  lemma CorrectOfExample()
    ensures Pressure.CorrectOf(EXAMPLE, 100721) == 100656
  {
    var m := (100721 / 8) * (100721 / 8) / 8192;
    assert m == 19349;
  }

  /** The s64 pressure and the humidity of the same day, bit by bit: 1006.53 hPa, 55.0 percent. */
  lemma OthersOfExample()
    ensures Pressure.Pascals256(EXAMPLE, 128422, 415148) == 25767233
    ensures Humidity.Percent1024(EXAMPLE, 128422, 30000) == 56317
  {
    PressureOfExample64();
    HumidityOfExample();
  }

  lemma PressureOfExample64()
    ensures Pressure.Pascals256(EXAMPLE, 128422, 415148) == 25767233
  {
    hide Pressure.Pascals256, Pressure.Correct;
    QuotientOfExample();
    CorrectOfExample64();
    Pressure.Pressure64Exact(EXAMPLE, 128422, 415148);
  }

  lemma QuotientOfExample()
    ensures Pressure.Divisor(EXAMPLE, 422) == 597560748
    ensures Pressure.Numerator(EXAMPLE, 422, 415148) == 3944285864554787500
    ensures Quotient(3944285864554787500, 597560748) == 6600644165
  {
    assert 422 * 422 * 3024 / 256 == 2103617 && 422 * -10685 * 4096 == -18469150720;
  }

  lemma CorrectOfExample64()
    ensures Pressure.Correct(EXAMPLE, 6600644165) == 25767233
  {
    var q := 6600644165 / 8192;
    assert q == 805742;
  }

  lemma HumidityOfExample()
    ensures Humidity.Percent1024(EXAMPLE, 128422, 30000) == 56317
  {
    hide Humidity.Percent1024, Humidity.Correct, Humidity.Offset, Humidity.Gain;
    assert Humidity.Offset(EXAMPLE, 51622, 30000) == 4905 by { OffsetOfExample(); }
    assert Humidity.Gain(EXAMPLE, 51622) == 47405 by { GainOfExample(); }
    CorrectOfExampleHumidity();
    Humidity.HumidityExact(EXAMPLE, 128422, 30000);
  }

  lemma OffsetOfExample()
    ensures Humidity.Offset(EXAMPLE, 51622, 30000) == 4905
  {}

  lemma GainOfExample()
    ensures Humidity.Gain(EXAMPLE, 51622) == 47405
  {
    assert 51622 * 30 / 1024 == 1512 && 51622 * 0 / 2048 == 0;
    assert Humidity.Slope(EXAMPLE, 51622) == 48384;
  }

  lemma CorrectOfExampleHumidity()
    ensures Humidity.Correct(EXAMPLE, 4905 * 47405) == 230678058
  {
    var x := 4905 * 47405;
    assert x == 232521525 && x / 32768 == 7095;
  }
}

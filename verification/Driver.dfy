/** The driver itself.  Its structure shadows the chip's registers; each operation is tied to its
    effect on values (module Protocol), and its return code to the bus transactions that failed. */
module Driver {
  import opened Machine
  import opened Registers
  import opened Bus
  import opened Protocol
  import opened Runs
  import opened Calibration
  import opened FailingBus
  import WaitTime
  import Temperature
  import Pressure
  import Humidity

  const E_OUT_OF_RANGE: int := -2

  const PRESSURE_MSB_REG: int := 0xF7
  const TEMPERATURE_MSB_REG: int := 0xFA
  const HUMIDITY_MSB_REG: int := 0xFD

  /** Adds a transaction's status to a return code, an s8; the sum never wraps. */
  method Add(rc: int, r: int) returns (sum: int)
    requires -128 <= rc + r < 128
    ensures sum == rc + r
  {
    sum := S8(rc + r);
  }

  /** The readings a forced reading fetches: the burst after the write phase. */
  function FetchedRaw(env: Env, st: State): Raw {
    var n := Started(env, st).now;
    DecodeBurst(Received(env, n, env(n).data))
  }

  class Bme280 {
    const chip: Chip
    /** The register bytes and oversampling values of the driver structure. */
    var p: Shadow
    var cal: Calib
    var tFine: int
    /** The milliseconds of the last delay requested, and the transaction before which it was. */
    var delayed: int
    var delayedAt: nat

    /** A driver structure that nobody has initialised may hold anything. */
    constructor (chip: Chip, garbage: Shadow, cal: Calib, tFine: int)
      ensures this.chip == chip && this.p == garbage && this.cal == cal && this.tFine == tFine
    {
      this.chip, this.p, this.cal, this.tFine := chip, garbage, cal, tFine;
      this.delayed, this.delayedAt := 0, 0;
    }

    ghost function View(): State
      reads this, chip
    {
      State(chip.w, p)
    }

    // ----- building blocks -----

    method SetSoftRst() returns (rc: int)
      modifies chip
      ensures chip.w == AfterWrite(chip.env, old(chip.w), RST_REG, SOFT_RESET_CODE)
      ensures chip.Reports(old(chip.w.now), rc)
    {
      rc := chip.Write(RST_REG, SOFT_RESET_CODE);
    }

    method GetPowerMode() returns (rc: int, mode: bv8)
      modifies chip
      ensures chip.w == AfterRead(chip.env, old(chip.w))
      ensures mode == ReportedMode(chip.env, old(chip.w))
      ensures chip.Reports(old(chip.w.now), rc)
    {
      var v;
      rc, v := chip.Read(CTRL_MEAS_REG);
      mode := ModeOf(v);
    }

    /** The closing reads of every setter. */
    method ReadBackAll(rc0: int) returns (rc: int)
      requires -100 <= rc0 <= 0
      modifies this`p, chip
      ensures View() == ReadBack(chip.env, old(chip.w), old(p))
      ensures chip.w.now == old(chip.w.now) + 3
      ensures rc == rc0 + old(chip.Failed()) - chip.Failed() && rc0 - 3 <= rc <= rc0
    {
      hide AfterRead, ReadValue, Status;
      var r, v;
      r, v := chip.Read(CTRL_MEAS_REG);
      rc := Add(rc0, r);
      p := p.(meas := v);
      r, v := chip.Read(CTRL_HUM_REG);
      rc := Add(rc, r);
      p := p.(hum := v);
      r, v := chip.Read(CONFIG_REG);
      rc := Add(rc, r);
      p := p.(config := v);
    }

    /** Soft reset, then all three registers again, in the order config, ctrl_hum, ctrl_meas. */
    method ReplayAll(rc0: int, config: bv8, hum: bv8, meas: bv8) returns (rc: int)
      requires -100 <= rc0 <= 0
      modifies chip
      ensures chip.w == Replay(chip.env, old(chip.w), Bytes(config, hum, meas))
      ensures chip.w.now == old(chip.w.now) + 4
      ensures rc == rc0 + old(chip.Failed()) - chip.Failed() && rc0 - 4 <= rc <= rc0
    {
      var r := SetSoftRst();
      rc := Add(rc0, r);
      r := chip.Write(CONFIG_REG, config);
      rc := Add(rc, r);
      r := chip.Write(CTRL_HUM_REG, hum);
      rc := Add(rc, r);
      r := chip.Write(CTRL_MEAS_REG, meas);
      rc := Add(rc, r);
    }

    /** ctrl_hum, then ctrl_meas, which makes it effective. */
    method WriteHumThenMeas(rc0: int, hum: bv8, meas: bv8) returns (rc: int)
      requires -100 <= rc0 <= 0
      modifies chip
      ensures chip.w == AfterWrite(chip.env, AfterWrite(chip.env, old(chip.w), CTRL_HUM_REG, hum), CTRL_MEAS_REG, meas)
      ensures chip.w.now == old(chip.w.now) + 2
      ensures rc == rc0 + old(chip.Failed()) - chip.Failed() && rc0 - 4 <= rc <= rc0
    {
      var r := chip.Write(CTRL_HUM_REG, hum);
      rc := Add(rc0, r);
      r := chip.Write(CTRL_MEAS_REG, meas);
      rc := Add(rc, r);
    }

    // ----- setters -----

    /** The return code counts only the failures of the three closing reads. */
    method SetOversampTemperature(v: bv8) returns (rc: int)
      modifies this`p, chip
      ensures View() == SetField(chip.env, old(View()), OsrsT, v)
      ensures rc == Code(chip.env, old(View()), OsrsT, v)
      ensures chip.w.now >= 3 && rc == Failures(chip.env, chip.w.now - 3) - Failures(chip.env, chip.w.now)
    {
      hide AfterWrite, AfterRead, SetSlice, Failures, ReadBack;
      var data := SetSlice(OsrsT, p.meas, v);
      ghost var w0, b := chip.w, WantedBytes(p, OsrsT, v);
      assert b == Bytes(p.config, p.hum, data);
      var mode;
      rc, mode := GetPowerMode();
      if mode != SLEEP_MODE {
        rc := ReplayAll(rc, p.config, p.hum, data);
      } else {
        rc := chip.Write(CTRL_MEAS_REG, data);
      }
      assert chip.w == Install(chip.env, w0, b, MeasOnly);
      p := p.(osT := v);
      rc := ReadBackAll(0);
    }

    /** The return code counts only the failures of the three closing reads. */
    method SetOversampPressure(v: bv8) returns (rc: int)
      modifies this`p, chip
      ensures View() == SetField(chip.env, old(View()), OsrsP, v)
      ensures rc == Code(chip.env, old(View()), OsrsP, v)
      ensures chip.w.now >= 3 && rc == Failures(chip.env, chip.w.now - 3) - Failures(chip.env, chip.w.now)
    {
      hide AfterWrite, AfterRead, SetSlice, Failures, ReadBack;
      var data := SetSlice(OsrsP, p.meas, v);
      ghost var w0, b := chip.w, WantedBytes(p, OsrsP, v);
      assert b == Bytes(p.config, p.hum, data);
      var mode;
      rc, mode := GetPowerMode();
      if mode != SLEEP_MODE {
        rc := ReplayAll(rc, p.config, p.hum, data);
      } else {
        rc := chip.Write(CTRL_MEAS_REG, data);
      }
      assert chip.w == Install(chip.env, w0, b, MeasOnly);
      p := p.(osP := v);
      rc := ReadBackAll(0);
    }

    /** The return code counts every failed transaction of the call. */
    method SetOversampHumidity(v: bv8) returns (rc: int)
      modifies this`p, chip
      ensures View() == SetField(chip.env, old(View()), OsrsH, v)
      ensures rc == Code(chip.env, old(View()), OsrsH, v)
      ensures rc == old(chip.Failed()) - chip.Failed()
    {
      hide AfterWrite, AfterRead, SetSlice, Failures, ReadBack;
      var data := SetSlice(OsrsH, p.hum, v);
      ghost var w0, b := chip.w, WantedBytes(p, OsrsH, v);
      assert b == Bytes(p.config, data, p.meas);
      var mode;
      rc, mode := GetPowerMode();
      if mode != SLEEP_MODE {
        rc := ReplayAll(rc, p.config, data, p.meas);
      } else {
        rc := WriteHumThenMeas(rc, data, p.meas);
      }
      assert chip.w == Install(chip.env, w0, b, HumThenMeas);
      p := p.(osH := v);
      rc := ReadBackAll(rc);
    }

    /** A mode above 3 is refused without touching the bus. */
    method SetPowerMode(v: bv8) returns (rc: int)
      modifies this`p, chip
      ensures v > 3 ==> rc == -2 && View() == old(View())
      ensures v <= 3 ==> View() == SetField(chip.env, old(View()), Mode, v)
      ensures v <= 3 ==> rc == Code(chip.env, old(View()), Mode, v)
      ensures v <= 3 ==>
                chip.w.now >= 3 && rc == Failures(chip.env, chip.w.now - 3) - Failures(chip.env, chip.w.now)
      ensures Rejected(Mode, v) <==> v > 3
    {
      if v > NORMAL_MODE {
        return E_OUT_OF_RANGE;
      }
      rc := ChangePowerMode(v);
    }

    method ChangePowerMode(v: bv8) returns (rc: int)
      modifies this`p, chip
      ensures View() == SetField(chip.env, old(View()), Mode, v)
      ensures rc == Code(chip.env, old(View()), Mode, v)
      ensures chip.w.now >= 3 && rc == Failures(chip.env, chip.w.now - 3) - Failures(chip.env, chip.w.now)
    {
      hide AfterWrite, AfterRead, SetSlice, Failures, ReadBack;
      var data := SetSlice(Mode, p.meas, v);
      ghost var w0, b := chip.w, WantedBytes(p, Mode, v);
      assert b == Bytes(p.config, p.hum, data);
      var mode;
      rc, mode := GetPowerMode();
      if mode != SLEEP_MODE {
        rc := ReplayAll(rc, p.config, p.hum, data);
      } else {
        rc := chip.Write(CTRL_MEAS_REG, data);
      }
      assert chip.w == Install(chip.env, w0, b, MeasOnly);
      rc := ReadBackAll(0);
    }

    /** Every failure is counted, except that of the mode query when it reports sleep. */
    method SetSpi3(v: bv8) returns (rc: int)
      modifies this`p, chip
      ensures View() == SetField(chip.env, old(View()), Spi3, v)
      ensures rc == Code(chip.env, old(View()), Spi3, v)
      ensures var asleep := ReportedMode(chip.env, old(chip.w)) == SLEEP_MODE;
              rc == Failures(chip.env, old(chip.w.now) + if asleep then 1 else 0) - chip.Failed()
    {
      hide AfterWrite, AfterRead, SetSlice, Failures, ReadBack;
      var data := SetSlice(Spi3, p.config, v);
      ghost var w0, b := chip.w, WantedBytes(p, Spi3, v);
      assert b == Bytes(data, p.hum, p.meas);
      var mode;
      rc, mode := GetPowerMode();
      if mode != SLEEP_MODE {
        rc := ReplayAll(rc, data, p.hum, p.meas);
      } else {
        rc := chip.Write(CONFIG_REG, data);
      }
      assert chip.w == Install(chip.env, w0, b, ConfigOnly);
      rc := ReadBackAll(rc);
    }

    /** Every failure is counted, except that of the mode query when it reports sleep. */
    method SetFilter(v: bv8) returns (rc: int)
      modifies this`p, chip
      ensures View() == SetField(chip.env, old(View()), Filter, v)
      ensures rc == Code(chip.env, old(View()), Filter, v)
      ensures var asleep := ReportedMode(chip.env, old(chip.w)) == SLEEP_MODE;
              rc == Failures(chip.env, old(chip.w.now) + if asleep then 1 else 0) - chip.Failed()
    {
      hide AfterWrite, AfterRead, SetSlice, Failures, ReadBack;
      var data := SetSlice(Filter, p.config, v);
      ghost var w0, b := chip.w, WantedBytes(p, Filter, v);
      assert b == Bytes(data, p.hum, p.meas);
      var mode;
      rc, mode := GetPowerMode();
      if mode != SLEEP_MODE {
        rc := ReplayAll(rc, data, p.hum, p.meas);
      } else {
        rc := chip.Write(CONFIG_REG, data);
      }
      assert chip.w == Install(chip.env, w0, b, ConfigOnly);
      rc := ReadBackAll(rc);
    }

    /** Every failure is counted, except that of the mode query when it reports sleep. */
    method SetStandbyDurn(v: bv8) returns (rc: int)
      modifies this`p, chip
      ensures View() == SetField(chip.env, old(View()), Tsb, v)
      ensures rc == Code(chip.env, old(View()), Tsb, v)
      ensures var asleep := ReportedMode(chip.env, old(chip.w)) == SLEEP_MODE;
              rc == Failures(chip.env, old(chip.w.now) + if asleep then 1 else 0) - chip.Failed()
    {
      hide AfterWrite, AfterRead, SetSlice, Failures, ReadBack;
      var data := SetSlice(Tsb, p.config, v);
      ghost var w0, b := chip.w, WantedBytes(p, Tsb, v);
      assert b == Bytes(data, p.hum, p.meas);
      var mode;
      rc, mode := GetPowerMode();
      if mode != SLEEP_MODE {
        rc := ReplayAll(rc, data, p.hum, p.meas);
      } else {
        rc := chip.Write(CONFIG_REG, data);
      }
      assert chip.w == Install(chip.env, w0, b, ConfigOnly);
      rc := ReadBackAll(rc);
    }

    // ----- readings -----

    method ComputeWaitTime() returns (ms: int)
      ensures ms == WaitTime.DelayFrom(p)
    {
      ms := WaitTime.Delay(p.osT as nat, p.osP as nat, p.osH as nat);
    }

    method ReadUncompAll() returns (rc: int, raw: Raw)
      requires chip.nvm.Valid()
      modifies chip
      ensures chip.w == AfterRead(chip.env, old(chip.w)) && chip.Reports(old(chip.w.now), rc)
      ensures raw == DecodeBurst(Received(chip.env, old(chip.w.now), chip.env(old(chip.w.now)).data))
    {
      var a := new byte[8];
      assert chip.Memory(DATA_REG, 8) == chip.env(chip.w.now).data;
      rc := chip.ReadBlock(DATA_REG, a, 8);
      ghost var s := a[..8];
      raw := Raw(Decode20(a[0], a[1], a[2]), Decode20(a[3], a[4], a[5]), Decode16(a[6], a[7]));
      assert raw == DecodeBurst(s);
    }

    /** On a transfer that succeeds, the pressure that the burst would give. */
    method ReadUncompPressure() returns (rc: int, v: int)
      requires chip.nvm.Valid()
      modifies chip
      ensures chip.w == AfterRead(chip.env, old(chip.w))
      ensures rc == Status(chip.env(old(chip.w.now)))
      ensures rc == 0 ==> v == DecodeBurst(chip.env(old(chip.w.now)).data).pressure
    {
      var a := new byte[3];
      ghost var data := chip.env(chip.w.now).data;
      assert chip.Memory(PRESSURE_MSB_REG, 3) == data[PRESSURE_MSB_REG - DATA_REG..PRESSURE_MSB_REG - DATA_REG + 3];
      rc := chip.ReadBlock(PRESSURE_MSB_REG, a, 3);
      v := Decode20(a[0], a[1], a[2]);
    }

    /** On a transfer that succeeds, the temperature that the burst would give. */
    method ReadUncompTemperature() returns (rc: int, v: int)
      requires chip.nvm.Valid()
      modifies chip
      ensures chip.w == AfterRead(chip.env, old(chip.w))
      ensures rc == Status(chip.env(old(chip.w.now)))
      ensures rc == 0 ==> v == DecodeBurst(chip.env(old(chip.w.now)).data).temperature
    {
      var a := new byte[3];
      ghost var data := chip.env(chip.w.now).data;
      assert chip.Memory(TEMPERATURE_MSB_REG, 3) ==
             data[TEMPERATURE_MSB_REG - DATA_REG..TEMPERATURE_MSB_REG - DATA_REG + 3];
      rc := chip.ReadBlock(TEMPERATURE_MSB_REG, a, 3);
      v := Decode20(a[0], a[1], a[2]);
    }

    /** On a transfer that succeeds, the humidity that the burst would give. */
    method ReadUncompHumidity() returns (rc: int, v: int)
      requires chip.nvm.Valid()
      modifies chip
      ensures chip.w == AfterRead(chip.env, old(chip.w))
      ensures rc == Status(chip.env(old(chip.w.now)))
      ensures rc == 0 ==> v == DecodeBurst(chip.env(old(chip.w.now)).data).humidity
    {
      var a := new byte[2];
      ghost var data := chip.env(chip.w.now).data;
      assert chip.Memory(HUMIDITY_MSB_REG, 2) == data[HUMIDITY_MSB_REG - DATA_REG..HUMIDITY_MSB_REG - DATA_REG + 2];
      rc := chip.ReadBlock(HUMIDITY_MSB_REG, a, 2);
      v := Decode16(a[0], a[1]);
    }

    /** The write phase of a forced reading. */
    method StartForced() returns (rc: int)
      modifies chip
      ensures chip.w == Started(chip.env, old(View())) && chip.w.now <= old(chip.w.now) + 5
      ensures rc == old(chip.Failed()) - chip.Failed() && -5 <= rc <= 0
    {
      var data := SetSlice(Mode, p.meas, FORCED_MODE);
      ghost var w0, b := chip.w, WantedBytes(p, Mode, FORCED_MODE);
      assert b == Bytes(p.config, p.hum, data);
      var mode;
      rc, mode := GetPowerMode();
      if mode != SLEEP_MODE {
        rc := ReplayAll(rc, p.config, p.hum, data);
      } else {
        rc := WriteHumThenMeas(rc, p.hum, data);
      }
      assert chip.w == Install(chip.env, w0, b, HumThenMeas);
    }

    /** Starts a conversion, waits for it, fetches all three readings.  The return code counts every
        failed transaction; the delay is computed from the oversampling values. */
    method GetForcedUncomp() returns (rc: int, raw: Raw)
      requires chip.nvm.Valid()
      modifies this`p, this`delayed, this`delayedAt, chip
      ensures View() == ForcedRead(chip.env, old(View())) && raw == FetchedRaw(chip.env, old(View()))
      ensures delayed == WaitTime.DelayFrom(old(p)) && delayedAt == Started(chip.env, old(View())).now
      ensures raw == DecodeBurst(Received(chip.env, delayedAt, chip.env(delayedAt).data))
      ensures chip.w.now == delayedAt + 4
      ensures chip.w.now <= old(chip.w.now) + 9
      ensures rc == old(chip.Failed()) - chip.Failed() && -9 <= rc <= 0
    {
      ghost var st := View();
      rc := StartForced();
      delayed := ComputeWaitTime();
      delayedAt := chip.w.now;
      ghost var w1 := chip.w;
      var r;
      r, raw := ReadUncompAll();
      assert raw == FetchedRaw(chip.env, st);
      rc := Add(rc, r);
      ghost var w2 := chip.w;
      rc := ReadBackForcedAll(rc);
      assert View() == ReadBackForced(chip.env, w2, st.s) && w2 == AfterRead(chip.env, w1);
    }

    method ReadBackForcedAll(rc0: int) returns (rc: int)
      requires -100 <= rc0 <= 0
      modifies this`p, chip
      ensures View() == ReadBackForced(chip.env, old(chip.w), old(p))
      ensures chip.w.now == old(chip.w.now) + 3
      ensures rc == rc0 + old(chip.Failed()) - chip.Failed() && rc0 - 3 <= rc <= rc0
    {
      var r, v;
      r, v := chip.Read(CTRL_HUM_REG);
      rc := Add(rc0, r);
      p := p.(hum := v);
      r, v := chip.Read(CONFIG_REG);
      rc := Add(rc, r);
      p := p.(config := v);
      r, v := chip.Read(CTRL_MEAS_REG);
      rc := Add(rc, r);
      p := p.(meas := v);
    }

    /** A getter reads its field from the chip; the three oversampling getters refresh the raw copy. */
    method GetField(f: Field) returns (rc: int, v: bv8)
      modifies this`p, chip
      ensures View() == Runs.GetField(chip.env, old(View()), f)
      ensures v == GetValue(chip.env, old(View()), f)
      ensures rc == Status(chip.env(old(chip.w.now)))
    {
      var r;
      rc, r := chip.Read(Home(f));
      v := GetSlice(f, r);
      p := Cached(p, f, v);
    }

    method StoreLow(a: array<byte>)
      requires a.Length == 26
      modifies this`cal
      ensures cal == WithLow(old(cal), a[..])
    {
      cal := cal.(t1 := Unsigned(a[0], a[1]), t2 := Signed(a[2], a[3]), t3 := Signed(a[4], a[5]),
                  p1 := Unsigned(a[6], a[7]), p2 := Signed(a[8], a[9]), p3 := Signed(a[10], a[11]),
                  p4 := Signed(a[12], a[13]), p5 := Signed(a[14], a[15]), p6 := Signed(a[16], a[17]),
                  p7 := Signed(a[18], a[19]), p8 := Signed(a[20], a[21]), p9 := Signed(a[22], a[23]),
                  h1 := a[25]);
    }

    method StoreHigh(a: array<byte>)
      requires a.Length == 26
      modifies this`cal
      ensures cal == WithHigh(old(cal), a[..7])
    {
      cal := cal.(h2 := Signed(a[0], a[1]), h3 := a[2],
                  h4 := Signed12(a[4] % 16, a[3]), h5 := Signed12(a[4] / 16, a[5]), h6 := S8(a[6]));
    }

    /** Reads the calibration in two blocks, the second into the buffer of the first. */
    method GetCalibParam() returns (rc: int)
      requires chip.nvm.Valid()
      modifies this`cal, chip
      ensures chip.w == AfterRead(chip.env, AfterRead(chip.env, old(chip.w)))
      ensures cal == WithHigh(WithLow(old(cal), Received(chip.env, old(chip.w.now), chip.nvm.low)),
                              Received(chip.env, old(chip.w.now) + 1, chip.nvm.high))
      ensures rc == old(chip.Failed()) - chip.Failed()
    {
      hide WithLow, WithHigh, AfterRead;
      var a := new byte[26];
      rc := chip.ReadBlock(CALIB_LOW_REG, a, 26);
      assert a[..] == a[..26];
      StoreLow(a);
      ghost var low := cal;
      var r := chip.ReadBlock(CALIB_HIGH_REG, a, 7);
      rc := Add(rc, r);
      StoreHigh(a);
      assert cal == WithHigh(low, a[..7]);
    }

    // ----- compensation -----

    method CompensateTemperatureInt32(adc: int) returns (temperature: int)
      modifies this`tFine
      ensures tFine == Temperature.TFine(cal, adc)
      ensures temperature == Temperature.Hundredths(tFine)
    {
      var x1 := S32(S32(adc / 8 - S32(cal.t1 * 2)) * cal.t2) / 2048;
      var x2 := S32(adc / 16 - cal.t1);
      x2 := S32(S32(x2 * x2) / 4096 * cal.t3) / 16384;
      tFine := S32(x1 + x2);
      temperature := S32(S32(tFine * 5) + 128) / 256;
    }

    method CompensateTemperatureInt32Sixteen(adc: int) returns (temperature: int)
      modifies this`tFine
      ensures tFine == Temperature.TFine(cal, adc)
      ensures temperature == Temperature.Sixteen(tFine)
    {
      var unused := CompensateTemperatureInt32(adc);
      temperature := S16(S32(S32(S32(tFine - 122880) * 25) + 128) / 256);
    }

    method PressureTerms32(x: int) returns (x1: int, x2: int)
      ensures x1 == Pressure.Divisor32(cal, x) && x2 == Pressure.Offset32(cal, x) && InS32(x1)
    {
      x2 := S32(S32((x / 4) * (x / 4)) / 2048 * cal.p6);
      x2 := S32(x2 + S32(S32(x * cal.p5) * 2));
      x2 := S32(x2 / 4 + S32(cal.p4 * 0x1_0000));
      x1 := S32(S32(cal.p3 * (S32((x / 4) * (x / 4)) / 8192)) / 8 + S32(cal.p2 * x) / 2) / 0x4_0000;
      x1 := S32(S32(32768 + x1) * cal.p1) / 32768;
    }

    method CompensatePressureInt32(adc: int) returns (pressure: int)
      ensures pressure == Pressure.Pascals(cal, tFine, adc)
    {
      hide Pressure.Divisor32, Pressure.Offset32, Pressure.Divide32, Pressure.Correct32, Wrap;
      var x1, x2 := PressureTerms32(S32(tFine / 2 - 64000));
      pressure := ScalePressure32(adc, x2);
      if x1 == 0 {
        return 0;
      }
      Pressure.U32OfNonzero(x1);
      pressure := DividePressure32(pressure, x1);
      pressure := CorrectPressure32(pressure);
    }

    method ScalePressure32(adc: int, x2: int) returns (pressure: int)
      ensures pressure == U32(U32(U32(S32(1048576 - adc)) - U32(x2 / 4096)) * 3125)
    {
      pressure := U32(U32(U32(S32(1048576 - adc)) - U32(x2 / 4096)) * 3125);
    }

    method DividePressure32(p: int, d: int) returns (q: int)
      requires U32(d) != 0
      ensures q == Pressure.Divide32(p, d)
    {
      if p < 0x8000_0000 {
        q := U32(p * 2) / U32(d);
      } else {
        q := U32(p / U32(d) * 2);
      }
    }

    method CorrectPressure32(q: int) returns (pressure: int)
      ensures pressure == Pressure.Correct32(cal, q)
    {
      var x1 := S32(cal.p9 * S32(U32((q / 8) * (q / 8)) / 8192)) / 4096;
      var x2 := S32(S32(q / 4) * cal.p8) / 8192;
      pressure := U32(S32(S32(q) + S32(S32(x1 + x2) + cal.p7) / 16));
    }

    method PressureTerms64(v: int) returns (x1: int, x2: int)
      ensures x1 == Pressure.Divisor64(cal, v) && x2 == Pressure.Offset64(cal, v)
    {
      x2 := S64(S64(v * v) * cal.p6);
      x2 := S64(x2 + S64(S64(v * cal.p5) * 0x2_0000));
      x2 := S64(x2 + S64(cal.p4 * 0x8_0000_0000));
      x1 := S64(S64(S64(v * v) * cal.p3) / 256 + S64(S64(v * cal.p2) * 4096));
      x1 := S64(S64(0x8000_0000_0000 + x1) * cal.p1) / 0x2_0000_0000;
    }

    method CompensatePressureInt64(adc: int) returns (pressure: int)
      ensures pressure == Pressure.Pascals256(cal, tFine, adc)
    {
      var x1, x2 := PressureTerms64(S64(tFine - 128000));
      if x1 == 0 {
        return 0;
      }
      pressure := 1048576 - adc;
      pressure := S64(S64(S64(pressure * 0x8000_0000) - x2) * 3125);
      pressure := S64(Quotient(pressure, x1));
      pressure := CorrectPressure64(pressure);
      pressure := U32(pressure);
    }

    method CorrectPressure64(p: int) returns (pressure: int)
      ensures pressure == Pressure.Correct64(cal, p)
    {
      var x1 := S64(S64(cal.p9 * (p / 8192)) * (p / 8192)) / 0x200_0000;
      var x2 := S64(cal.p8 * p) / 0x8_0000;
      pressure := S64(S64(S64(p + x1) + x2) / 256 + S64(cal.p7 * 16));
    }

    method CompensateHumidityInt32(adc: int) returns (humidity: int)
      ensures humidity == Humidity.Percent1024(cal, tFine, adc)
    {
      var x1 := S32(tFine - 76800);
      ghost var v := x1;
      x1 := S32(S32(S32(S32(S32(adc * 0x4000) - S32(cal.h4 * 0x10_0000)) - S32(cal.h5 * x1)) + 16384) / 32768
                * (S32(S32(S32(S32(S32(S32(x1 * cal.h6) / 1024) * S32(S32(x1 * cal.h3) / 2048 + 32768)) / 1024
                               + 2097152) * cal.h2) + 8192) / 16384));
      assert x1 == S32(Humidity.Offset32(cal, v, adc) * Humidity.Gain32(cal, v));
      x1 := S32(x1 - S32(S32(S32((x1 / 32768) * (x1 / 32768)) / 128) * cal.h1) / 16);
      x1 := if x1 < 0 then 0 else x1;
      x1 := if x1 > 419430400 then 419430400 else x1;
      humidity := x1 / 4096;
    }

    /** The burst, then all three compensations with the t_fine of this same burst.  No conversion is
        started: the readings are those of the last one. */
    method ReadPressureTemperatureHumidity() returns (rc: int, pressure: int, temperature: int, humidity: int)
      requires chip.nvm.Valid()
      modifies this`tFine, chip
      ensures chip.w == AfterRead(chip.env, old(chip.w)) && rc == Status(chip.env(old(chip.w.now)))
      ensures var raw := DecodeBurst(Received(chip.env, old(chip.w.now), chip.env(old(chip.w.now)).data));
              && tFine == Temperature.TFine(cal, raw.temperature)
              && temperature == Temperature.Hundredths(tFine)
              && pressure == Pressure.Pascals(cal, tFine, raw.pressure)
              && humidity == Humidity.Percent1024(cal, tFine, raw.humidity)
    {
      hide Temperature.TFine, Temperature.Hundredths, Pressure.Pascals, Humidity.Percent1024, DecodeBurst, Received;
      var raw;
      rc, raw := ReadUncompAll();
      temperature := CompensateTemperatureInt32(raw.temperature);
      pressure := CompensatePressureInt32(raw.pressure);
      humidity := CompensateHumidityInt32(raw.humidity);
    }
  }
}

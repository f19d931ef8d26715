/** The sensor object: it configures the chip once, and appends records to the caller's vector. */
module Sensor {
  import opened Machine
  import opened Registers
  import opened Bus
  import opened Protocol
  import opened Runs
  import opened Refinement
  import opened Calibration
  import opened SgmData
  import opened Driver
  import WaitTime
  import Temperature
  import Pressure
  import Humidity

  const TEMPERATURE_DIVIDER := 100
  const PRESSURE_DIVIDER := 100
  const HUMIDITY_DIVIDER := 1024

  // ----- construction -----

  /** The configuration sequence of the constructor: reset, sleep, three oversamplings, standby, forced. */
  function Configured(env: Env, w: World, garbage: Shadow): State {
    var st0 := State(AfterWrite(env, w, RST_REG, SOFT_RESET_CODE), garbage);
    var st1 := SetField(env, st0, Mode, SLEEP_MODE);
    var st2 := SetField(env, st1, OsrsH, 1);
    var st3 := SetField(env, st2, OsrsP, 2);
    var st4 := SetField(env, st3, OsrsT, 3);
    var st5 := SetField(env, st4, Tsb, 0);
    SetField(env, st5, Mode, FORCED_MODE)
  }

  /** What the constructor asks for. */
  ghost predicate AsConfigured(a: Settings) {
    && a.of(OsrsT) == 3 && a.of(OsrsP) == 2 && a.of(OsrsH) == 1
    && a.of(Tsb) == 0 && a.of(Filter) == 0 && a.of(Spi3) == 0 && a.of(Mode) == FORCED_MODE
    && a.spareHum == 0 && a.spareConfig == 0
  }

  /** After the reset and the first setter: coherent, and asleep with ctrl_hum and config clear. */
  lemma AfterResetAndSleep(env: Env, w: World, garbage: Shadow)
    requires Reliable(env, w.now)
    ensures var st := SetField(env, State(AfterWrite(env, w, RST_REG, SOFT_RESET_CODE), garbage), Mode, SLEEP_MODE);
            Coherent(st) && st.w.hum == 0 && st.w.config == 0 && st.w.rogue == w.rogue
            && GetSlice(Mode, st.s.meas) == SLEEP_MODE && st.w.now == w.now + 6
  {
    hide AfterWrite, Install, ReadBack, WantedBytes, MeasAgree, LatchCurrent, SetSlice, GetSlice, Truncate;
    WriteEffect(env, w, RST_REG, SOFT_RESET_CODE);
    var w0 := World(0, 0, 0, 0, w.now + 1, w.rogue);
    var b := WantedBytes(garbage, Mode, SLEEP_MODE);
    InstallEffect(env, w0, b, MeasOnly);
    ReadBackEffect(env, Install(env, w0, b, MeasOnly), garbage);
    SetterStabilises(env, State(w0, garbage), Mode, SLEEP_MODE);
    SleepBytes(garbage);
    SleepReadBack(garbage.meas, SetField(env, State(w0, garbage), Mode, SLEEP_MODE).s.meas);
    SetFieldTime(env, State(w0, garbage), Mode, SLEEP_MODE);
  }

  lemma SleepBytes(s: Shadow)
    ensures WantedBytes(s, Mode, SLEEP_MODE).meas == SetSlice(Mode, s.meas, SLEEP_MODE)
  {}

  /** A sleep mode that has been written is read back. */
  lemma SleepReadBack(garbage: bv8, back: bv8)
    requires MeasAgree(SetSlice(Mode, garbage, SLEEP_MODE), back)
    ensures GetSlice(Mode, back) == SLEEP_MODE
  {}

  lemma SpareBitsOfZero()
    ensures Reserved(CTRL_HUM_REG, 0) == 0 && Reserved(CONFIG_REG, 0) == 0
    ensures GetSlice(Filter, 0) == 0 && GetSlice(Spi3, 0) == 0
    ensures Truncate(OsrsH, 1) == 1 && Truncate(OsrsP, 2) == 2 && Truncate(OsrsT, 3) == 3
    ensures Truncate(Tsb, 0) == 0 && Truncate(Mode, FORCED_MODE) == FORCED_MODE
  {}

  lemma AbstractionOfClear(st: State)
    requires Coherent(st) && st.w.hum == 0 && st.w.config == 0
    ensures var a := Abstraction(st);
            a.of(Filter) == 0 && a.of(Spi3) == 0 && a.spareHum == 0 && a.spareConfig == 0
  {
    SpareBitsOfZero();
  }

  /** The moments at which the constructor's setters start. */
  lemma ConfiguredTimes(env: Env, w: World, garbage: Shadow)
    ensures var st0 := State(AfterWrite(env, w, RST_REG, SOFT_RESET_CODE), garbage);
            var st1 := SetField(env, st0, Mode, SLEEP_MODE);
            var st2 := SetField(env, st1, OsrsH, 1);
            var st3 := SetField(env, st2, OsrsP, 2);
            var st4 := SetField(env, st3, OsrsT, 3);
            var st5 := SetField(env, st4, Tsb, 0);
            w.now <= st1.w.now <= st2.w.now <= st3.w.now <= st4.w.now <= st5.w.now <= Configured(env, w, garbage).w.now
  {
    hide SetField, Settle, Obey;
    var st0 := State(AfterWrite(env, w, RST_REG, SOFT_RESET_CODE), garbage);
    var st1 := SetField(env, st0, Mode, SLEEP_MODE);
    var st2 := SetField(env, st1, OsrsH, 1);
    var st3 := SetField(env, st2, OsrsP, 2);
    var st4 := SetField(env, st3, OsrsT, 3);
    var st5 := SetField(env, st4, Tsb, 0);
    SetFieldTime(env, st0, Mode, SLEEP_MODE);
    SetFieldTime(env, st1, OsrsH, 1);
    SetFieldTime(env, st2, OsrsP, 2);
    SetFieldTime(env, st3, OsrsT, 3);
    SetFieldTime(env, st4, Tsb, 0);
    SetFieldTime(env, st5, Mode, FORCED_MODE);
  }

  lemma AssignedInTurn(a: Settings)
    requires a.of(Filter) == 0 && a.of(Spi3) == 0 && a.spareHum == 0 && a.spareConfig == 0
    ensures AsConfigured(Assign(Assign(Assign(Assign(Assign(a, OsrsH, 1), OsrsP, 2), OsrsT, 3), Tsb, 0),
                                Mode, FORCED_MODE))
  {}

  lemma ConfiguredRefines(env: Env, w: World, garbage: Shadow) returns (a: Settings)
    requires Reliable(env, w.now)
    ensures AsConfigured(a) && Refines(Configured(env, w, garbage), a)
  {
    hide SetField, Refines, Abstraction, Coherent, AfterWrite, GetSlice, Truncate, Reserved, Assign, AsConfigured;
    ConfiguredTimes(env, w, garbage);
    var st1 := SetField(env, State(AfterWrite(env, w, RST_REG, SOFT_RESET_CODE), garbage), Mode, SLEEP_MODE);
    AfterResetAndSleep(env, w, garbage);
    CoherentRefinesItself(st1);
    var a1 := Abstraction(st1);
    AbstractionOfClear(st1);
    SpareBitsOfZero();
    SetFieldRefines(env, st1, a1, OsrsH, 1);
    var st2, a2 := SetField(env, st1, OsrsH, 1), Assign(a1, OsrsH, 1);
    SetFieldRefines(env, st2, a2, OsrsP, 2);
    var st3, a3 := SetField(env, st2, OsrsP, 2), Assign(a2, OsrsP, 2);
    SetFieldRefines(env, st3, a3, OsrsT, 3);
    var st4, a4 := SetField(env, st3, OsrsT, 3), Assign(a3, OsrsT, 3);
    SetFieldRefines(env, st4, a4, Tsb, 0);
    var st5, a5 := SetField(env, st4, Tsb, 0), Assign(a4, Tsb, 0);
    SetFieldRefines(env, st5, a5, Mode, FORCED_MODE);
    a := Assign(a5, Mode, FORCED_MODE);
    AssignedInTurn(a1);
  }

  lemma AsleepTime(env: Env, st: State, a: Settings, f: Field, v: bv8)
    requires Reliable(env, st.w.now) && Refines(st, a) && a.of(Mode) == SLEEP_MODE
    ensures SetField(env, st, f, v).w.now == st.w.now + if f == OsrsH then 6 else 5
  {
    hide SetField;
    SetFieldTime(env, st, f, v);
    assert IsControl(CTRL_MEAS_REG);
    assert Within(a, Mode, GetSlice(Mode, st.w.meas));
    SlicesSpelledOut(st.w.meas);
    ReadEffect(env, st.w);
  }

  /** On a working bus the constructor's configuration takes 32 transactions: one reset, and six setters on a
      sleeping chip. */
  lemma ConfiguredTransactions(env: Env, w: World, garbage: Shadow)
    requires Reliable(env, w.now)
    ensures Configured(env, w, garbage).w.now == w.now + 1 + 5 + 6 + 5 + 5 + 5 + 5
  {
    hide SetField, Refines, Coherent, AfterWrite;
    ConfiguredTimes(env, w, garbage);
    var st1 := SetField(env, State(AfterWrite(env, w, RST_REG, SOFT_RESET_CODE), garbage), Mode, SLEEP_MODE);
    AfterResetAndSleep(env, w, garbage);
    CoherentRefinesItself(st1);
    var a1 := Abstraction(st1);
    SetFieldRefines(env, st1, a1, OsrsH, 1);
    AsleepTime(env, st1, a1, OsrsH, 1);
    var st2, a2 := SetField(env, st1, OsrsH, 1), Assign(a1, OsrsH, Truncate(OsrsH, 1));
    SetFieldRefines(env, st2, a2, OsrsP, 2);
    AsleepTime(env, st2, a2, OsrsP, 2);
    var st3, a3 := SetField(env, st2, OsrsP, 2), Assign(a2, OsrsP, Truncate(OsrsP, 2));
    SetFieldRefines(env, st3, a3, OsrsT, 3);
    AsleepTime(env, st3, a3, OsrsT, 3);
    var st4, a4 := SetField(env, st3, OsrsT, 3), Assign(a3, OsrsT, Truncate(OsrsT, 3));
    SetFieldRefines(env, st4, a4, Tsb, 0);
    AsleepTime(env, st4, a4, Tsb, 0);
    AsleepTime(env, SetField(env, st4, Tsb, 0), Assign(a4, Tsb, Truncate(Tsb, 0)), Mode, FORCED_MODE);
  }

  lemma ConfiguredCache(env: Env, w: World, garbage: Shadow)
    ensures var s := Configured(env, w, garbage).s; s.osT == 3 && s.osP == 2 && s.osH == 1
  {
    hide SetField, AfterWrite;
    var st0 := State(AfterWrite(env, w, RST_REG, SOFT_RESET_CODE), garbage);
    var st1 := SetField(env, st0, Mode, SLEEP_MODE);
    var st2 := SetField(env, st1, OsrsH, 1);
    var st3 := SetField(env, st2, OsrsP, 2);
    var st4 := SetField(env, st3, OsrsT, 3);
    var st5 := SetField(env, st4, Tsb, 0);
    WaitTime.SetFieldCache(env, st1, OsrsH, 1);
    WaitTime.SetFieldCache(env, st2, OsrsP, 2);
    WaitTime.SetFieldCache(env, st3, OsrsT, 3);
    WaitTime.SetFieldCache(env, st4, Tsb, 0);
    WaitTime.SetFieldCache(env, st5, Mode, FORCED_MODE);
  }

  lemma ConfiguredBytes(a: Settings, st: State)
    requires AsConfigured(a) && Refines(st, a)
    ensures st.w.hum == 0x01 && st.w.config == 0x00 && (st.w.meas == 0x69 || st.w.meas == 0x68)
    ensures st.w.latched == 1
  {
    assert IsControl(CTRL_HUM_REG) && IsControl(CTRL_MEAS_REG) && IsControl(CONFIG_REG);
    assert Within(a, OsrsH, GetSlice(OsrsH, st.w.hum));
    assert Within(a, Tsb, GetSlice(Tsb, st.w.config)) && Within(a, Filter, GetSlice(Filter, st.w.config))
           && Within(a, Spi3, GetSlice(Spi3, st.w.config));
    assert Within(a, OsrsT, GetSlice(OsrsT, st.w.meas)) && Within(a, OsrsP, GetSlice(OsrsP, st.w.meas))
           && Within(a, Mode, GetSlice(Mode, st.w.meas));
  }

  /** Whatever the chip and the uninitialised driver structure held, the constructor ends with
      ctrl_hum 0x01, config 0x00, and ctrl_meas 0x69, or 0x68 once the conversion has ended. */
  lemma ConstructorOutcome(env: Env, w: World, garbage: Shadow)
    requires Reliable(env, w.now)
    ensures var st := Configured(env, w, garbage);
            && Coherent(st)
            && st.w.hum == 0x01 && st.w.config == 0x00 && (st.w.meas == 0x69 || st.w.meas == 0x68)
            && st.w.latched == 1
            && st.s.osT == 3 && st.s.osP == 2 && st.s.osH == 1
  {
    var a := ConfiguredRefines(env, w, garbage);
    ConfiguredBytes(a, Configured(env, w, garbage));
    ConfiguredCache(env, w, garbage);
  }

  /** After the constructor and any run of driver calls that sets oversamplings of at most 5, a forced
      reading waits the exact ceiling of its conversion time. */
  lemma DelayExactAfterConstructor(env: Env, w: World, garbage: Shadow, ops: seq<Op>)
    requires Reliable(env, w.now)
    requires forall i :: 0 <= i < |ops| && ops[i].Set? && WaitTime.IsOversampling(ops[i].f) ==> ops[i].v <= 5
    ensures var st := Run(env, Configured(env, w, garbage), ops);
            WaitTime.IsCeiling(WaitTime.DelayFrom(st.s), WaitTime.StartedTime(env, st))
  {
    var a := ConfiguredRefines(env, w, garbage);
    ConfiguredCache(env, w, garbage);
    ConfiguredTimes(env, w, garbage);
    WaitTime.ForcedDelayIsExact(env, Configured(env, w, garbage), a, ops);
  }

  // ----- measuring -----

  /** What a measurement depends on and changes: driver and chip, and t_fine. */
  datatype Bench = Bench(st: State, tFine: int)

  /** The parts of the sensor that never change. */
  datatype Setup = Setup(env: Env, clock: nat -> int, point: MeasurementPoint, cal: Calib)

  function Stamp(u: Setup, st: State): int {
    U32(u.clock(st.w.now))
  }

  function TemperatureRecord(u: Setup, st: State, tFine: int): SgmProcessData {
    SgmProcessData(0, u.point, TEMPERATURE, Celsius, Temperature.Hundredths(tFine), TEMPERATURE_DIVIDER,
                   Stamp(u, st), 0)
  }

  function PressureRecord(u: Setup, st: State, tFine: int, adc: int): SgmProcessData {
    SgmProcessData(0, u.point, PRESSURE, HPa, S32(Pressure.Pascals(u.cal, tFine, adc)), PRESSURE_DIVIDER,
                   Stamp(u, st), 0)
  }

  function HumidityRecord(u: Setup, st: State, tFine: int, adc: int): SgmProcessData {
    SgmProcessData(0, u.point, HUMIDITY, Percent, S32(Humidity.Percent1024(u.cal, tFine, adc)), HUMIDITY_DIVIDER,
                   Stamp(u, st), 0)
  }

  /** Every measurement makes a forced reading; only a temperature measurement changes t_fine. */
  function AfterMeasure(u: Setup, b: Bench, q: PhysQuantity): Bench {
    Bench(ForcedRead(u.env, b.st),
          if q == TEMPERATURE then Temperature.TFine(u.cal, FetchedRaw(u.env, b.st).temperature) else b.tFine)
  }

  /** The records a measurement appends: one, or none for a quantity the chip does not measure. */
  function Measured(u: Setup, b: Bench, q: PhysQuantity): seq<SgmProcessData> {
    var raw, b' := FetchedRaw(u.env, b.st), AfterMeasure(u, b, q);
    match q
    case TEMPERATURE => [TemperatureRecord(u, b'.st, b'.tFine)]
    case PRESSURE => [PressureRecord(u, b'.st, b'.tFine, raw.pressure)]
    case HUMIDITY => [HumidityRecord(u, b'.st, b'.tFine, raw.humidity)]
    case LIGHT => []
  }

  function AfterAll(u: Setup, b: Bench, qs: seq<PhysQuantity>): Bench {
    if qs == [] then b else AfterMeasure(u, AfterAll(u, b, qs[..|qs| - 1]), qs[|qs| - 1])
  }

  function AllMeasured(u: Setup, b: Bench, qs: seq<PhysQuantity>): seq<SgmProcessData> {
    if qs == [] then []
    else AllMeasured(u, b, qs[..|qs| - 1]) + Measured(u, AfterAll(u, b, qs[..|qs| - 1]), qs[|qs| - 1])
  }

  const STANDARD_QUANTITIES: seq<PhysQuantity> := [TEMPERATURE, PRESSURE, HUMIDITY]

  /** The standard acquisition, field by field: three records, each from its own conversion and stamped at
      its end, pressure and humidity compensated by the t_fine of the temperature measured first. */
  lemma StandardAcquisition(u: Setup, b: Bench)
    ensures var st1 := ForcedRead(u.env, b.st);
            var st2 := ForcedRead(u.env, st1);
            var st3 := ForcedRead(u.env, st2);
            var t := Temperature.TFine(u.cal, FetchedRaw(u.env, b.st).temperature);
            && AllMeasured(u, b, STANDARD_QUANTITIES) ==
                 [SgmProcessData(0, u.point, TEMPERATURE, Celsius, Temperature.Hundredths(t), 100,
                                 U32(u.clock(st1.w.now)), 0),
                  SgmProcessData(0, u.point, PRESSURE, HPa,
                                 S32(Pressure.Pascals(u.cal, t, FetchedRaw(u.env, st1).pressure)), 100,
                                 U32(u.clock(st2.w.now)), 0),
                  SgmProcessData(0, u.point, HUMIDITY, Percent,
                                 S32(Humidity.Percent1024(u.cal, t, FetchedRaw(u.env, st2).humidity)), 1024,
                                 U32(u.clock(st3.w.now)), 0)]
            && AfterAll(u, b, STANDARD_QUANTITIES) == Bench(st3, t)
  {
    StandardRecords(u, b);
  }

  /** The quantities that the chip measures, of those asked for. */
  function OnOffer(qs: seq<PhysQuantity>): seq<PhysQuantity> {
    if qs == [] then []
    else OnOffer(qs[..|qs| - 1]) + if qs[|qs| - 1] == LIGHT then [] else [qs[|qs| - 1]]
  }

  /** The record is of quantity q, at the sensor's point, in the unit and with the divider of q. */
  predicate RecordOf(u: Setup, r: SgmProcessData, q: PhysQuantity) {
    && r.physQuantityType == q && r.measPoint == u.point && r.packetId == 0 && r.crc == 0
    && match q
       case TEMPERATURE => r.unit == Celsius && r.divider == 100
       case PRESSURE => r.unit == HPa && r.divider == 100
       case HUMIDITY => r.unit == Percent && r.divider == 1024
       case LIGHT => false
  }

  /** Any acquisition appends one record for each quantity that the chip measures, in the order asked for, and
      none for light; each is what it says. */
  lemma {:induction false} RecordsMatch(u: Setup, b: Bench, qs: seq<PhysQuantity>)
    ensures var records := AllMeasured(u, b, qs);
            && |records| == |OnOffer(qs)|
            && forall k :: 0 <= k < |records| ==> RecordOf(u, records[k], OnOffer(qs)[k])
  {
    hide ForcedRead, FetchedRaw, Temperature.TFine, Temperature.Hundredths, Pressure.Pascals, Humidity.Percent1024,
         U32, S32, Stamp;
    if qs != [] {
      RecordsMatch(u, b, qs[..|qs| - 1]);
    }
  }

  lemma StandardRecords(u: Setup, b: Bench)
    ensures var st1 := ForcedRead(u.env, b.st);
            var st2 := ForcedRead(u.env, st1);
            var st3 := ForcedRead(u.env, st2);
            var t := Temperature.TFine(u.cal, FetchedRaw(u.env, b.st).temperature);
            && AllMeasured(u, b, STANDARD_QUANTITIES) ==
                 [TemperatureRecord(u, st1, t),
                  PressureRecord(u, st2, t, FetchedRaw(u.env, st1).pressure),
                  HumidityRecord(u, st3, t, FetchedRaw(u.env, st2).humidity)]
            && AfterAll(u, b, STANDARD_QUANTITIES) == Bench(st3, t)
  {
    hide ForcedRead, FetchedRaw, Temperature.TFine, Temperature.Hundredths, Pressure.Pascals, Humidity.Percent1024,
         U32, S32;
    assert STANDARD_QUANTITIES[..2] == [TEMPERATURE, PRESSURE];
    assert [TEMPERATURE, PRESSURE][..1] == [TEMPERATURE];
    assert [TEMPERATURE][..0] == [];
    var b1 := AfterMeasure(u, b, TEMPERATURE);
    var b2 := AfterMeasure(u, b1, PRESSURE);
    assert AfterAll(u, b, [TEMPERATURE]) == b1 && AllMeasured(u, b, [TEMPERATURE]) == Measured(u, b, TEMPERATURE);
    assert AfterAll(u, b, [TEMPERATURE, PRESSURE]) == b2;
    assert AllMeasured(u, b, [TEMPERATURE, PRESSURE]) == Measured(u, b, TEMPERATURE) + Measured(u, b1, PRESSURE);
    assert AllMeasured(u, b, STANDARD_QUANTITIES) ==
           Measured(u, b, TEMPERATURE) + Measured(u, b1, PRESSURE) + Measured(u, b2, HUMIDITY);
  }

  lemma {:induction false} AfterAllTime(u: Setup, b: Bench, qs: seq<PhysQuantity>)
    ensures AfterAll(u, b, qs).st.w.now >= b.st.w.now
  {
    hide ForcedRead, Temperature.TFine, FetchedRaw;
    if qs != [] {
      AfterAllTime(u, b, qs[..|qs| - 1]);
      ForcedReadTime(u.env, AfterAll(u, b, qs[..|qs| - 1]).st);
    }
  }

  /** Acquisition leaves every configuration field as it was, and asks for forced mode. */
  lemma {:induction false} AcquisitionKeepsSettings(u: Setup, b: Bench, a: Settings, qs: seq<PhysQuantity>)
    requires Reliable(u.env, b.st.w.now) && Refines(b.st, a) && a.of(Mode) == FORCED_MODE
    ensures Refines(AfterAll(u, b, qs).st, a)
  {
    if qs != [] {
      var prev := AfterAll(u, b, qs[..|qs| - 1]);
      AcquisitionKeepsSettings(u, b, a, qs[..|qs| - 1]);
      AfterAllTime(u, b, qs[..|qs| - 1]);
      ForcedReadRefines(u.env, prev.st, a);
      SameSettings(AfterAll(u, b, qs).st, a, Assign(a, Mode, FORCED_MODE));
    }
  }

  lemma SameSettings(st: State, a: Settings, a': Settings)
    requires Refines(st, a')
    requires forall f: Field :: a.of(f) == a'.of(f)
    requires a.spareHum == a'.spareHum && a.spareConfig == a'.spareConfig
    ensures Refines(st, a)
  {
    forall reg: int, r: bv8 | RegisterWithin(a', reg, r)
      ensures RegisterWithin(a, reg, r)
    {
      assert forall f: Field :: Within(a', f, GetSlice(f, r)) ==> Within(a, f, GetSlice(f, r));
    }
  }

  /** The caller's vector of records. */
  class Records {
    var items: seq<SgmProcessData>

    constructor ()
      ensures items == []
    {
      items := [];
    }

    method PushBack(r: SgmProcessData)
      modifies this
      ensures items == old(items) + [r]
    {
      items := items + [r];
    }
  }

  class Bme280Sensor {
    const bme: Bme280
    const clock: nat -> int
    const point: MeasurementPoint

    ghost function Fixed(): Setup
      reads bme
    {
      Setup(bme.chip.env, clock, point, bme.cal)
    }

    ghost function Now(): Bench
      reads bme, bme.chip
    {
      Bench(bme.View(), bme.tFine)
    }

    /** The driver structure `bme` is not initialised by anyone before this. */
    constructor (bme: Bme280, clock: nat -> int, point: MeasurementPoint)
      requires bme.chip.nvm.Valid()
      modifies bme, bme.chip
      ensures this.bme == bme && this.clock == clock && this.point == point
      ensures Reliable(bme.chip.env, old(bme.chip.w.now)) ==>
                && bme.View() == Configured(bme.chip.env, AfterInit(bme.chip.env, old(bme.chip.w)), old(bme.p))
                && bme.cal == WithHigh(WithLow(old(bme.cal), bme.chip.nvm.low), bme.chip.nvm.high)
      ensures Reliable(bme.chip.env, old(bme.chip.w.now)) ==>
                && bme.chip.w.now == old(bme.chip.w.now) + 3 + 32
                && bme.chip.w.hum == 0x01 && bme.chip.w.config == 0x00
                && (bme.chip.w.meas == 0x69 || bme.chip.w.meas == 0x68)
    {
      hide Configured, WithLow, WithHigh, AfterRead;
      this.bme, this.clock, this.point := bme, clock, point;
      new;
      ghost var w, garbage := AfterInit(bme.chip.env, bme.chip.w), bme.p;
      var rc, id := bme.chip.Read(CHIP_ID_REG);
      rc := bme.GetCalibParam();
      assert bme.chip.w == w && bme.p == garbage;
      AfterInitTime(bme.chip.env, old(bme.chip.w));
      Configure(bme);
      if Reliable(bme.chip.env, old(bme.chip.w.now)) {
        ConstructorOutcome(bme.chip.env, w, garbage);
        ConfiguredTransactions(bme.chip.env, w, garbage);
      }
    }

    method Measure(q: PhysQuantity, data: Records)
      requires bme.chip.nvm.Valid()
      modifies bme`p, bme`tFine, bme`delayed, bme`delayedAt, bme.chip, data
      ensures Now() == AfterMeasure(Fixed(), old(Now()), q)
      ensures data.items == old(data.items) + Measured(Fixed(), old(Now()), q)
    {
      ghost var b := Now();
      var rc, raw := bme.GetForcedUncomp();
      var v;
      match q
      case PRESSURE =>
        v := bme.CompensatePressureInt32(raw.pressure);
        data.PushBack(SgmProcessData(0, point, PRESSURE, HPa, S32(v), PRESSURE_DIVIDER, U32(clock(bme.chip.w.now)), 0));
      case TEMPERATURE =>
        v := bme.CompensateTemperatureInt32(raw.temperature);
        data.PushBack(SgmProcessData(0, point, TEMPERATURE, Celsius, v, TEMPERATURE_DIVIDER,
                                     U32(clock(bme.chip.w.now)), 0));
      case HUMIDITY =>
        v := bme.CompensateHumidityInt32(raw.humidity);
        data.PushBack(SgmProcessData(0, point, HUMIDITY, Percent, S32(v), HUMIDITY_DIVIDER,
                                     U32(clock(bme.chip.w.now)), 0));
      case LIGHT =>
    }

    method AcquireList(quantities: seq<PhysQuantity>, data: Records)
      requires bme.chip.nvm.Valid()
      modifies bme`p, bme`tFine, bme`delayed, bme`delayedAt, bme.chip, data
      ensures Now() == AfterAll(Fixed(), old(Now()), quantities)
      ensures data.items == old(data.items) + AllMeasured(Fixed(), old(Now()), quantities)
    {
      hide AfterMeasure, Measured;
      for i := 0 to |quantities|
        invariant Now() == AfterAll(Fixed(), old(Now()), quantities[..i])
        invariant data.items == old(data.items) + AllMeasured(Fixed(), old(Now()), quantities[..i])
      {
        assert quantities[..i + 1][..i] == quantities[..i];
        Measure(quantities[i], data);
      }
      assert quantities[..|quantities|] == quantities;
    }

    method Acquire(data: Records)
      requires bme.chip.nvm.Valid()
      modifies bme`p, bme`tFine, bme`delayed, bme`delayedAt, bme.chip, data
      ensures Now() == AfterAll(Fixed(), old(Now()), STANDARD_QUANTITIES)
      ensures data.items == old(data.items) + AllMeasured(Fixed(), old(Now()), STANDARD_QUANTITIES)
    {
      hide ForcedRead, FetchedRaw, Temperature.TFine, Temperature.Hundredths, Pressure.Pascals, Humidity.Percent1024,
           U32, S32;
      ghost var u, b := Fixed(), Now();
      StandardAcquisition(u, b);
      Measure(TEMPERATURE, data);
      Measure(PRESSURE, data);
      Measure(HUMIDITY, data);
    }
  }

  /** The constructor's calls into the driver. */
  method Configure(bme: Bme280)
    modifies bme`p, bme.chip
    ensures bme.View() == Configured(bme.chip.env, old(bme.chip.w), old(bme.p))
  {
    hide SetField, AfterWrite;
    var rc := bme.SetSoftRst();
    rc := bme.SetPowerMode(SLEEP_MODE);
    rc := bme.SetOversampHumidity(1);
    rc := bme.SetOversampPressure(2);
    rc := bme.SetOversampTemperature(3);
    rc := bme.SetStandbyDurn(0);
    rc := bme.SetPowerMode(FORCED_MODE);
  }

  /** Three reads precede the configuration: chip id and calibration. */
  function AfterInit(env: Env, w: World): World {
    AfterRead(env, AfterRead(env, AfterRead(env, w)))
  }

  lemma AfterInitTime(env: Env, w: World)
    ensures AfterInit(env, w).now == w.now + 3
  {}
}

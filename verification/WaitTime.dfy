/** The delay of a forced reading against the conversion it waits for. */
module WaitTime {
  import opened Registers
  import opened Bus
  import opened Protocol
  import opened Runs
  import opened Refinement

  // in sixteenths of a millisecond
  const T_INIT_MAX := 20
  const T_MEASURE_PER_OSRS_MAX := 37
  const T_SETUP_PRESSURE_MAX := 10
  const T_SETUP_HUMIDITY_MAX := 10

  function Pow2(n: nat): nat {
    if n == 0 then 1 else 2 * Pow2(n - 1)
  }

  /** A delay in milliseconds, cut to a byte. */
  function DelayFor(powers: nat, setup: nat): int {
    ((T_INIT_MAX + T_MEASURE_PER_OSRS_MAX * powers + setup + 15) / 16) % 256
  }

  function Setup(p: nat, h: nat): (s: nat)
    ensures s <= 20
  {
    (if p != 0 then T_SETUP_PRESSURE_MAX else 0) + (if h != 0 then T_SETUP_HUMIDITY_MAX else 0)
  }

  /** The delay that the driver computes from its raw oversampling values, by `(1 << v) >> 1`. */
  function Delay(t: nat, p: nat, h: nat): int {
    DelayFor(Pow2(t) / 2 + Pow2(p) / 2 + Pow2(h) / 2, Setup(p, h))
  }

  /** How many samples the chip takes for an oversampling setting: none, 1, 2, 4, 8, and 16 from 5 on. */
  function Samples(v: nat): nat {
    if v == 0 then 0 else if v == 1 then 1 else if v <= 5 then 2 * Samples(v - 1) else 16
  }

  /** The longest conversion with the given settings in effect, in sixteenths of a millisecond. */
  function ConversionTime(t: nat, p: nat, h: nat): nat {
    T_INIT_MAX + T_MEASURE_PER_OSRS_MAX * Samples(t)
    + (if p == 0 then 0 else T_MEASURE_PER_OSRS_MAX * Samples(p) + T_SETUP_PRESSURE_MAX)
    + (if h == 0 then 0 else T_MEASURE_PER_OSRS_MAX * Samples(h) + T_SETUP_HUMIDITY_MAX)
  }

  /** A delay in whole milliseconds is the ceiling of the time. */
  predicate IsCeiling(ms: int, sixteenths: nat) {
    16 * (ms - 1) < sixteenths <= 16 * ms
  }

  lemma Powers()
    ensures Pow2(0) / 2 == 0 && Pow2(1) / 2 == 1 && Pow2(2) / 2 == 2 && Pow2(3) / 2 == 4
    ensures Pow2(4) / 2 == 8 && Pow2(5) / 2 == 16 && Pow2(6) / 2 == 32 && Pow2(7) / 2 == 64
  {
    assert Pow2(2) == 4 && Pow2(3) == 8 && Pow2(4) == 16;
    assert Pow2(5) == 32 && Pow2(6) == 64 && Pow2(7) == 128;
  }

  /** The shifted value is the number of samples, up to setting 5. */
  lemma PowerAndSamples(v: nat)
    requires v <= 7
    ensures v <= 5 ==> Pow2(v) / 2 == Samples(v) <= 16
    ensures var x := Pow2(v) / 2;
            || (Samples(v) == x && (x <= 8 || x == 16))
            || (Samples(v) == 16 && (x == 32 || x == 64))
  {
    Powers();
    assert Samples(2) == 2 && Samples(3) == 4 && Samples(4) == 8 && Samples(5) == 16;
  }

  lemma ConversionTimeSum(t: nat, p: nat, h: nat)
    ensures ConversionTime(t, p, h) ==
              T_INIT_MAX + T_MEASURE_PER_OSRS_MAX * (Samples(t) + Samples(p) + Samples(h)) + Setup(p, h)
  {}

  /** For settings up to 5 the delay is exactly the ceiling of the conversion time, and fits a byte. */
  lemma DelayIsCeiling(t: nat, p: nat, h: nat)
    requires t <= 5 && p <= 5 && h <= 5
    ensures IsCeiling(Delay(t, p, h), ConversionTime(t, p, h))
    ensures 2 <= Delay(t, p, h) <= 114
  {
    hide Pow2, Samples, ConversionTime, DelayFor, Setup;
    PowerAndSamples(t);
    PowerAndSamples(p);
    PowerAndSamples(h);
    ConversionTimeSum(t, p, h);
    CeilingOfSum(Samples(t) + Samples(p) + Samples(h), Setup(p, h));
  }

  lemma CeilingOfSum(sum: nat, setup: nat)
    requires sum <= 48 && setup <= 20
    ensures IsCeiling(DelayFor(sum, setup), T_INIT_MAX + T_MEASURE_PER_OSRS_MAX * sum + setup)
    ensures 2 <= DelayFor(sum, setup) <= 114
  {}

  /** The settings 6 and 7 are documented as 16 samples too, but the delay shifts them raw and is cut
      to a byte.  It falls short exactly when the shifted values sum to 112..144. */
  lemma DelaySuffices(t: nat, p: nat, h: nat)
    requires t <= 7 && p <= 7 && h <= 7
    ensures ConversionTime(t, p, h) <= 16 * Delay(t, p, h) <==>
              !(112 <= Pow2(t) / 2 + Pow2(p) / 2 + Pow2(h) / 2 <= 144)
  {
    hide Pow2, Samples, ConversionTime, DelayFor, Setup;
    ConversionTimeSum(t, p, h);
    SumOfPowers(t, p, h);
    SumSuffices(Pow2(t) / 2 + Pow2(p) / 2 + Pow2(h) / 2, Samples(t) + Samples(p) + Samples(h), Setup(p, h));
  }

  lemma SumOfPowers(t: nat, p: nat, h: nat)
    requires t <= 7 && p <= 7 && h <= 7
    ensures var sum, m := Pow2(t) / 2 + Pow2(p) / 2 + Pow2(h) / 2, Samples(t) + Samples(p) + Samples(h);
            && m <= sum && m <= 48
            && (sum <= 104 || sum == 160 || sum == 192 || 112 <= sum <= 144)
            && (sum <= 144 ==> sum <= m + 96)
  {
    hide Pow2, Samples;
    PowerAndSamples(t);
    PowerAndSamples(p);
    PowerAndSamples(h);
  }

  lemma SumSuffices(sum: nat, m: nat, setup: nat)
    requires setup <= 20 && m <= 48 && m <= sum
    requires sum <= 104 || sum == 160 || sum == 192 || 112 <= sum <= 144
    requires sum <= 144 ==> sum <= m + 96
    ensures T_INIT_MAX + T_MEASURE_PER_OSRS_MAX * m + setup <= 16 * DelayFor(sum, setup) <==> !(112 <= sum <= 144)
  {
    var n := T_INIT_MAX + T_MEASURE_PER_OSRS_MAX * sum + setup + 15;
    assert DelayFor(sum, setup) == n / 16 % 256;
    if sum <= 104 {
      assert n / 16 % 256 == n / 16;
    } else {
      assert n / 16 % 256 == n / 16 - 256;
    }
  }

  /** Settings for which the delay is 42 ms and the conversion may take 76. */
  lemma DelayCanFallShort()
    ensures Delay(7, 7, 0) == 42 && IsCeiling(76, ConversionTime(7, 7, 0))
  {
    Powers();
  }

  /** The datasheet's own maximum, in milliseconds, for so many samples (BME280 datasheet, section 9.1). */
  function DatasheetMaximum(t: nat, p: nat, h: nat): real {
    1.25 + 2.3 * t as real
    + (if p == 0 then 0.0 else 2.3 * p as real + 0.575)
    + (if h == 0 then 0.0 else 2.3 * h as real + 0.575)
  }

  /** The driver's figures cover it, and exceed it by no more than their rounding to sixteenths, in all 0.7 ms. */
  lemma CoversDatasheet(t: nat, p: nat, h: nat)
    ensures var ms := ConversionTime(t, p, h) as real / 16.0;
            var most := DatasheetMaximum(Samples(t), Samples(p), Samples(h));
            most <= ms <= most + 0.7
  {
    SamplesAtMost16(t);
    SamplesAtMost16(p);
    SamplesAtMost16(h);
  }

  lemma {:induction false} SamplesAtMost16(v: nat)
    ensures Samples(v) <= 16 && (Samples(v) == 0 <==> v == 0)
  {
    if 2 <= v <= 5 {
      assert Samples(1) == 1 && Samples(2) == 2 && Samples(3) == 4 && Samples(4) == 8 && Samples(5) == 16;
    }
  }

  /** Delays of some settings: nothing, one temperature sample, one sample each, those of the sensor, the most. */
  lemma DelaysSpelledOut()
    ensures Delay(0, 0, 0) == 2 && Delay(1, 0, 0) == 4 && Delay(0, 1, 0) == Delay(0, 0, 1) == 5
    ensures Delay(1, 1, 1) == 10 && Delay(3, 2, 1) == 19 && Delay(5, 5, 5) == 114
    ensures ConversionTime(0, 0, 0) == 20 && ConversionTime(1, 0, 0) == 57
    ensures ConversionTime(0, 1, 0) == ConversionTime(0, 0, 1) == 67 && ConversionTime(1, 1, 1) == 151
  {
    Powers();
    assert Samples(0) == 0 && Samples(1) == 1;
  }

  // ----- the raw values in a run -----

  /** The delay of a forced reading in driver state s. */
  function DelayFrom(s: Shadow): int {
    Delay(s.osT as nat, s.osP as nat, s.osH as nat)
  }

  lemma AtMost5(v: bv8)
    requires v <= 5
    ensures v as nat <= 5
  {}

  /** The driver's raw oversampling values are the caller's settings. */
  ghost predicate CacheIs(s: Shadow, a: Settings) {
    s.osT == a.of(OsrsT) && s.osP == a.of(OsrsP) && s.osH == a.of(OsrsH)
  }

  predicate IsOversampling(f: Field) {
    f == OsrsT || f == OsrsP || f == OsrsH
  }

  /** No setter in the run is given an oversampling value wider than its field. */
  ghost predicate InWidth(ops: seq<Op>) {
    forall i :: 0 <= i < |ops| && ops[i].Set? && IsOversampling(ops[i].f) ==> ops[i].v <= 7
  }

  lemma StepKeepsCache(env: Env, st: State, a: Settings, op: Op)
    requires Reliable(env, st.w.now) && Refines(st, a) && CacheIs(st.s, a) && InWidth([op])
    ensures CacheIs(Step(env, st, op).s, AbstractStep(a, op))
  {
    match op
    case Set(f, v) =>
      assert [op][0] == op;
      if !Rejected(f, v) {
        SetKeepsCache(env, st, a, f, v);
      }
    case Get(f) => GetKeepsCache(env, st, a, f);
    case _ =>
  }

  lemma SetFieldCache(env: Env, st: State, f: Field, v: bv8)
    ensures var s, s' := Cached(st.s, f, v), SetField(env, st, f, v).s;
            s'.osT == s.osT && s'.osP == s.osP && s'.osH == s.osH
  {}

  lemma SetKeepsCache(env: Env, st: State, a: Settings, f: Field, v: bv8)
    requires CacheIs(st.s, a) && (IsOversampling(f) ==> v <= 7)
    ensures CacheIs(SetField(env, st, f, v).s, Assign(a, f, Truncate(f, v)))
  {
    SetFieldCache(env, st, f, v);
    if IsOversampling(f) {
      TruncateInWidth(f, v);
    }
  }

  lemma TruncateInWidth(f: Field, v: bv8)
    requires IsOversampling(f) && v <= 7
    ensures Truncate(f, v) == v
  {}

  lemma GetKeepsCache(env: Env, st: State, a: Settings, f: Field)
    requires Reliable(env, st.w.now) && Refines(st, a) && CacheIs(st.s, a)
    ensures CacheIs(GetField(env, st, f).s, a)
  {
    ReadEffect(env, st.w);
    assert IsControl(Home(f)) && Within(a, f, GetSlice(f, Peek(st.w, Home(f))));
    MeasAgreeFields(st.w.meas, AfterRead(env, st.w).meas);
  }

  lemma {:induction false} RunKeepsCache(env: Env, st: State, a: Settings, ops: seq<Op>)
    requires Reliable(env, st.w.now) && Refines(st, a) && CacheIs(st.s, a) && InWidth(ops)
    ensures CacheIs(Run(env, st, ops).s, AbstractRun(a, ops))
    decreases |ops|
  {
    if ops != [] {
      assert InWidth([ops[0]]);
      StepRefines(env, st, a, ops[0]);
      StepTime(env, st, ops[0]);
      StepKeepsCache(env, st, a, ops[0]);
      assert forall i :: 0 <= i < |ops[1..]| ==> ops[1..][i] == ops[i + 1];
      RunKeepsCache(env, Step(env, st, ops[0]), AbstractStep(a, ops[0]), ops[1..]);
    }
  }

  /** The settings with which the chip performs the conversion that a forced reading has started. */
  function StartedTime(env: Env, st: State): nat {
    var w := Started(env, st);
    ConversionTime(FieldOf(w, OsrsT) as nat, FieldOf(w, OsrsP) as nat, w.latched as nat)
  }

  /** After any run that sets oversamplings of at most 5, a forced reading waits exactly the ceiling
      of the time its conversion takes with the settings then in effect on the chip. */
  lemma ForcedDelayIsExact(env: Env, st: State, a: Settings, ops: seq<Op>)
    requires Reliable(env, st.w.now) && Refines(st, a) && CacheIs(st.s, a)
    requires a.of(OsrsT) <= 5 && a.of(OsrsP) <= 5 && a.of(OsrsH) <= 5
    requires forall i :: 0 <= i < |ops| && ops[i].Set? && IsOversampling(ops[i].f) ==> ops[i].v <= 5
    ensures var st' := Run(env, st, ops);
            && IsCeiling(DelayFrom(st'.s), StartedTime(env, st'))
            && DelayFrom(st'.s) <= 114
  {
    var st', a' := Run(env, st, ops), AbstractRun(a, ops);
    RunTime(env, st, ops);
    RunRefines(env, st, a, ops);
    RunKeepsCache(env, st, a, ops);
    LastAskedAtMost5(a, ops, OsrsT);
    LastAskedAtMost5(a, ops, OsrsP);
    LastAskedAtMost5(a, ops, OsrsH);
    AtMost5(st'.s.osT);
    AtMost5(st'.s.osP);
    AtMost5(st'.s.osH);
    DelayIsCeiling(st'.s.osT as nat, st'.s.osP as nat, st'.s.osH as nat);
    StartedSettings(env, st', a');
  }

  lemma StartedSettings(env: Env, st: State, a: Settings)
    requires Reliable(env, st.w.now) && Refines(st, a)
    ensures var w := Started(env, st);
            FieldOf(w, OsrsT) == a.of(OsrsT) && FieldOf(w, OsrsP) == a.of(OsrsP) && w.latched == a.of(OsrsH)
  {
    var w := Started(env, st);
    var b := WantedBytes(st.s, Mode, FORCED_MODE);
    InstallWithin(env, st, a, Mode, FORCED_MODE, HumThenMeas, CTRL_MEAS_REG);
    InstallWithin(env, st, a, Mode, FORCED_MODE, HumThenMeas, CTRL_HUM_REG);
    InstallLatch(env, st.w, b, HumThenMeas);
    var a' := Assign(a, Mode, Truncate(Mode, FORCED_MODE));
    assert Within(a', OsrsT, FieldOf(w, OsrsT)) && Within(a', OsrsP, FieldOf(w, OsrsP))
           && Within(a', OsrsH, FieldOf(w, OsrsH));
  }

  lemma {:induction false} LastAskedAtMost5(a: Settings, ops: seq<Op>, f: Field)
    requires IsOversampling(f) && a.of(f) <= 5
    requires forall i :: 0 <= i < |ops| && ops[i].Set? && IsOversampling(ops[i].f) ==> ops[i].v <= 5
    ensures AbstractRun(a, ops).of(f) <= 5
    decreases |ops|
  {
    if ops != [] {
      assert forall i :: 0 <= i < |ops[1..]| ==> ops[1..][i] == ops[i + 1];
      LastAskedAtMost5(AbstractStep(a, ops[0]), ops[1..], f);
    }
  }
}

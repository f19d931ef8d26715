/** The register-shadow protocol of the driver's setters and of its forced reading, on values.
    Every operation computes the bytes it wants in the three control registers from the driver's
    shadow, asks the chip for its mode, and then either replays all three registers after a soft
    reset (chip awake) or writes only the registers concerned (chip asleep).  It ends by copying
    the registers back into the shadow. */
module Protocol {
  import opened Registers
  import opened Bus

  /** The driver's copies of the control registers, and its raw copies of the oversampling settings. */
  datatype Shadow = Shadow(hum: bv8, meas: bv8, config: bv8, osT: bv8, osP: bv8, osH: bv8)

  datatype State = State(w: World, s: Shadow)

  /** The bytes an operation wants in the control registers. */
  datatype Bytes = Bytes(config: bv8, hum: bv8, meas: bv8)

  /** What is written, in order, to a chip that is asleep. */
  datatype Direct = MeasOnly | HumThenMeas | ConfigOnly

  function WantedBytes(s: Shadow, f: Field, v: bv8): Bytes {
    var home := Home(f);
    Bytes(if home == CONFIG_REG then SetSlice(f, s.config, v) else s.config,
          if home == CTRL_HUM_REG then SetSlice(f, s.hum, v) else s.hum,
          if home == CTRL_MEAS_REG then SetSlice(f, s.meas, v) else s.meas)
  }

  function DirectWrites(f: Field): Direct {
    match f
    case OsrsT | OsrsP | Mode => MeasOnly
    case OsrsH => HumThenMeas
    case Tsb | Filter | Spi3 => ConfigOnly
  }

  /** The setters keep the oversampling value they were given, untruncated. */
  function Cached(s: Shadow, f: Field, v: bv8): Shadow {
    match f
    case OsrsT => s.(osT := v)
    case OsrsP => s.(osP := v)
    case OsrsH => s.(osH := v)
    case _ => s
  }

  function ReportedMode(env: Env, w: World): bv8 {
    ModeOf(ReadValue(env, w, CTRL_MEAS_REG))
  }

  function Replay(env: Env, w: World, b: Bytes): World {
    var w1 := AfterWrite(env, w, RST_REG, SOFT_RESET_CODE);
    var w2 := AfterWrite(env, w1, CONFIG_REG, b.config);
    var w3 := AfterWrite(env, w2, CTRL_HUM_REG, b.hum);
    AfterWrite(env, w3, CTRL_MEAS_REG, b.meas)
  }

  function WriteDirect(env: Env, w: World, b: Bytes, d: Direct): World {
    match d
    case MeasOnly => AfterWrite(env, w, CTRL_MEAS_REG, b.meas)
    case HumThenMeas => AfterWrite(env, AfterWrite(env, w, CTRL_HUM_REG, b.hum), CTRL_MEAS_REG, b.meas)
    case ConfigOnly => AfterWrite(env, w, CONFIG_REG, b.config)
  }

  /** Mode query, then replay or direct write. */
  function Install(env: Env, w: World, b: Bytes, d: Direct): World {
    var w1 := AfterRead(env, w);
    if ReportedMode(env, w) != SLEEP_MODE then Replay(env, w1, b) else WriteDirect(env, w1, b, d)
  }

  /** The setters read back ctrl_meas, ctrl_hum, config. */
  function ReadBack(env: Env, w: World, s: Shadow): State {
    var w1 := AfterRead(env, w);
    var w2 := AfterRead(env, w1);
    State(AfterRead(env, w2),
          s.(meas := ReadValue(env, w, CTRL_MEAS_REG),
             hum := ReadValue(env, w1, CTRL_HUM_REG),
             config := ReadValue(env, w2, CONFIG_REG)))
  }

  /** The forced reading reads back ctrl_hum, config, ctrl_meas. */
  function ReadBackForced(env: Env, w: World, s: Shadow): State {
    var w1 := AfterRead(env, w);
    var w2 := AfterRead(env, w1);
    State(AfterRead(env, w2),
          s.(hum := ReadValue(env, w, CTRL_HUM_REG),
             config := ReadValue(env, w1, CONFIG_REG),
             meas := ReadValue(env, w2, CTRL_MEAS_REG)))
  }

  /** The effect of a setter. */
  function SetField(env: Env, st: State, f: Field, v: bv8): State {
    var w1 := Install(env, st.w, WantedBytes(st.s, f, v), DirectWrites(f));
    ReadBack(env, w1, Cached(st.s, f, v))
  }

  /** The chip when a forced reading has started the conversion and not yet fetched it. */
  function Started(env: Env, st: State): World {
    Install(env, st.w, WantedBytes(st.s, Mode, FORCED_MODE), HumThenMeas)
  }

  /** The effect of a forced reading: one more transaction, the burst, before the read-back. */
  function ForcedRead(env: Env, st: State): State {
    ReadBackForced(env, AfterRead(env, Started(env, st)), st.s)
  }

  // ----- time only goes forward -----

  lemma InstallTime(env: Env, w: World, b: Bytes, d: Direct)
    ensures Install(env, w, b, d).now ==
              w.now + if ReportedMode(env, w) != SLEEP_MODE then 5 else if d == HumThenMeas then 3 else 2
  {
    hide Settle, Obey;
  }

  /** How many transactions an operation takes: eight, or to a sleeping chip five, and six for humidity. */
  lemma SetFieldTime(env: Env, st: State, f: Field, v: bv8)
    ensures SetField(env, st, f, v).w.now ==
              st.w.now + if ReportedMode(env, st.w) != SLEEP_MODE then 8 else if f == OsrsH then 6 else 5
  {
    hide Install, Settle, WantedBytes, Cached, ReportedMode;
    InstallTime(env, st.w, WantedBytes(st.s, f, v), DirectWrites(f));
  }

  /** A forced reading takes nine, or seven; the burst is the fourth from the end. */
  lemma ForcedReadTime(env: Env, st: State)
    ensures ForcedRead(env, st).w.now == st.w.now + if ReportedMode(env, st.w) != SLEEP_MODE then 9 else 7
    ensures Started(env, st).now + 4 == ForcedRead(env, st).w.now
  {
    hide Install, Settle, WantedBytes, ReportedMode;
    InstallTime(env, st.w, WantedBytes(st.s, Mode, FORCED_MODE), HumThenMeas);
  }

  /** The order of the closing reads, by what a failed one spoils: ctrl_meas, ctrl_hum, config for a setter,
      and ctrl_hum, config, ctrl_meas for a forced reading. */
  lemma ReadBackOrder(env: Env, w: World, s: Shadow)
    ensures var n, a, b := w.now, ReadBack(env, w, s).s, ReadBackForced(env, w, s).s;
            && (env(n).fails ==> a.meas == env(n).garbage && b.hum == env(n).garbage)
            && (env(n + 1).fails ==> a.hum == env(n + 1).garbage && b.config == env(n + 1).garbage)
            && (env(n + 2).fails ==> a.config == env(n + 2).garbage && b.meas == env(n + 2).garbage)
  {}

  // ----- what one operation leaves behind, on a bus that works -----

  /** The shadow of ctrl_meas may still say "forced" after the chip has gone to sleep. */
  predicate MeasAgree(shadow: bv8, chip: bv8) {
    chip == shadow
    || (IsForced(ModeOf(shadow)) && chip == Slept(shadow))
  }

  predicate ShadowAgrees(st: State) {
    && st.s.hum == st.w.hum
    && st.s.config == st.w.config
    && MeasAgree(st.s.meas, st.w.meas)
  }

  /** The humidity oversampling in effect is the one in the register. */
  predicate LatchCurrent(w: World) {
    w.latched == LatchOf(w.hum)
  }

  predicate Coherent(st: State) {
    ShadowAgrees(st) && LatchCurrent(st.w)
  }

  /** Whether the operation finds the chip awake at its mode query. */
  predicate FoundAwake(env: Env, w: World) {
    !Asleep(Settle(env, w))
  }

  lemma MeasAgreeTransitive(a: bv8, b: bv8, c: bv8)
    requires MeasAgree(a, b) && MeasAgree(b, c)
    ensures MeasAgree(a, c)
  {}

  /** A read that succeeds sees the chip as the read leaves it. */
  lemma ReadEffect(env: Env, w: World)
    requires Reliable(env, w.now)
    ensures var w' := AfterRead(env, w);
            && w' == w.(meas := w'.meas, now := w.now + 1)
            && w'.meas == Settle(env, w).meas
            && MeasAgree(w.meas, w'.meas)
            && ReadValue(env, w, CTRL_MEAS_REG) == w'.meas
            && ReadValue(env, w, CTRL_HUM_REG) == w.hum
            && ReadValue(env, w, CONFIG_REG) == w.config
  {
    assert !env(w.now).fails;
  }

  /** A write that succeeds reaches the chip. */
  lemma WriteLands(env: Env, w: World, addr: int, v: bv8)
    requires Reliable(env, w.now)
    ensures exists honoured: bool ::
              AfterWrite(env, w, addr, v) == Obey(Settle(env, w), honoured, addr, v).(now := w.now + 1)
  {
    assert !env(w.now).fails;
    assert AfterWrite(env, w, addr, v) == Obey(Settle(env, w), env(w.now).honoured, addr, v).(now := w.now + 1);
  }

  lemma SleepStaysSleep(env: Env, w: World)
    requires Asleep(w)
    ensures Settle(env, w) == w
  {}

  /** A write to a sleeping chip does what it says; a reset does so in any mode. */
  lemma WriteEffect(env: Env, w: World, addr: int, v: bv8)
    requires Reliable(env, w.now)
    ensures v == SOFT_RESET_CODE && addr == RST_REG ==>
              AfterWrite(env, w, addr, v) == World(0, 0, 0, 0, w.now + 1, w.rogue)
    ensures Asleep(w) && addr == CONFIG_REG ==> AfterWrite(env, w, addr, v) == w.(config := v, now := w.now + 1)
    ensures Asleep(w) && addr == CTRL_HUM_REG ==> AfterWrite(env, w, addr, v) == w.(hum := v, now := w.now + 1)
    ensures Asleep(w) && addr == CTRL_MEAS_REG ==>
              AfterWrite(env, w, addr, v) == w.(meas := v, latched := LatchOf(w.hum), now := w.now + 1)
  {
    hide AfterWrite, Settle, LatchOf, Slept, ModeOf;
    WriteLands(env, w, addr, v);
    SettleKeeps(env, w);
    if Asleep(w) {
      SleepStaysSleep(env, w);
    }
  }

  lemma SettleKeeps(env: Env, w: World)
    ensures Settle(env, w) == w.(meas := Settle(env, w).meas)
  {}

  lemma ReplayEffect(env: Env, w: World, b: Bytes)
    requires Reliable(env, w.now)
    ensures Replay(env, w, b) == World(b.hum, b.meas, b.config, LatchOf(b.hum), w.now + 4, w.rogue)
  {
    WriteEffect(env, w, RST_REG, SOFT_RESET_CODE);
    var w1 := World(0, 0, 0, 0, w.now + 1, w.rogue);
    WriteEffect(env, w1, CONFIG_REG, b.config);
    var w2 := w1.(config := b.config, now := w.now + 2);
    WriteEffect(env, w2, CTRL_HUM_REG, b.hum);
    var w3 := w2.(hum := b.hum, now := w.now + 3);
    WriteEffect(env, w3, CTRL_MEAS_REG, b.meas);
  }

  lemma WriteDirectEffect(env: Env, w: World, b: Bytes, d: Direct)
    requires Reliable(env, w.now) && Asleep(w)
    ensures var w' := WriteDirect(env, w, b, d);
            && w'.rogue == w.rogue
            && w'.hum == (if d == HumThenMeas then b.hum else w.hum)
            && w'.config == (if d == ConfigOnly then b.config else w.config)
            && w'.meas == (if d == ConfigOnly then w.meas else b.meas)
            && w'.latched == (if d == ConfigOnly then w.latched else LatchOf(w'.hum))
            && w'.now == w.now + (if d == HumThenMeas then 2 else 1)
  {
    match d
    case MeasOnly => WriteEffect(env, w, CTRL_MEAS_REG, b.meas);
    case ConfigOnly => WriteEffect(env, w, CONFIG_REG, b.config);
    case HumThenMeas =>
      WriteEffect(env, w, CTRL_HUM_REG, b.hum);
      WriteEffect(env, w.(hum := b.hum, now := w.now + 1), CTRL_MEAS_REG, b.meas);
  }

  /** The registers after Install: the wanted bytes, except that a sleeping chip keeps what the
      operation does not write; no config write ever reached a chip that was awake. */
  lemma InstallEffect(env: Env, w: World, b: Bytes, d: Direct)
    requires Reliable(env, w.now)
    ensures var w' := Install(env, w, b, d);
            && w'.rogue == w.rogue
            && (FoundAwake(env, w) ==>
                  w' == World(b.hum, b.meas, b.config, LatchOf(b.hum), w.now + 5, w.rogue))
            && (!FoundAwake(env, w) ==>
                  && w'.hum == (if d == HumThenMeas then b.hum else w.hum)
                  && w'.config == (if d == ConfigOnly then b.config else w.config)
                  && w'.meas == (if d == ConfigOnly then Settle(env, w).meas else b.meas)
                  && w'.latched == (if d == ConfigOnly then w.latched else LatchOf(w'.hum))
                  && w'.now == w.now + (if d == HumThenMeas then 3 else 2))
  {
    ReadEffect(env, w);
    var w1 := AfterRead(env, w);
    if FoundAwake(env, w) {
      ReplayEffect(env, w1, b);
    } else {
      WriteDirectEffect(env, w1, b, d);
    }
  }

  /** Reading back makes the shadow agree with the chip, whatever it held before. */
  lemma ReadBackEffect(env: Env, w: World, s: Shadow)
    requires Reliable(env, w.now)
    ensures ReadBackOutcome(w, s, ReadBack(env, w, s))
    ensures ReadBackOutcome(w, s, ReadBackForced(env, w, s))
  {
    var w1 := AfterRead(env, w);
    var w2 := AfterRead(env, w1);
    var w3 := AfterRead(env, w2);
    ReadEffect(env, w);
    ReadEffect(env, w1);
    ReadEffect(env, w2);
    MeasAgreeTransitive(w.meas, w1.meas, w2.meas);
    MeasAgreeTransitive(w.meas, w2.meas, w3.meas);
    MeasAgreeTransitive(w1.meas, w2.meas, w3.meas);
  }

  /** A forced reading, before it fetches: the wanted ctrl_meas, in forced mode, has just been written to the
      chip, with the humidity setting of the shadow in effect, whatever the chip was like. */
  lemma ConversionStarted(env: Env, st: State)
    requires Reliable(env, st.w.now)
    ensures var w := Started(env, st);
            && w.meas == SetSlice(Mode, st.s.meas, FORCED_MODE) && ModeOf(w.meas) == 1
            && w.hum == st.s.hum && w.latched == LatchOf(st.s.hum)
  {
    hide Install, Settle, SetSlice, GetSlice, LatchOf;
    assert Truncate(Mode, FORCED_MODE) == 1;
    InstallEffect(env, st.w, WantedBytes(st.s, Mode, FORCED_MODE), HumThenMeas);
    SetSliceIsolated(Mode, Mode, st.s.meas, FORCED_MODE);
    SlicesSpelledOut(SetSlice(Mode, st.s.meas, FORCED_MODE));
  }

  predicate ReadBackOutcome(w: World, s: Shadow, st: State) {
    && ShadowAgrees(st)
    && st.w == w.(meas := st.w.meas, now := w.now + 3)
    && st.s == s.(meas := st.s.meas, hum := w.hum, config := w.config)
    && MeasAgree(w.meas, st.s.meas) && MeasAgree(w.meas, st.w.meas)
  }
}

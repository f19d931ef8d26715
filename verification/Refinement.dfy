/** The driver refines seven independent variables: over every run, whatever the timing, each field
    of the chip holds the last value set for it. */
module Refinement {
  import opened Registers
  import opened Bus
  import opened Protocol
  import opened Runs

  // ----- the abstract view: seven independent variables -----

  /** What the caller asked for: the value of each field, and the unused bits of two registers. */
  datatype Settings = Settings(of: Field -> bv8, spareHum: bv8, spareConfig: bv8)

  function Assign(a: Settings, f: Field, v: bv8): Settings {
    a.(of := g => if g == f then v else a.of(g))
  }

  function AbstractStep(a: Settings, op: Op): Settings {
    match op
    case Set(f, v) => if Rejected(f, v) then a else Assign(a, f, Truncate(f, v))
    case ForcedReading => Assign(a, Mode, FORCED_MODE)
    case _ => a
  }

  function AbstractRun(a: Settings, ops: seq<Op>): Settings
    decreases |ops|
  {
    if ops == [] then a else AbstractRun(AbstractStep(a, ops[0]), ops[1..])
  }

  function ShadowByte(s: Shadow, reg: int): bv8 {
    if reg == CTRL_HUM_REG then s.hum else if reg == CTRL_MEAS_REG then s.meas else s.config
  }

  function WantedByte(b: Bytes, reg: int): bv8 {
    if reg == CTRL_HUM_REG then b.hum else if reg == CTRL_MEAS_REG then b.meas else b.config
  }

  /** Field f may read x when the caller's settings are a. */
  predicate Within(a: Settings, f: Field, x: bv8) {
    if f == Mode then ModeAllowed(a.of(Mode), x) else x == a.of(f)
  }

  /** Register `reg`, holding r, is what the settings a say. */
  ghost predicate RegisterWithin(a: Settings, reg: int, r: bv8) {
    && (forall f: Field :: Home(f) == reg ==> Within(a, f, GetSlice(f, r)))
    && (reg == CTRL_HUM_REG ==> Reserved(reg, r) == a.spareHum)
    && (reg == CONFIG_REG ==> Reserved(reg, r) == a.spareConfig)
  }

  predicate IsControl(reg: int) {
    reg == CTRL_HUM_REG || reg == CTRL_MEAS_REG || reg == CONFIG_REG
  }

  /** Driver and chip implement the settings: the shadow agrees with the chip, the humidity setting
      is in effect, and every field of every register, on the chip and in the shadow, is as set. */
  ghost predicate Refines(st: State, a: Settings) {
    && Coherent(st)
    && (forall reg: int :: IsControl(reg) ==>
          RegisterWithin(a, reg, Peek(st.w, reg)) && RegisterWithin(a, reg, ShadowByte(st.s, reg)))
  }

  /** The settings a coherent state stands for. */
  function Abstraction(st: State): Settings {
    Settings(f => GetSlice(f, ShadowByte(st.s, Home(f))),
             Reserved(CTRL_HUM_REG, st.w.hum), Reserved(CONFIG_REG, st.w.config))
  }

  lemma CoherentRefinesItself(st: State)
    requires Coherent(st)
    ensures Refines(st, Abstraction(st))
  {
    var a := Abstraction(st);
    forall reg: int | IsControl(reg)
      ensures RegisterWithin(a, reg, Peek(st.w, reg)) && RegisterWithin(a, reg, ShadowByte(st.s, reg))
    {
      ShadowWithinAbstraction(st, reg);
      if reg == CTRL_MEAS_REG {
        WithinMeasAgree(a, st.s.meas, st.w.meas);
      }
    }
  }

  lemma ShadowWithinAbstraction(st: State, reg: int)
    requires Coherent(st)
    ensures RegisterWithin(Abstraction(st), reg, ShadowByte(st.s, reg))
  {}

  lemma MeasAgreeFields(m: bv8, m': bv8)
    requires MeasAgree(m, m')
    ensures GetSlice(OsrsT, m') == GetSlice(OsrsT, m)
    ensures GetSlice(OsrsP, m') == GetSlice(OsrsP, m)
    ensures ModeAllowed(GetSlice(Mode, m), GetSlice(Mode, m'))
  {
    hide GetSlice, SetSlice, Slept, ModeOf;
    SlicesSpelledOut(m);
    SetSliceIsolated(Mode, OsrsT, m, SLEEP_MODE);
    SetSliceIsolated(Mode, OsrsP, m, SLEEP_MODE);
    SetSliceIsolated(Mode, Mode, m, SLEEP_MODE);
  }

  lemma WithinMeasAgree(a: Settings, m: bv8, m': bv8)
    requires RegisterWithin(a, CTRL_MEAS_REG, m) && MeasAgree(m, m')
    ensures RegisterWithin(a, CTRL_MEAS_REG, m')
  {
    MeasAgreeFields(m, m');
    assert Within(a, OsrsT, GetSlice(OsrsT, m)) && Within(a, OsrsP, GetSlice(OsrsP, m))
           && Within(a, Mode, GetSlice(Mode, m));
  }

  // ----- the write phase of one operation -----

  predicate Writes(d: Direct, reg: int) {
    match d
    case MeasOnly => reg == CTRL_MEAS_REG
    case HumThenMeas => reg == CTRL_MEAS_REG || reg == CTRL_HUM_REG
    case ConfigOnly => reg == CONFIG_REG
  }

  lemma InstallRegister(env: Env, w: World, b: Bytes, d: Direct, reg: int)
    requires Reliable(env, w.now) && IsControl(reg)
    ensures Peek(Install(env, w, b, d), reg) ==
              if FoundAwake(env, w) || Writes(d, reg) then WantedByte(b, reg) else Peek(Settle(env, w), reg)
  {
    InstallEffect(env, w, b, d);
  }

  lemma InstallLatch(env: Env, w: World, b: Bytes, d: Direct)
    requires Reliable(env, w.now)
    ensures LatchCurrent(Install(env, w, b, d)) <==> (FoundAwake(env, w) || d != ConfigOnly || LatchCurrent(w))
    ensures Install(env, w, b, d).rogue == w.rogue
  {
    InstallEffect(env, w, b, d);
  }

  /** The bytes wanted are what the new settings say, if the shadow was what the old ones say. */
  lemma WantedWithin(a: Settings, s: Shadow, f: Field, v: bv8, reg: int)
    requires IsControl(reg) && RegisterWithin(a, reg, ShadowByte(s, reg))
    ensures RegisterWithin(Assign(a, f, Truncate(f, v)), reg, WantedByte(WantedBytes(s, f, v), reg))
  {
    if Home(f) == reg {
      SetSliceWithin(a, f, v, ShadowByte(s, reg));
    } else {
      OtherRegisterWithin(a, f, Truncate(f, v), reg, ShadowByte(s, reg));
    }
  }

  lemma SetSliceWithin(a: Settings, f: Field, v: bv8, r: bv8)
    requires RegisterWithin(a, Home(f), r)
    ensures RegisterWithin(Assign(a, f, Truncate(f, v)), Home(f), SetSlice(f, r, v))
  {
    forall g: Field | Home(g) == Home(f)
      ensures Within(Assign(a, f, Truncate(f, v)), g, GetSlice(g, SetSlice(f, r, v)))
    {
      SetSliceIsolated(f, g, r, v);
      assert Within(a, g, GetSlice(g, r));
    }
    SetSliceIsolated(f, f, r, v);
  }

  /** Assigning a field does not matter to the other registers. */
  lemma OtherRegisterWithin(a: Settings, f: Field, v: bv8, reg: int, r: bv8)
    requires Home(f) != reg && RegisterWithin(a, reg, r)
    ensures RegisterWithin(Assign(a, f, v), reg, r)
  {
    assert forall g: Field :: Home(g) == reg ==> Within(a, g, GetSlice(g, r));
  }

  lemma SettledWithin(env: Env, w: World, a: Settings, reg: int)
    requires IsControl(reg) && RegisterWithin(a, reg, Peek(w, reg))
    ensures RegisterWithin(a, reg, Peek(Settle(env, w), reg))
  {
    if reg == CTRL_MEAS_REG {
      assert MeasAgree(w.meas, Settle(env, w).meas);
      WithinMeasAgree(a, w.meas, Settle(env, w).meas);
    } else {
      assert Peek(Settle(env, w), reg) == Peek(w, reg);
    }
  }

  /** After the write phase every register is what the new settings say. */
  lemma InstallWithin(env: Env, st: State, a: Settings, f: Field, v: bv8, d: Direct, reg: int)
    requires Reliable(env, st.w.now) && Refines(st, a) && Writes(d, Home(f)) && IsControl(reg)
    ensures RegisterWithin(Assign(a, f, Truncate(f, v)), reg, Peek(Install(env, st.w, WantedBytes(st.s, f, v), d), reg))
  {
    InstallRegister(env, st.w, WantedBytes(st.s, f, v), d, reg);
    assert RegisterWithin(a, reg, Peek(st.w, reg)) && RegisterWithin(a, reg, ShadowByte(st.s, reg));
    WantedWithin(a, st.s, f, v, reg);
    if Home(f) != reg {
      SettledWithin(env, st.w, a, reg);
      OtherRegisterWithin(a, f, Truncate(f, v), reg, Peek(Settle(env, st.w), reg));
    }
  }

  /** Reading back keeps what the write phase reached, and brings the shadow there. */
  lemma ReadBackWithin(a: Settings, w: World, s: Shadow, st: State)
    requires forall reg: int :: IsControl(reg) ==> RegisterWithin(a, reg, Peek(w, reg))
    requires LatchCurrent(w) && ReadBackOutcome(w, s, st)
    ensures Refines(st, a)
  {
    assert IsControl(CTRL_MEAS_REG) && IsControl(CTRL_HUM_REG) && IsControl(CONFIG_REG);
    WithinMeasAgree(a, w.meas, st.w.meas);
    WithinMeasAgree(a, w.meas, st.s.meas);
  }

  // ----- one operation -----

  lemma SetFieldRefines(env: Env, st: State, a: Settings, f: Field, v: bv8)
    requires Reliable(env, st.w.now) && Refines(st, a)
    ensures Refines(SetField(env, st, f, v), Assign(a, f, Truncate(f, v)))
  {
    var b, d := WantedBytes(st.s, f, v), DirectWrites(f);
    var w1 := Install(env, st.w, b, d);
    forall reg: int | IsControl(reg)
      ensures RegisterWithin(Assign(a, f, Truncate(f, v)), reg, Peek(w1, reg))
    {
      InstallWithin(env, st, a, f, v, d, reg);
    }
    InstallLatch(env, st.w, b, d);
    ReadBackEffect(env, w1, Cached(st.s, f, v));
    ReadBackWithin(Assign(a, f, Truncate(f, v)), w1, Cached(st.s, f, v), SetField(env, st, f, v));
  }

  lemma ForcedReadRefines(env: Env, st: State, a: Settings)
    requires Reliable(env, st.w.now) && Refines(st, a)
    ensures Refines(ForcedRead(env, st), Assign(a, Mode, FORCED_MODE))
  {
    var a' := Assign(a, Mode, FORCED_MODE);
    assert Truncate(Mode, FORCED_MODE) == FORCED_MODE;
    var b := WantedBytes(st.s, Mode, FORCED_MODE);
    var w1 := Started(env, st);
    forall reg: int | IsControl(reg)
      ensures RegisterWithin(a', reg, Peek(w1, reg))
    {
      InstallWithin(env, st, a, Mode, FORCED_MODE, HumThenMeas, reg);
    }
    InstallLatch(env, st.w, b, HumThenMeas);
    AfterReadWithin(env, a', w1);
    var w2 := AfterRead(env, w1);
    ReadBackEffect(env, w2, st.s);
    ReadBackWithin(a', w2, st.s, ForcedRead(env, st));
  }

  lemma AfterReadWithin(env: Env, a: Settings, w: World)
    requires Reliable(env, w.now)
    requires forall reg: int :: IsControl(reg) ==> RegisterWithin(a, reg, Peek(w, reg))
    ensures forall reg: int :: IsControl(reg) ==> RegisterWithin(a, reg, Peek(AfterRead(env, w), reg))
    ensures LatchCurrent(AfterRead(env, w)) <==> LatchCurrent(w)
  {
    ReadEffect(env, w);
    assert IsControl(CTRL_MEAS_REG) && IsControl(CTRL_HUM_REG) && IsControl(CONFIG_REG);
    WithinMeasAgree(a, w.meas, AfterRead(env, w).meas);
  }

  /** Time passing, and getters, change no setting. */
  lemma ReadOnlyRefines(env: Env, st: State, a: Settings, s: Shadow)
    requires Reliable(env, st.w.now) && Refines(st, a)
    requires s == st.s.(osT := s.osT, osP := s.osP, osH := s.osH)
    ensures Refines(State(AfterRead(env, st.w), s), a)
  {
    ReadEffect(env, st.w);
    MeasAgreeTransitive(st.s.meas, st.w.meas, AfterRead(env, st.w).meas);
    AfterReadWithin(env, a, st.w);
    assert forall reg: int :: ShadowByte(s, reg) == ShadowByte(st.s, reg);
  }

  lemma StepRefines(env: Env, st: State, a: Settings, op: Op)
    requires Reliable(env, st.w.now) && Refines(st, a)
    ensures Refines(Step(env, st, op), AbstractStep(a, op))
  {
    match op
    case Set(f, v) =>
      if !Rejected(f, v) {
        SetFieldRefines(env, st, a, f, v);
      }
    case Get(f) => ReadOnlyRefines(env, st, a, Cached(st.s, f, GetValue(env, st, f)));
    case ForcedReading => ForcedReadRefines(env, st, a);
    case Idle => ReadOnlyRefines(env, st, a, st.s);
  }

  // ----- whole runs -----

  /** Every run of setters, getters, forced readings and idle moments refines the same run on
      independent variables. */
  lemma {:induction false} RunRefines(env: Env, st: State, a: Settings, ops: seq<Op>)
    requires Reliable(env, st.w.now) && Refines(st, a)
    ensures Refines(Run(env, st, ops), AbstractRun(a, ops))
    decreases |ops|
  {
    if ops != [] {
      StepRefines(env, st, a, ops[0]);
      StepTime(env, st, ops[0]);
      RunRefines(env, Step(env, st, ops[0]), AbstractStep(a, ops[0]), ops[1..]);
    }
  }

  /** What one operation asks of field f, if anything. */
  predicate Touches(op: Op, f: Field) {
    match op
    case Set(g, v) => g == f && !Rejected(g, v)
    case ForcedReading => f == Mode
    case _ => false
  }

  function Asked(op: Op, f: Field): bv8
    requires Touches(op, f)
  {
    if op.Set? then Truncate(f, op.v) else FORCED_MODE
  }

  /** The last value asked for field f in the run, or `start` if there is none. */
  function LastAsked(ops: seq<Op>, f: Field, start: bv8): bv8 {
    if ops == [] then start
    else if Touches(ops[|ops| - 1], f) then Asked(ops[|ops| - 1], f)
    else LastAsked(ops[..|ops| - 1], f, start)
  }

  lemma {:induction false} AbstractRunSnoc(a: Settings, ops: seq<Op>, op: Op)
    ensures AbstractRun(a, ops + [op]) == AbstractStep(AbstractRun(a, ops), op)
    decreases |ops|
  {
    if ops == [] {
      assert [op][1..] == [];
    } else {
      assert (ops + [op])[1..] == ops[1..] + [op];
      AbstractRunSnoc(AbstractStep(a, ops[0]), ops[1..], op);
    }
  }

  /** The variables are independent: field f depends only on the operations on f, and only on the last. */
  lemma {:induction false} AbstractRunIsLastAsked(a: Settings, ops: seq<Op>, f: Field)
    ensures AbstractRun(a, ops).of(f) == LastAsked(ops, f, a.of(f))
    decreases |ops|
  {
    if ops != [] {
      var init, op := ops[..|ops| - 1], ops[|ops| - 1];
      assert ops == init + [op];
      AbstractRunSnoc(a, init, op);
      AbstractRunIsLastAsked(a, init, f);
    }
  }

  /** From a coherent state, after any run: the shadow agrees with the chip, the humidity setting is in
      effect, and a getter for any field but the mode returns exactly the last value asked for it. */
  lemma RunKeepsLastAsked(env: Env, st: State, ops: seq<Op>, f: Field)
    requires Reliable(env, st.w.now) && Coherent(st) && f != Mode
    ensures var st' := Run(env, st, ops);
            && Coherent(st')
            && FieldOf(st'.w, f) == LastAsked(ops, f, FieldOf(st.w, f))
            && GetValue(env, st', f) == LastAsked(ops, f, FieldOf(st.w, f))
  {
    var a := Abstraction(st);
    var st' := Run(env, st, ops);
    CoherentRefinesItself(st);
    RunRefines(env, st, a, ops);
    AbstractRunIsLastAsked(a, ops, f);
    assert IsControl(Home(f));
    assert Within(a, f, FieldOf(st.w, f));
    assert Within(AbstractRun(a, ops), f, FieldOf(st'.w, f));
    RunTime(env, st, ops);
    ReadEffect(env, st'.w);
    MeasAgreeFields(st'.w.meas, AfterRead(env, st'.w).meas);
  }

  /** The mode after any run is the last one asked for, or sleep after a forced mode. */
  lemma RunKeepsMode(env: Env, st: State, ops: seq<Op>)
    requires Reliable(env, st.w.now) && Coherent(st)
    ensures ModeAllowed(LastAsked(ops, Mode, GetSlice(Mode, st.s.meas)), FieldOf(Run(env, st, ops).w, Mode))
  {
    var a := Abstraction(st);
    CoherentRefinesItself(st);
    RunRefines(env, st, a, ops);
    AbstractRunIsLastAsked(a, ops, Mode);
    assert IsControl(CTRL_MEAS_REG);
    assert Within(AbstractRun(a, ops), Mode, FieldOf(Run(env, st, ops).w, Mode));
  }

  /** Timing does not matter: under any two environments the same run leaves the same ctrl_hum and
      config bytes, and ctrl_meas bytes that differ at most in the mode. */
  lemma TimingIrrelevant(env: Env, env': Env, st: State, ops: seq<Op>)
    requires Reliable(env, st.w.now) && Reliable(env', st.w.now) && Coherent(st)
    ensures var w, w' := Run(env, st, ops).w, Run(env', st, ops).w;
            && w.hum == w'.hum && w.config == w'.config
            && SetSlice(Mode, w.meas, 0) == SetSlice(Mode, w'.meas, 0)
            && w.latched == w'.latched
  {
    var a := Abstraction(st);
    CoherentRefinesItself(st);
    RunRefines(env, st, a, ops);
    RunRefines(env', st, a, ops);
    SameSettingsSameRegisters(AbstractRun(a, ops), Run(env, st, ops), Run(env', st, ops));
  }

  lemma SameSettingsSameRegisters(a: Settings, st: State, st': State)
    requires Refines(st, a) && Refines(st', a)
    ensures st.w.hum == st'.w.hum && st.w.config == st'.w.config && st.w.latched == st'.w.latched
    ensures SetSlice(Mode, st.w.meas, 0) == SetSlice(Mode, st'.w.meas, 0)
  {
    assert IsControl(CTRL_HUM_REG) && IsControl(CTRL_MEAS_REG) && IsControl(CONFIG_REG);
    SameRegister(a, CTRL_HUM_REG, st.w.hum, st'.w.hum);
    SameRegister(a, CONFIG_REG, st.w.config, st'.w.config);
    SetSliceWithin(a, Mode, 0, st.w.meas);
    SetSliceWithin(a, Mode, 0, st'.w.meas);
    SameRegister(Assign(a, Mode, 0), CTRL_MEAS_REG, SetSlice(Mode, st.w.meas, 0), SetSlice(Mode, st'.w.meas, 0));
  }

  /** Settings determine a register, unless they leave the mode open. */
  lemma SameRegister(a: Settings, reg: int, r: bv8, r': bv8)
    requires IsControl(reg) && RegisterWithin(a, reg, r) && RegisterWithin(a, reg, r')
    requires reg == CTRL_MEAS_REG ==> a.of(Mode) == SLEEP_MODE
    ensures r == r'
  {
    forall f: Field | Home(f) == reg
      ensures GetSlice(f, r) == GetSlice(f, r')
    {
      assert Within(a, f, GetSlice(f, r)) && Within(a, f, GetSlice(f, r'));
    }
    FieldsDetermineRegister(reg, r, r');
  }

  // ----- from states that are not coherent -----

  /** Self-stabilisation.  From any shadow and any chip, one setter makes the shadow agree with the
      chip, sets its field, and lets no config write reach a chip that is awake.  The humidity
      latch comes out current exactly when the setter writes ctrl_meas, or finds the chip awake,
      or found the latch current. */
  lemma SetterStabilises(env: Env, st: State, f: Field, v: bv8)
    requires Reliable(env, st.w.now)
    ensures var st' := SetField(env, st, f, v);
            && ShadowAgrees(st')
            && st'.w.rogue == st.w.rogue
            && (f != Mode ==> FieldOf(st'.w, f) == Truncate(f, v))
            && (f == Mode ==> ModeAllowed(Truncate(f, v), FieldOf(st'.w, f)))
            && (LatchCurrent(st'.w) <==> (FoundAwake(env, st.w) || Home(f) != CONFIG_REG || LatchCurrent(st.w)))
  {
    hide Install, ReadBack, GetSlice, SetSlice, Truncate, ReadBackOutcome, ModeAllowed, WantedBytes, Cached, Settle;
    hide ShadowAgrees, LatchCurrent, FoundAwake;
    var b, d := WantedBytes(st.s, f, v), DirectWrites(f);
    var w1, s1 := Install(env, st.w, b, d), Cached(st.s, f, v);
    InstallTime(env, st.w, b, d);
    ReadBackEffect(env, w1, s1);
    InstallLatch(env, st.w, b, d);
    ReadBackKeeps(w1, s1, ReadBack(env, w1, s1));
    SetterReaches(env, st, f, v);
  }

  lemma SetterReaches(env: Env, st: State, f: Field, v: bv8)
    requires Reliable(env, st.w.now)
    ensures f != Mode ==> FieldOf(SetField(env, st, f, v).w, f) == Truncate(f, v)
    ensures f == Mode ==> ModeAllowed(Truncate(f, v), FieldOf(SetField(env, st, f, v).w, f))
  {
    hide Install, ReadBack, GetSlice, SetSlice, Truncate, ReadBackOutcome, ModeAllowed, WantedBytes, Cached, Settle;
    var b, d := WantedBytes(st.s, f, v), DirectWrites(f);
    var w1, s1 := Install(env, st.w, b, d), Cached(st.s, f, v);
    InstallTime(env, st.w, b, d);
    ReadBackEffect(env, w1, s1);
    InstallRegister(env, st.w, b, d, Home(f));
    FieldReached(f, v, st.s, w1, s1, ReadBack(env, w1, s1));
  }

  lemma ReadBackKeeps(w: World, s: Shadow, st: State)
    requires ReadBackOutcome(w, s, st)
    ensures ShadowAgrees(st) && st.w.rogue == w.rogue && (LatchCurrent(st.w) <==> LatchCurrent(w))
  {}

  /** A field that has been written survives the read-back, up to a forced mode that ends. */
  lemma FieldReached(f: Field, v: bv8, s: Shadow, w: World, s1: Shadow, st: State)
    requires Peek(w, Home(f)) == WantedByte(WantedBytes(s, f, v), Home(f))
    requires ReadBackOutcome(w, s1, st)
    ensures f != Mode ==> FieldOf(st.w, f) == Truncate(f, v)
    ensures f == Mode ==> ModeAllowed(Truncate(f, v), FieldOf(st.w, f))
  {
    hide GetSlice, SetSlice, Truncate, MeasAgree;
    SetSliceIsolated(f, f, ShadowByte(s, Home(f)), v);
    if Home(f) == CTRL_MEAS_REG {
      MeasAgreeFields(w.meas, st.w.meas);
    }
  }

  /** A forced reading from any shadow and any chip ends coherent, in forced mode or asleep. */
  lemma ForcedReadStabilises(env: Env, st: State)
    requires Reliable(env, st.w.now)
    ensures var st' := ForcedRead(env, st);
            && Coherent(st') && st'.w.rogue == st.w.rogue
            && ModeAllowed(FORCED_MODE, FieldOf(st'.w, Mode))
  {
    hide Install, ReadBackForced, Settle, MeasAgree;
    var b := WantedBytes(st.s, Mode, FORCED_MODE);
    var w1 := Started(env, st);
    var w2 := AfterRead(env, w1);
    var st' := ForcedRead(env, st);
    InstallEffect(env, st.w, b, HumThenMeas);
    InstallTime(env, st.w, b, HumThenMeas);
    ReadEffect(env, w1);
    ReadBackEffect(env, w2, st.s);
    MeasAgreeTransitive(w1.meas, w2.meas, st'.w.meas);
    SetSliceIsolated(Mode, Mode, st.s.meas, FORCED_MODE);
    MeasAgreeFields(b.meas, st'.w.meas);
  }

  /** The operations after which driver and chip are coherent, whatever came before. */
  predicate Resynchronises(op: Op) {
    op.ForcedReading? || (op.Set? && Home(op.f) != CONFIG_REG && !Rejected(op.f, op.v))
  }

  lemma StepFromAnywhere(env: Env, st: State, op: Op)
    requires Reliable(env, st.w.now)
    ensures Step(env, st, op).w.rogue == st.w.rogue
    ensures Resynchronises(op) || Coherent(st) ==> Coherent(Step(env, st, op))
  {
    match op
    case Set(f, v) => if !Rejected(f, v) { SetterStabilises(env, st, f, v); }
    case ForcedReading => ForcedReadStabilises(env, st);
    case Get(f) => ReadOnlyFromAnywhere(env, st, Cached(st.s, f, GetValue(env, st, f)));
    case Idle => ReadOnlyFromAnywhere(env, st, st.s);
  }

  lemma ReadOnlyFromAnywhere(env: Env, st: State, s: Shadow)
    requires Reliable(env, st.w.now)
    requires s == st.s.(osT := s.osT, osP := s.osP, osH := s.osH)
    ensures AfterRead(env, st.w).rogue == st.w.rogue
    ensures Coherent(st) ==> Coherent(State(AfterRead(env, st.w), s))
  {
    ReadEffect(env, st.w);
    if Coherent(st) {
      MeasAgreeTransitive(st.s.meas, st.w.meas, AfterRead(env, st.w).meas);
    }
  }

  /** Write-ordering safety, and stabilisation, over every run from every state: no config write ever
      reaches a chip that is awake, and one resynchronising operation anywhere in the run suffices
      for coherence at its end. */
  lemma {:induction false} RunFromAnywhere(env: Env, st: State, ops: seq<Op>)
    requires Reliable(env, st.w.now)
    ensures Run(env, st, ops).w.rogue == st.w.rogue
    ensures Coherent(st) || (exists i :: 0 <= i < |ops| && Resynchronises(ops[i])) ==> Coherent(Run(env, st, ops))
    decreases |ops|
  {
    if ops != [] {
      StepFromAnywhere(env, st, ops[0]);
      StepTime(env, st, ops[0]);
      RunFromAnywhere(env, Step(env, st, ops[0]), ops[1..]);
      if !Coherent(Step(env, st, ops[0])) && exists i :: 0 <= i < |ops| && Resynchronises(ops[i]) {
        var i :| 0 <= i < |ops| && Resynchronises(ops[i]);
        assert i > 0 && Resynchronises(ops[1..][i - 1]);
      }
    }
  }
}

/** The driver on a bus that fails: what its return codes count, and when a config write reaches an awake
    chip. */
module FailingBus {
  import opened Registers
  import opened Bus
  import opened Protocol
  import opened Runs

  /** How many of the transactions m, .., n - 1 fail. */
  function FailuresIn(env: Env, m: nat, n: nat): int {
    Failures(env, n) - Failures(env, m)
  }

  predicate FailsIn(env: Env, m: nat, n: nat) {
    exists k: nat :: m <= k < n && env(k).fails
  }

  lemma {:induction false} FailuresGrow(env: Env, m: nat, n: nat)
    requires m <= n
    ensures 0 <= FailuresIn(env, m, n) <= n - m
    ensures FailuresIn(env, m, n) > 0 <==> FailsIn(env, m, n)
    decreases n
  {
    if m < n {
      FailuresGrow(env, m, n - 1);
      if FailsIn(env, m, n) && !FailsIn(env, m, n - 1) {
        var k: nat :| m <= k < n && env(k).fails;
        assert k == n - 1;
      }
    }
  }

  // ----- return codes -----

  /** The return code of the setter of field f.  Three setters overwrite it before the closing reads;
      those of config write over the status of a mode query that says sleep. */
  function Code(env: Env, st: State, f: Field, v: bv8): int {
    SetFieldTime(env, st, f, v);
    var n, n' := st.w.now, SetField(env, st, f, v).w.now;
    match f
    case OsrsT | OsrsP | Mode => -FailuresIn(env, n' - 3, n')
    case OsrsH => -FailuresIn(env, n, n')
    case Tsb | Filter | Spi3 => -FailuresIn(env, if ReportedMode(env, st.w) == SLEEP_MODE then n + 1 else n, n')
  }

  /** Whether a failure of this setter goes uncounted. */
  predicate LosesFailure(env: Env, st: State, f: Field, v: bv8) {
    SetFieldTime(env, st, f, v);
    match f
    case OsrsT | OsrsP | Mode => FailsIn(env, st.w.now, SetField(env, st, f, v).w.now - 3)
    case OsrsH => false
    case Tsb | Filter | Spi3 => env(st.w.now).fails && ReportedMode(env, st.w) == SLEEP_MODE
  }

  /** A setter's return code is minus the number of its failed transactions exactly if no failure comes
      before the three closing reads (temperature, pressure, mode), or the mode query did not fail while
      it seemed to report sleep (config).  Humidity always counts them all. */
  lemma CodeCountsAll(env: Env, st: State, f: Field, v: bv8)
    ensures var n, n' := st.w.now, SetField(env, st, f, v).w.now;
            && n + 5 <= n' <= n + 8
            && -8 <= -FailuresIn(env, n, n') <= Code(env, st, f, v) <= 0
            && (Code(env, st, f, v) == -FailuresIn(env, n, n') <==> !LosesFailure(env, st, f, v))
  {
    hide SetField, ReportedMode, Failures, FailsIn;
    var n, n' := st.w.now, SetField(env, st, f, v).w.now;
    SetFieldTime(env, st, f, v);
    FailuresGrow(env, n, n');
    FailuresGrow(env, n, n' - 3);
    FailuresGrow(env, n' - 3, n');
    FailuresGrow(env, n + 1, n');
    NextFailure(env, n);
  }

  lemma NextFailure(env: Env, n: nat)
    ensures FailuresIn(env, n, n + 1) == if env(n).fails then 1 else 0
  {}

  // Inputs for which failures are lost.

  const NO_DATA: Frame := [0, 0, 0, 0, 0, 0, 0, 0]

  /** Nothing happens around any transaction, except that number n fails; a read then delivers 0. */
  function FailingAt(n: nat): Env {
    k => Tick(false, k == n, false, false, 0, i => 0, NO_DATA)
  }

  const BLANK: Shadow := Shadow(0, 0, 0, 0, 0, 0)

  /** The write of the temperature setting fails: the setting is not reached, and the code is 0. */
  lemma LostWrite()
    ensures var env, st := FailingAt(1), State(World(0, 0, 0, 0, 0, 0), BLANK);
            && Coherent(st)
            && SetField(env, st, OsrsT, 1).w == World(0, 0, 0, 0, 5, 0)
            && Code(env, st, OsrsT, 1) == 0 && FailuresIn(env, 0, 5) == 1
  {
    var env, st := FailingAt(1), State(World(0, 0, 0, 0, 0, 0), BLANK);
    assert ReportedMode(env, st.w) == SLEEP_MODE;
    assert SetField(env, st, OsrsT, 1).w == World(0, 0, 0, 0, 5, 0);
    FailuresGrow(env, 2, 5);
    assert Failures(env, 2) == 1 && Failures(env, 0) == 0;
  }

  /** The mode query fails on a chip in normal mode, and seems to say sleep: the filter setting is written
      to a chip that is awake, and ignored; the code is 0. */
  lemma LostQuery()
    ensures var env, st := FailingAt(0), State(World(0, 3, 0, 0, 0, 0), BLANK.(meas := 3));
            && Coherent(st)
            && SetField(env, st, Filter, 1).w == World(0, 3, 0, 0, 5, 1)
            && Code(env, st, Filter, 1) == 0 && FailuresIn(env, 0, 5) == 1
  {
    var env, st := FailingAt(0), State(World(0, 3, 0, 0, 0, 0), BLANK.(meas := 3));
    assert ReportedMode(env, st.w) == SLEEP_MODE;
    assert SetField(env, st, Filter, 1).w == World(0, 3, 0, 0, 5, 1);
    FailuresGrow(env, 1, 5);
    assert Failures(env, 1) == 1 && Failures(env, 0) == 0;
  }

  // ----- config writes to an awake chip -----

  /** A write arrives: it succeeds, or is only reported as failed. */
  predicate Arrives(t: Tick) {
    !t.fails || t.lands
  }

  /** A chip with this ctrl_meas is still awake at transaction n: no forced conversion has ended. */
  predicate AwakeAt(env: Env, meas: bv8, n: nat) {
    ModeOf(meas) != SLEEP_MODE && !(env(n).settles && IsForced(ModeOf(meas)))
  }

  /** An operation that finds chip w lets a config write through to it while it is awake. */
  predicate LetsThrough(env: Env, w: World, d: Direct) {
    var n := w.now;
    && AwakeAt(env, w.meas, n) && AwakeAt(env, w.meas, n + 1)
    && if ReportedMode(env, w) != SLEEP_MODE
       then !Arrives(env(n + 1)) && Arrives(env(n + 2)) && AwakeAt(env, w.meas, n + 2)
       else d == ConfigOnly && Arrives(env(n + 1))
  }

  lemma WriteRogue(env: Env, w: World, addr: int, v: bv8)
    ensures var w', awake := AfterWrite(env, w, addr, v), AwakeAt(env, w.meas, w.now);
            && w'.now == w.now + 1
            && w'.rogue == w.rogue + (if addr == CONFIG_REG && Arrives(env(w.now)) && awake then 1 else 0)
            && (!awake && addr != CTRL_MEAS_REG ==> Asleep(w'))
            && (addr == RST_REG && v == SOFT_RESET_CODE && Arrives(env(w.now)) ==> Asleep(w'))
            && (awake && !Arrives(env(w.now)) ==> w'.meas == w.meas)
  {
    SettleAwake(env, w);
    hide Settle, AwakeAt;
  }

  lemma SettleAwake(env: Env, w: World)
    ensures AwakeAt(env, w.meas, w.now) ==> Settle(env, w) == w && !Asleep(w)
    ensures !AwakeAt(env, w.meas, w.now) ==> Asleep(Settle(env, w)) && Settle(env, w) == w.(meas := Settle(env, w).meas)
  {}

  lemma QueryRogue(env: Env, w: World)
    ensures var w', awake := AfterRead(env, w), AwakeAt(env, w.meas, w.now);
            && w'.now == w.now + 1 && w'.rogue == w.rogue
            && (if awake then w'.meas == w.meas else Asleep(w'))
            && (!env(w.now).fails ==> (ReportedMode(env, w) != SLEEP_MODE <==> awake))
  {
    SettleAwake(env, w);
    hide Settle, AwakeAt;
  }

  /** On any bus: how many config writes of one operation reach the chip while it is awake. */
  lemma InstallRogue(env: Env, w: World, b: Bytes, d: Direct)
    ensures Install(env, w, b, d).rogue == w.rogue + if LetsThrough(env, w, d) then 1 else 0
  {
    hide AfterWrite, AfterRead, ReportedMode;
    var w1 := AfterRead(env, w);
    QueryRogue(env, w);
    if ReportedMode(env, w) != SLEEP_MODE {
      var w2 := AfterWrite(env, w1, RST_REG, SOFT_RESET_CODE);
      var w3 := AfterWrite(env, w2, CONFIG_REG, b.config);
      var w4 := AfterWrite(env, w3, CTRL_HUM_REG, b.hum);
      WriteRogue(env, w1, RST_REG, SOFT_RESET_CODE);
      WriteRogue(env, w2, CONFIG_REG, b.config);
      WriteRogue(env, w3, CTRL_HUM_REG, b.hum);
      WriteRogue(env, w4, CTRL_MEAS_REG, b.meas);
    } else {
      match d
      case MeasOnly => WriteRogue(env, w1, CTRL_MEAS_REG, b.meas);
      case ConfigOnly => WriteRogue(env, w1, CONFIG_REG, b.config);
      case HumThenMeas =>
        WriteRogue(env, w1, CTRL_HUM_REG, b.hum);
        WriteRogue(env, AfterWrite(env, w1, CTRL_HUM_REG, b.hum), CTRL_MEAS_REG, b.meas);
    }
  }

  /** The mode query fails, or the soft reset that follows it. */
  predicate GuardFails(env: Env, w: World) {
    env(w.now).fails || (ReportedMode(env, w) != SLEEP_MODE && env(w.now + 1).fails)
  }

  /** A failed mode query or soft reset is needed, whatever else fails. */
  lemma RogueNeedsFailedGuard(env: Env, w: World, b: Bytes, d: Direct)
    ensures Install(env, w, b, d).rogue != w.rogue ==> GuardFails(env, w)
  {
    InstallRogue(env, w, b, d);
    QueryRogue(env, w);
  }

  /** It is not enough: a soft reset that is reported as failed, but has arrived, lets nothing through. */
  lemma FailedGuardNotEnough()
    ensures var env: Env := k => Tick(false, k == 1, true, false, 0, i => 0, NO_DATA);
            var st := State(World(0, 3, 0, 0, 0, 0), BLANK.(meas := 3));
            && Coherent(st) && GuardFails(env, st.w)
            && forall f: Field, v: bv8 :: SetField(env, st, f, v).w.rogue == 0
  {
    var env: Env := k => Tick(false, k == 1, true, false, 0, i => 0, NO_DATA);
    var st := State(World(0, 3, 0, 0, 0, 0), BLANK.(meas := 3));
    assert ReportedMode(env, st.w) != SLEEP_MODE && Arrives(env(1));
    forall f: Field, v: bv8
      ensures SetField(env, st, f, v).w.rogue == 0
    {
      SetFieldRogue(env, st, f, v);
    }
  }

  /** The operation writes control registers. */
  predicate Configures(op: Op) {
    op.ForcedReading? || (op.Set? && !Rejected(op.f, op.v))
  }

  predicate OpLetsThrough(env: Env, w: World, op: Op) {
    Configures(op) && LetsThrough(env, w, if op.Set? then DirectWrites(op.f) else HumThenMeas)
  }

  lemma ReadRogue(env: Env, w: World)
    ensures AfterRead(env, w).rogue == w.rogue
  {}

  lemma ReadBackRogue(env: Env, w: World, s: Shadow)
    ensures ReadBack(env, w, s).w.rogue == ReadBackForced(env, w, s).w.rogue == w.rogue
  {
    hide AfterRead, ReadValue;
    ReadRogue(env, w);
    ReadRogue(env, AfterRead(env, w));
    ReadRogue(env, AfterRead(env, AfterRead(env, w)));
  }

  lemma SetFieldRogue(env: Env, st: State, f: Field, v: bv8)
    ensures SetField(env, st, f, v).w.rogue == st.w.rogue + if LetsThrough(env, st.w, DirectWrites(f)) then 1 else 0
  {
    hide Install, LetsThrough, WantedBytes, Cached, ReadBack;
    var b, d := WantedBytes(st.s, f, v), DirectWrites(f);
    InstallRogue(env, st.w, b, d);
    ReadBackRogue(env, Install(env, st.w, b, d), Cached(st.s, f, v));
  }

  lemma StepRogue(env: Env, st: State, op: Op)
    ensures Step(env, st, op).w.rogue == st.w.rogue + if OpLetsThrough(env, st.w, op) then 1 else 0
  {
    hide SetField, Install, LetsThrough, WantedBytes, Cached, ReadValue, AfterRead, ReadBackForced;
    match op
    case Set(f, v) => SetFieldRogue(env, st, f, v);
    case ForcedReading =>
      InstallRogue(env, st.w, WantedBytes(st.s, Mode, FORCED_MODE), HumThenMeas);
      ReadRogue(env, Started(env, st));
      ReadBackRogue(env, AfterRead(env, Started(env, st)), st.s);
    case _ => ReadRogue(env, st.w);
  }

  lemma {:induction false} RunSnoc(env: Env, st: State, ops: seq<Op>, op: Op)
    ensures Run(env, st, ops + [op]) == Step(env, Run(env, st, ops), op)
    decreases |ops|
  {
    hide Step;
    if ops == [] {
      assert [op][1..] == [];
    } else {
      assert (ops + [op])[1..] == ops[1..] + [op];
      RunSnoc(env, Step(env, st, ops[0]), ops[1..], op);
    }
  }

  /** Operation i of the run lets a config write through. */
  predicate LetsThroughAt(env: Env, st: State, ops: seq<Op>, i: nat)
    requires i < |ops|
  {
    OpLetsThrough(env, Run(env, st, ops[..i]).w, ops[i])
  }

  /** How many of the first n operations of a run do so. */
  function Through(env: Env, st: State, ops: seq<Op>, n: nat): nat
    requires n <= |ops|
  {
    if n == 0 then 0 else Through(env, st, ops, n - 1) + if LetsThroughAt(env, st, ops, n - 1) then 1 else 0
  }

  /** Write-ordering on any bus, over every run: the config writes that reached an awake chip are counted by
      the operations that let one through. */
  lemma {:induction false} RunRogue(env: Env, st: State, ops: seq<Op>, n: nat)
    requires n <= |ops|
    ensures Run(env, st, ops[..n]).w.rogue == st.w.rogue + Through(env, st, ops, n)
    decreases n
  {
    hide Step, OpLetsThrough;
    if n > 0 {
      RunRogue(env, st, ops, n - 1);
      assert ops[..n] == ops[..n - 1] + [ops[n - 1]];
      RunSnoc(env, st, ops[..n - 1], ops[n - 1]);
      StepRogue(env, Run(env, st, ops[..n - 1]), ops[n - 1]);
    }
  }

  /** In particular, a run is safe if and only if none of its operations lets a config write through; and one
      that does has a failed mode query or a failed soft reset. */
  lemma RunSafe(env: Env, st: State, ops: seq<Op>)
    ensures Run(env, st, ops).w.rogue == st.w.rogue <==> forall i :: 0 <= i < |ops| ==> !LetsThroughAt(env, st, ops, i)
    ensures forall i :: 0 <= i < |ops| && LetsThroughAt(env, st, ops, i) ==>
              GuardFails(env, Run(env, st, ops[..i]).w)
  {
    hide Step, Run, OpLetsThrough, GuardFails;
    assert ops[..|ops|] == ops;
    RunRogue(env, st, ops, |ops|);
    ThroughIsZero(env, st, ops, |ops|);
    forall i | 0 <= i < |ops| && LetsThroughAt(env, st, ops, i)
      ensures GuardFails(env, Run(env, st, ops[..i]).w)
    {
      LettingThroughNeedsFailure(env, Run(env, st, ops[..i]).w, ops[i]);
    }
  }

  lemma LettingThroughNeedsFailure(env: Env, w: World, op: Op)
    requires OpLetsThrough(env, w, op)
    ensures GuardFails(env, w)
  {
    QueryRogue(env, w);
  }

  lemma {:induction false} ThroughIsZero(env: Env, st: State, ops: seq<Op>, n: nat)
    requires n <= |ops|
    ensures Through(env, st, ops, n) == 0 <==> forall i :: 0 <= i < n ==> !LetsThroughAt(env, st, ops, i)
    decreases n
  {
    hide LetsThroughAt;
    if n > 0 {
      ThroughIsZero(env, st, ops, n - 1);
    }
  }

  /** The soft reset fails on a chip in normal mode: the filter setting is written to it while it is awake,
      and ignored.  Here the code tells. */
  lemma LostReset()
    ensures var env, st := FailingAt(1), State(World(0, 3, 0, 0, 0, 0), BLANK.(meas := 3));
            && Coherent(st)
            && SetField(env, st, Filter, 1).w == World(0, 3, 0, 0, 8, 1)
            && Code(env, st, Filter, 1) == -1
  {
    var env, st := FailingAt(1), State(World(0, 3, 0, 0, 0, 0), BLANK.(meas := 3));
    assert ReportedMode(env, st.w) == NORMAL_MODE;
    var w1 := Install(env, st.w, WantedBytes(st.s, Filter, 1), ConfigOnly);
    assert w1 == World(0, 3, 0, 0, 5, 1);
    QuietReadBack(w1, Cached(st.s, Filter, 1));
    FailuresGrow(env, 2, 8);
    assert Failures(env, 2) == 1 && Failures(env, 0) == 0;
  }

  lemma QuietReadBack(w: World, s: Shadow)
    requires w == World(0, 3, 0, 0, 5, 1)
    ensures ReadBack(FailingAt(1), w, s).w == World(0, 3, 0, 0, 8, 1)
  {}
}

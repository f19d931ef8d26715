/** What a failed transfer leaves behind, and how the driver recovers once the bus works again. */
module Recovery {
  import opened Registers
  import opened Bus
  import opened Protocol
  import opened Runs
  import opened Refinement
  import opened WaitTime
  import opened FailingBus

  /** After any run on a bus that fails as it likes: once it works again, one resynchronising operation
      makes driver and chip coherent, and from then on every field but the mode holds the last value asked. */
  lemma RecoversAfterFailures(env: Env, st: State, before: seq<Op>, op: Op, after: seq<Op>, f: Field)
    requires Resynchronises(op) && Reliable(env, Run(env, st, before).w.now) && f != Mode
    ensures var st1 := Step(env, Run(env, st, before), op);
            var st2 := Run(env, st1, after);
            && Coherent(st1) && Coherent(st2)
            && FieldOf(st2.w, f) == LastAsked(after, f, FieldOf(st1.w, f))
            && GetValue(env, st2, f) == FieldOf(st2.w, f)
  {
    hide Step, Run, Coherent, FieldOf, GetValue, LastAsked;
    var st0 := Run(env, st, before);
    var st1 := Step(env, st0, op);
    StepFromAnywhere(env, st0, op);
    StepTime(env, st0, op);
    RunKeepsLastAsked(env, st1, after, f);
  }

  /** The driver's raw copy of an oversampling value, from which it computes the delay. */
  function RawCopy(s: Shadow, f: Field): bv8
    requires IsOversampling(f)
  {
    match f
    case OsrsT => s.osT
    case OsrsP => s.osP
    case _ => s.osH
  }

  predicate CopyAgrees(st: State, f: Field)
    requires IsOversampling(f)
  {
    RawCopy(st.s, f) == FieldOf(st.w, f)
  }

  /** The operations that bring the raw copy of f up to date: setting and getting f. */
  predicate Refreshes(op: Op, f: Field) {
    (op.Set? || op.Get?) && op.f == f
  }

  /** What one operation does to the chip's field, */
  lemma StepField(env: Env, st: State, op: Op, f: Field)
    requires Coherent(st) && Reliable(env, st.w.now) && f != Mode
    ensures FieldOf(Step(env, st, op).w, f) == if Touches(op, f) then Asked(op, f) else FieldOf(st.w, f)
    ensures GetValue(env, st, f) == FieldOf(st.w, f)
  {
    hide FieldOf, GetValue, Step, Coherent, Touches, Asked;
    RunOfOne(env, st, op);
    RunKeepsLastAsked(env, st, [op], f);
    RunKeepsLastAsked(env, st, [], f);
    LastOfOne(op, f, FieldOf(st.w, f));
  }

  /** and what to the copy. */
  lemma StepRawCopy(env: Env, st: State, op: Op, f: Field)
    requires IsOversampling(f)
    ensures RawCopy(Step(env, st, op).s, f) ==
              if op.Set? && op.f == f then op.v
              else if op.Get? && op.f == f then GetValue(env, st, f)
              else RawCopy(st.s, f)
  {
    hide GetValue, SetField, ForcedRead;
    match op
    case Set(g, v) => SetFieldCache(env, st, g, v);
    case Get(g) =>
    case ForcedReading => ForcedReadCopies(env, st);
    case Idle =>
  }

  lemma StepCopy(env: Env, st: State, op: Op, f: Field)
    requires Coherent(st) && Reliable(env, st.w.now) && IsOversampling(f) && InWidth([op])
    ensures CopyAgrees(Step(env, st, op), f) <==> CopyAgrees(st, f) || Refreshes(op, f)
  {
    hide FieldOf, GetValue, Step, RawCopy, Coherent;
    StepField(env, st, op, f);
    StepRawCopy(env, st, op, f);
    assert [op][0] == op;
    if op.Set? && op.f == f {
      TruncateInWidth(f, op.v);
    }
  }

  lemma RunOfOne(env: Env, st: State, op: Op)
    ensures Run(env, st, [op]) == Step(env, st, op)
  {
    hide Step;
    assert [op][1..] == [];
  }

  lemma LastOfOne(op: Op, f: Field, start: bv8)
    ensures LastAsked([op], f, start) == if Touches(op, f) then Asked(op, f) else start
    ensures LastAsked([], f, start) == start
  {
    assert [op][..0] == [];
  }

  lemma ForcedReadCopies(env: Env, st: State)
    ensures var s := ForcedRead(env, st).s; s.osT == st.s.osT && s.osP == st.s.osP && s.osH == st.s.osH
  {
    hide Started, AfterRead;
  }

  predicate SomeRefreshes(ops: seq<Op>, f: Field) {
    exists i :: 0 <= i < |ops| && Refreshes(ops[i], f)
  }

  lemma RefreshesFirstOrRest(ops: seq<Op>, f: Field)
    requires ops != []
    ensures SomeRefreshes(ops, f) <==> Refreshes(ops[0], f) || SomeRefreshes(ops[1..], f)
  {
    if SomeRefreshes(ops[1..], f) {
      var i :| 0 <= i < |ops[1..]| && Refreshes(ops[1..][i], f);
      assert Refreshes(ops[i + 1], f);
    }
    if SomeRefreshes(ops, f) && !Refreshes(ops[0], f) {
      var i :| 0 <= i < |ops| && Refreshes(ops[i], f);
      assert Refreshes(ops[1..][i - 1], f);
    }
  }

  /** Coherence does not cover the raw copies.  From a coherent state, after any run on a working bus, the
      copy of f agrees with the chip if and only if it did before, or some operation sets or gets f. */
  lemma {:induction false} CopyRecovers(env: Env, st: State, ops: seq<Op>, f: Field)
    requires Coherent(st) && Reliable(env, st.w.now) && IsOversampling(f) && InWidth(ops)
    ensures CopyAgrees(Run(env, st, ops), f) <==> CopyAgrees(st, f) || SomeRefreshes(ops, f)
    decreases |ops|
  {
    hide CopyAgrees, Coherent, Step, SomeRefreshes;
    if ops != [] {
      var st1 := Step(env, st, ops[0]);
      assert InWidth([ops[0]]);
      assert forall i :: 0 <= i < |ops[1..]| ==> ops[1..][i] == ops[i + 1];
      StepCopy(env, st, ops[0], f);
      StepFromAnywhere(env, st, ops[0]);
      StepTime(env, st, ops[0]);
      CopyRecovers(env, st1, ops[1..], f);
      RefreshesFirstOrRest(ops, f);
    } else {
      assert !SomeRefreshes([], f) by { NoneRefreshes(f); }
    }
  }

  lemma NoneRefreshes(f: Field)
    ensures !SomeRefreshes([], f)
  {}

  /** Where all three copies agree with a coherent chip, whose oversamplings are at most 5, the delay is again
      the exact ceiling of the conversion time. */
  lemma DelayRecovers(env: Env, st: State)
    requires Coherent(st) && Reliable(env, st.w.now)
    requires CopyAgrees(st, OsrsT) && CopyAgrees(st, OsrsP) && CopyAgrees(st, OsrsH)
    requires st.s.osT <= 5 && st.s.osP <= 5 && st.s.osH <= 5
    ensures IsCeiling(DelayFrom(st.s), StartedTime(env, st))
  {
    var a := Abstraction(st);
    CoherentRefinesItself(st);
    MeasAgreeFields(st.s.meas, st.w.meas);
    ForcedDelayIsExact(env, st, a, []);
  }

  /** The write of a temperature setting fails: all is coherent and the code is 0, but the raw copy is 1 while
      the chip samples 16 times.  The delay is 4 ms, for a conversion of up to 38.25. */
  lemma StaleCopy()
    ensures var env, st := FailingAt(1), State(World(0, 0xA0, 0, 0, 0, 0), BLANK.(meas := 0xA0, osT := 5));
            && Coherent(st) && CopyAgrees(st, OsrsT)
            && StaleCopyOutcome(env, SetField(env, st, OsrsT, 1)) && Code(env, st, OsrsT, 1) == 0
  {
    var env, st := FailingAt(1), State(World(0, 0xA0, 0, 0, 0, 0), BLANK.(meas := 0xA0, osT := 5));
    assert Asleep(st.w);
    var st1 := SetField(env, st, OsrsT, 1);
    assert st1 == State(World(0, 0xA0, 0, 0, 5, 0), BLANK.(meas := 0xA0, osT := 1));
    FailuresGrow(env, 2, 5);
    StaleDelay(env, st1);
  }

  predicate StaleCopyOutcome(env: Env, st: State) {
    Coherent(st) && st.s.osT == 1 && FieldOf(st.w, OsrsT) == 5 && DelayFrom(st.s) == 4 && StartedTime(env, st) == 612
  }

  lemma StaleDelay(env: Env, st: State)
    requires env == FailingAt(1) && st == State(World(0, 0xA0, 0, 0, 5, 0), BLANK.(meas := 0xA0, osT := 1))
    ensures StaleCopyOutcome(env, st)
  {
    Powers();
    StartedSettings(env, st, Abstraction(st)) by { CoherentRefinesItself(st); }
    assert Samples(5) == 16;
  }

  /** The write of ctrl_meas in a humidity setter fails.  Shadow and chip agree, and a getter reports the
      new setting, but it is not in effect; nor does a setter of config put it in effect. */
  lemma StaleLatch()
    ensures var env, st := FailingAt(2), State(World(0, 0, 0, 0, 0, 0), BLANK);
            var st1 := SetField(env, st, OsrsH, 1);
            var st2 := SetField(env, st1, Tsb, 0);
            && Coherent(st)
            && ShadowAgrees(st1) && st1.w == World(1, 0, 0, 0, 6, 0) && Reliable(env, st1.w.now)
            && ShadowAgrees(st2) && st2.w == World(1, 0, 0, 0, 11, 0)
            && GetValue(env, st2, OsrsH) == 1 && !LatchCurrent(st2.w)
  {
    var env, st := FailingAt(2), State(World(0, 0, 0, 0, 0, 0), BLANK);
    var st1 := SetField(env, st, OsrsH, 1);
    assert ReportedMode(env, st.w) == SLEEP_MODE;
    assert st1 == State(World(1, 0, 0, 0, 6, 0), Shadow(1, 0, 0, 0, 0, 1));
    StaleLatchStays(env, st1);
  }

  lemma StaleLatchStays(env: Env, st: State)
    requires env == FailingAt(2) && st == State(World(1, 0, 0, 0, 6, 0), Shadow(1, 0, 0, 0, 0, 1))
    ensures var st2 := SetField(env, st, Tsb, 0);
            ShadowAgrees(st2) && st2.w == World(1, 0, 0, 0, 11, 0) && GetValue(env, st2, OsrsH) == 1
  {
    assert ReportedMode(env, st.w) == SLEEP_MODE;
    assert SetField(env, st, Tsb, 0) == State(World(1, 0, 0, 0, 11, 0), Shadow(1, 0, 0, 0, 0, 1));
  }
}

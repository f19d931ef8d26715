/** Driver operations and whole runs of them, with the chip free to end a forced conversion at any
    moment: before each transaction, and at an `Idle` moment between calls. */
module Runs {
  import opened Registers
  import opened Bus
  import opened Protocol

  /** One call into the driver, or a moment in which only time passes. */
  datatype Op = Set(f: Field, v: bv8) | Get(f: Field) | ForcedReading | Idle

  /** The power-mode setter is the only one that checks its argument. */
  predicate Rejected(f: Field, v: bv8) {
    f == Mode && v > NORMAL_MODE
  }

  function GetValue(env: Env, st: State, f: Field): bv8 {
    GetSlice(f, ReadValue(env, st.w, Home(f)))
  }

  /** The three oversampling getters also refresh the raw copy. */
  function GetField(env: Env, st: State, f: Field): State {
    State(AfterRead(env, st.w), Cached(st.s, f, GetValue(env, st, f)))
  }

  function Step(env: Env, st: State, op: Op): State {
    match op
    case Set(f, v) => if Rejected(f, v) then st else SetField(env, st, f, v)
    case Get(f) => GetField(env, st, f)
    case ForcedReading => ForcedRead(env, st)
    case Idle => State(AfterRead(env, st.w), st.s)
  }

  function Run(env: Env, st: State, ops: seq<Op>): State
    decreases |ops|
  {
    if ops == [] then st else Run(env, Step(env, st, ops[0]), ops[1..])
  }

  lemma StepTime(env: Env, st: State, op: Op)
    ensures Step(env, st, op).w.now >= st.w.now
  {
    hide SetField, ForcedRead, Settle;
    match op
    case Set(f, v) => SetFieldTime(env, st, f, v);
    case ForcedReading => ForcedReadTime(env, st);
    case _ =>
  }

  lemma {:induction false} RunTime(env: Env, st: State, ops: seq<Op>)
    ensures Run(env, st, ops).w.now >= st.w.now
    decreases |ops|
  {
    if ops != [] {
      hide Step;
      StepTime(env, st, ops[0]);
      RunTime(env, Step(env, st, ops[0]), ops[1..]);
    }
  }

  function FieldOf(w: World, f: Field): bv8 {
    GetSlice(f, Peek(w, Home(f)))
  }

  /** A mode other than the one requested is possible only for a forced mode that has ended. */
  predicate ModeAllowed(requested: bv8, actual: bv8) {
    actual == requested || (IsForced(requested) && actual == SLEEP_MODE)
  }
}

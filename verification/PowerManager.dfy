/** The power manager's state machine: modem power in, device state and CMUX-ready flag out. */
module PowerManager {
  import opened Historical

  datatype PowerState = UNDEFINED | DISABLED_POWERED | ENABLED | DISABLED_UNPOWERED

  datatype DeviceState = UNKNOWN | MODEM_READY | MODEM_CMUX | MODEM_OFF | MODEM_FAILED

  datatype Event = ASYNC_TURN_ON | ASYNC_TURN_OFF | NO_EVENT | UNDEFINED_EVENT

  predicate Disabled(p: PowerState) {
    p == DISABLED_POWERED || p == DISABLED_UNPOWERED
  }

  // ----- on values -----

  datatype Manager = Manager(device: History<DeviceState>, power: History<PowerState>, cmuxReady: bool)

  /** Before `determineInitialConditions`, with fresh shared memory. */
  const FRESH: Manager := Manager(History(UNKNOWN, UNKNOWN), History(UNDEFINED, UNDEFINED), false)

  function Initialised(m: Manager, p: PowerState): Manager {
    var m' := m.(power := m.power.Next(p));
    match p
    case ENABLED => m'.(device := m.device.Next(MODEM_READY))
    case DISABLED_POWERED | DISABLED_UNPOWERED => m'.(device := m.device.Next(MODEM_OFF))
    case UNDEFINED => m'
  }

  /** The event as the device state and the stored power state call for it, if no guard intervenes. */
  function Called(d: DeviceState, p: PowerState): Event {
    match d
    case MODEM_OFF => if p == ENABLED then ASYNC_TURN_ON else NO_EVENT
    case MODEM_READY | MODEM_CMUX => if Disabled(p) then ASYNC_TURN_OFF else NO_EVENT
    case UNKNOWN | MODEM_FAILED => UNDEFINED_EVENT
  }

  function Computed(m: Manager): Event {
    if !m.device.Changed() then NO_EVENT else Called(m.device.now, m.power.now)
  }

  /** `muxOn` says whether the multiplexer could be turned on. */
  function Processed(m: Manager, ev: Event, muxOn: bool): Manager {
    match ev
    case ASYNC_TURN_OFF => m.(cmuxReady := false, device := m.device.Next(MODEM_OFF))
    case ASYNC_TURN_ON =>
      if muxOn then m.(cmuxReady := true, device := m.device.Next(MODEM_CMUX))
      else m.(device := m.device.Next(MODEM_FAILED))
    case NO_EVENT | UNDEFINED_EVENT => m
  }

  /** What can happen: the power state is reported, or the manager's thread wakes up. */
  datatype Action = Report(p: PowerState) | Wake(muxOn: bool)

  function Act(m: Manager, a: Action): Manager {
    match a
    case Report(p) => m.(power := m.power.Next(p))
    case Wake(muxOn) => Processed(m, Computed(m), muxOn)
  }

  function Run(m: Manager, actions: seq<Action>): Manager
    decreases |actions|
  {
    if actions == [] then m else Run(Act(m, actions[0]), actions[1..])
  }

  /** What every run from a defined power state keeps: the change guard is always open, and the
      CMUX-ready flag is set exactly in MODEM_CMUX. */
  predicate Inv(m: Manager) {
    && m.device.Changed()
    && m.device.now != UNKNOWN
    && (m.cmuxReady <==> m.device.now == MODEM_CMUX)
  }

  lemma {:induction false} RunKeepsInv(m: Manager, actions: seq<Action>)
    requires Inv(m)
    ensures Inv(Run(m, actions))
    decreases |actions|
  {
    if actions != [] {
      assert Inv(Act(m, actions[0]));
      RunKeepsInv(Act(m, actions[0]), actions[1..]);
    }
  }

  lemma {:induction false} StuckRun(m: Manager, actions: seq<Action>)
    requires m.device == History(UNKNOWN, UNKNOWN)
    ensures Run(m, actions).device == m.device && Run(m, actions).cmuxReady == m.cmuxReady
    decreases |actions|
  {
    if actions != [] {
      StuckRun(Act(m, actions[0]), actions[1..]);
    }
  }

  /** The no-change guard masks no event, in any run, exactly when the power state was defined at
      initialisation; otherwise the manager never reacts to anything. */
  lemma GuardNeverMasks(p: PowerState, actions: seq<Action>)
    ensures var m := Run(Initialised(FRESH, p), actions);
            && (p != UNDEFINED ==> Inv(m) && Computed(m) == Called(m.device.now, m.power.now))
            && (p == UNDEFINED ==> m.device.now == UNKNOWN && !m.cmuxReady && Computed(m) == NO_EVENT)
  {
    if p != UNDEFINED {
      RunKeepsInv(Initialised(FRESH, p), actions);
    } else {
      StuckRun(Initialised(FRESH, p), actions);
    }
  }

  lemma {:induction false} FailedIsAbsorbing(m: Manager, actions: seq<Action>)
    requires m.device.now == MODEM_FAILED
    ensures Run(m, actions).device == m.device && Run(m, actions).cmuxReady == m.cmuxReady
    decreases |actions|
  {
    if actions != [] {
      FailedIsAbsorbing(Act(m, actions[0]), actions[1..]);
    }
  }

  function Reports(ps: seq<PowerState>): seq<Action> {
    seq(|ps|, i requires 0 <= i < |ps| => Report(ps[i]))
  }

  lemma {:induction false} BurstOnlyReports(m: Manager, ps: seq<PowerState>)
    requires ps != []
    ensures var m' := Run(m, Reports(ps));
            m'.device == m.device && m'.cmuxReady == m.cmuxReady && m'.power.now == ps[|ps| - 1]
    decreases |ps|
  {
    var m1 := Act(m, Report(ps[0]));
    assert Reports(ps)[1..] == Reports(ps[1..]);
    if |ps| > 1 {
      BurstOnlyReports(m1, ps[1..]);
    } else {
      assert Reports(ps)[1..] == [];
    }
  }

  /** A burst of power reports coalesced into one wake-up counts for its last report only.  Ending
      disabled it leaves the modem off; ending enabled it turns the multiplexer on from MODEM_OFF,
      and leaves MODEM_READY and MODEM_CMUX as they are, even if power was lost in between. */
  lemma BurstCoalesces(m: Manager, ps: seq<PowerState>, muxOn: bool)
    requires Inv(m) && m.device.now != MODEM_FAILED && ps != []
    ensures var last, m' := ps[|ps| - 1], Act(Run(m, Reports(ps)), Wake(muxOn));
            && (Disabled(last) ==> m'.device.now == MODEM_OFF && !m'.cmuxReady)
            && (last == ENABLED ==>
                  m'.device.now == (if m.device.now != MODEM_OFF then m.device.now
                                    else if muxOn then MODEM_CMUX else MODEM_FAILED))
            && (last == UNDEFINED ==> m'.device.now == m.device.now && m'.cmuxReady == m.cmuxReady)
  {
    BurstOnlyReports(m, ps);
  }

  /** From boot: the device state with which the manager starts, and where a first burst of reports and one
      wake-up take it.  With power from the start the multiplexer is not turned on. */
  lemma BootsExactly(p: PowerState, ps: seq<PowerState>, muxOn: bool)
    requires p != UNDEFINED && ps != []
    ensures var m := Initialised(FRESH, p);
            var m' := Act(Run(m, Reports(ps)), Wake(muxOn));
            && m.device.now == (if p == ENABLED then MODEM_READY else MODEM_OFF) && m.power.now == p && !m.cmuxReady
            && (Disabled(ps[|ps| - 1]) ==> m'.device.now == MODEM_OFF && !m'.cmuxReady)
            && (ps[|ps| - 1] == ENABLED ==>
                  && m'.device.now == (if p == ENABLED then MODEM_READY
                                       else if muxOn then MODEM_CMUX else MODEM_FAILED)
                  && (m'.cmuxReady <==> p != ENABLED && muxOn))
  {
    BurstCoalesces(Initialised(FRESH, p), ps, muxOn);
    RunKeepsInv(Initialised(FRESH, p), Reports(ps));
  }

  // ----- the object -----

  class SharedFlags {
    var cmuxReady: bool

    constructor ()
      ensures !cmuxReady
    {
      cmuxReady := false;
    }
  }

  class PowerManager {
    const shared: SharedFlags
    const itsDeviceState: HistoricalValue<DeviceState>
    const storedPowerState: HistoricalValue<PowerState>

    ghost predicate Valid() {
      itsDeviceState.Valid() && storedPowerState.Valid()
    }

    ghost function View(): Manager
      requires Valid()
      reads shared, itsDeviceState.values, storedPowerState.values
    {
      Manager(itsDeviceState.Contents(), storedPowerState.Contents(), shared.cmuxReady)
    }

    constructor (shared: SharedFlags)
      ensures Valid() && this.shared == shared && fresh(itsDeviceState.values) && fresh(storedPowerState.values)
      ensures View() == FRESH.(cmuxReady := shared.cmuxReady)
    {
      this.shared := shared;
      itsDeviceState := new HistoricalValue(UNKNOWN);
      storedPowerState := new HistoricalValue(UNDEFINED);
    }

    method DetermineInitialConditions(powerState: PowerState)
      requires Valid()
      modifies itsDeviceState.values, storedPowerState.values
      ensures View() == Initialised(old(View()), powerState)
      ensures powerState == ENABLED ==> itsDeviceState.Contents().now == MODEM_READY
      ensures Disabled(powerState) ==> itsDeviceState.Contents().now == MODEM_OFF
    {
      storedPowerState.Set(powerState);
      match storedPowerState.Contents().now
      case ENABLED => itsDeviceState.Set(MODEM_READY);
      case DISABLED_POWERED | DISABLED_UNPOWERED => itsDeviceState.Set(MODEM_OFF);
      case UNDEFINED =>
    }

    /** Stores the reported power state; says whether the waiting thread is notified. */
    method OnPowerIndChange(powerState: PowerState) returns (notify: bool)
      requires Valid()
      modifies storedPowerState.values
      ensures View() == Act(old(View()), Report(powerState))
      ensures notify == (powerState != old(storedPowerState.Contents().now))
    {
      storedPowerState.Set(powerState);
      notify := storedPowerState.HasChanged();
    }

    method ComputeEvent() returns (ev: Event)
      requires Valid()
      ensures ev == Computed(View())
    {
      var changed := itsDeviceState.HasChanged();
      if !changed {
        return NO_EVENT;
      }
      ev := UNDEFINED_EVENT;
      match itsDeviceState.Contents().now
      case MODEM_OFF =>
        var enabled := storedPowerState.Is(ENABLED);
        ev := if enabled then ASYNC_TURN_ON else NO_EVENT;
      case MODEM_READY | MODEM_CMUX =>
        var powered := storedPowerState.Is(DISABLED_POWERED);
        var unpowered := storedPowerState.Is(DISABLED_UNPOWERED);
        ev := if powered || unpowered then ASYNC_TURN_OFF else NO_EVENT;
      case UNKNOWN | MODEM_FAILED =>
    }

    method ProcessIncomingEvent(ev: Event, muxOn: bool)
      requires Valid()
      modifies shared, itsDeviceState.values
      ensures View() == Processed(old(View()), ev, muxOn)
    {
      match ev
      case ASYNC_TURN_OFF =>
        shared.cmuxReady := false;
        itsDeviceState.Set(MODEM_OFF);
      case ASYNC_TURN_ON =>
        if muxOn {
          shared.cmuxReady := true;
          itsDeviceState.Set(MODEM_CMUX);
        } else {
          itsDeviceState.Set(MODEM_FAILED);
        }
      case NO_EVENT | UNDEFINED_EVENT =>
    }

    /** One turn of the main loop, after a wake-up for whatever reason. */
    method WakeUp(muxOn: bool)
      requires Valid()
      modifies shared, itsDeviceState.values
      ensures View() == Act(old(View()), Wake(muxOn))
    {
      var ev := ComputeEvent();
      ProcessIncomingEvent(ev, muxOn);
    }
  }
}

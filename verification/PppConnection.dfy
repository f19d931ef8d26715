/** The PPP link: its state machine, the CMUX monitor that drives it, and what its listeners learn. */
module PppConnection {
  import opened Historical
  import opened MqttProtocol
  import opened PowerManager

  datatype PppState = NoConnection | Connected | DeviceUnavailable | ConnectionLost

  datatype LinkEvent = ConnectRequest | DisconnectRequest | DeviceLost | DeviceRestored

  // ----- on values -----

  /** The link, the network-ready flag of a registered listener, the shared CMUX-ready flag, the two CMUX
      readings the monitor remembers, and whether the monitor is on. */
  datatype Link = Link(ppp: PppState, ready: bool, cmux: bool, seen: History<bool>, monitor: bool)

  function Notify(l: Link, ppp: PppState, status: NetworkStatus): Link {
    l.(ppp := ppp, ready := status.CONNECTED?)
  }

  /** `open` says whether the PPP daemon could be started, if it is tried. */
  function AfterEvent(l: Link, ev: LinkEvent, open: bool): Link {
    match ev
    case ConnectRequest => if l.ppp != NoConnection then l else Opened(l, open)
    case DisconnectRequest =>
      if l.ppp == Connected || l.ppp == ConnectionLost
      then Notify(l.(monitor := false), NoConnection, DISCONNECTED)
      else l
    case DeviceLost => Notify(l, ConnectionLost, DEVICE_UNAVAILABLE)
    case DeviceRestored => Opened(l, open)
  }

  function Opened(l: Link, open: bool): Link {
    if open then Notify(l.(monitor := true), Connected, CONNECTED) else Notify(l, NoConnection, CONNECTION_ERROR)
  }

  function AfterConnect(l: Link, open: bool): Link {
    if !l.cmux then AfterEvent(l, DeviceLost, open)
    else if l.ppp == Connected then l
    else AfterEvent(l, ConnectRequest, open)
  }

  function ConnectStatus(l: Link, open: bool): NetworkStatus {
    if !l.cmux then DEVICE_UNAVAILABLE
    else if AfterConnect(l, open).ppp == Connected then CONNECTED
    else CONNECTION_ERROR
  }

  /** The status does not depend on the listener. */
  lemma ConnectStatusForAll(l: Link, open: bool)
    ensures ConnectStatus(l, open) == ConnectStatus(l.(ready := false), open)
  {}

  function AfterDisconnect(l: Link): Link {
    if !l.cmux then AfterEvent(l, DeviceLost, false)
    else if l.ppp == NoConnection then l
    else AfterEvent(l, DisconnectRequest, false)
  }

  function DisconnectStatus(l: Link): NetworkStatus {
    if !l.cmux || l.ppp == NoConnection then DISCONNECTED
    else if AfterDisconnect(l).ppp == Connected then DISCONNECTED
    else CONNECTION_ERROR
  }

  /** One turn of the monitor thread.  It polls whether or not the monitor is on: a monitor that is off
      only waits longer. */
  function AfterPoll(l: Link, open: bool): Link {
    var l' := l.(seen := l.seen.Next(l.cmux));
    if !l'.seen.Changed() then l'
    else AfterEvent(l', if l.cmux then DeviceRestored else DeviceLost, open)
  }

  function StatusOf(p: PppState): NetworkStatus {
    match p
    case Connected => CONNECTED
    case NoConnection => DISCONNECTED
    case DeviceUnavailable | ConnectionLost => DEVICE_UNAVAILABLE
  }

  datatype LinkStep = SetCmux(on: bool) | DoConnect(open: bool) | DoDisconnect | DoPoll(open: bool)

  function Step(l: Link, s: LinkStep): Link {
    match s
    case SetCmux(on) => l.(cmux := on)
    case DoConnect(open) => AfterConnect(l, open)
    case DoDisconnect => AfterDisconnect(l)
    case DoPoll(open) => AfterPoll(l, open)
  }

  function Run(l: Link, steps: seq<LinkStep>): Link
    decreases |steps|
  {
    if steps == [] then l else Run(Step(l, steps[0]), steps[1..])
  }

  lemma RunOne(l: Link, s: LinkStep)
    ensures Run(l, [s]) == Step(l, s)
  {
    hide Step;
    assert [s][1..] == [];
  }

  /** The listener's flag is set exactly while the link is connected. */
  predicate ReadyIsConnected(l: Link) {
    && (l.ready <==> l.ppp == Connected)
    && l.ppp != DeviceUnavailable
  }

  lemma {:induction false} RunKeepsReady(l: Link, steps: seq<LinkStep>)
    requires ReadyIsConnected(l)
    ensures ReadyIsConnected(Run(l, steps))
    decreases |steps|
  {
    if steps != [] {
      assert ReadyIsConnected(Step(l, steps[0]));
      RunKeepsReady(Step(l, steps[0]), steps[1..]);
    }
  }

  /** Whoever is connected is watched. */
  lemma {:induction false} RunKeepsMonitor(l: Link, steps: seq<LinkStep>)
    requires l.ppp == Connected ==> l.monitor
    ensures Run(l, steps).ppp == Connected ==> Run(l, steps).monitor
    decreases |steps|
  {
    if steps != [] {
      RunKeepsMonitor(Step(l, steps[0]), steps[1..]);
    }
  }

  // ----- what each step does, by what is given -----

  /** A connect leaves the link connected exactly if the device is there and the link was connected, or was
      unconnected and the daemon starts; and its status says so. */
  lemma ConnectsExactly(l: Link, open: bool)
    requires ReadyIsConnected(l)
    ensures var l' := Step(l, DoConnect(open));
            && (l'.ppp == Connected <==> l.cmux && (l.ppp == Connected || (l.ppp == NoConnection && open)))
            && (l'.ppp == NoConnection <==> l.cmux && l.ppp == NoConnection && !open)
            && (l'.ppp == ConnectionLost <==> !l.cmux || l.ppp == ConnectionLost)
            && (l'.monitor <==> l.monitor || (l.cmux && l.ppp == NoConnection && open))
            && (ConnectStatus(l, open) == CONNECTED <==> l'.ppp == Connected)
            && (ConnectStatus(l, open) == DEVICE_UNAVAILABLE <==> !l.cmux)
            && (ConnectStatus(l, open) == CONNECTION_ERROR <==> l.cmux && l'.ppp != Connected)
  {}

  /** A poll changes the link only on an edge of the CMUX flag: a falling one loses it, a rising one connects
      it exactly if the daemon starts. */
  lemma PollsExactly(l: Link, open: bool)
    ensures var l' := Step(l, DoPoll(open));
            && l'.seen.now == l.cmux && l'.seen.before == l.seen.now && l'.cmux == l.cmux
            && (l.cmux == l.seen.now ==> l'.ppp == l.ppp && l'.ready == l.ready && l'.monitor == l.monitor)
            && (!l.cmux && l.seen.now ==> l'.ppp == ConnectionLost && l'.monitor == l.monitor)
            && (l.cmux && !l.seen.now ==>
                  l'.ppp == (if open then Connected else NoConnection) && l'.monitor == (l.monitor || open))
  {}

  /** A disconnect leaves a present device unconnected, and turns the monitor off where it closes something. */
  lemma DisconnectsExactly(l: Link)
    requires ReadyIsConnected(l)
    ensures var l' := Step(l, DoDisconnect);
            && (l'.ppp == NoConnection <==> l.cmux) && (l'.ppp == ConnectionLost <==> !l.cmux)
            && (l'.monitor <==> l.monitor && (!l.cmux || l.ppp == NoConnection))
  {}

  /** The daemon starts nowhere in these steps. */
  predicate NoDaemon(steps: seq<LinkStep>) {
    forall i :: 0 <= i < |steps| ==> steps[i] != DoConnect(true) && steps[i] != DoPoll(true)
  }

  /** Without a daemon that starts, no run connects the link. */
  lemma {:induction false} NeverConnected(l: Link, steps: seq<LinkStep>)
    requires l.ppp != Connected && NoDaemon(steps)
    ensures Run(l, steps).ppp != Connected
    decreases |steps|
  {
    if steps != [] {
      assert steps[0] != DoConnect(true) && steps[0] != DoPoll(true);
      assert forall i :: 0 <= i < |steps[1..]| ==> steps[1..][i] == steps[i + 1];
      NeverConnected(Step(l, steps[0]), steps[1..]);
    }
  }

  /** What a query says agrees, after any run, with what the listeners were told and with what the last
      connect returned. */
  lemma QueryAgrees(l: Link, steps: seq<LinkStep>, open: bool)
    requires ReadyIsConnected(l)
    ensures var l' := Run(l, steps);
            && (StatusOf(l'.ppp) == CONNECTED <==> l'.ready)
            && (StatusOf(l'.ppp) == DISCONNECTED <==> l'.ppp == NoConnection)
            && (StatusOf(l'.ppp) == DEVICE_UNAVAILABLE <==> l'.ppp == ConnectionLost)
            && (ConnectStatus(l', open) == CONNECTED <==> StatusOf(AfterConnect(l', open).ppp) == CONNECTED)
            && (ConnectStatus(l', open) == DEVICE_UNAVAILABLE ==>
                  StatusOf(AfterConnect(l', open).ppp) == DEVICE_UNAVAILABLE)
  {
    RunKeepsReady(l, steps);
  }

  /** After any run, a disconnect leaves the link unconnected and the listeners told; but the status it
      returns is DISCONNECTED if and only if there was no device or no connection.  Where it closes a
      connection it returns CONNECTION_ERROR. */
  lemma DisconnectMisreports(l: Link, steps: seq<LinkStep>)
    requires ReadyIsConnected(l)
    ensures var l' := Run(l, steps);
            var l'' := AfterDisconnect(l');
            && l''.ppp != Connected && !l''.ready
            && (DisconnectStatus(l') == DISCONNECTED <==> !l'.cmux || l'.ppp == NoConnection)
            && (DisconnectStatus(l') != DISCONNECTED ==>
                  DisconnectStatus(l') == CONNECTION_ERROR && l''.ppp == NoConnection)
  {
    RunKeepsReady(l, steps);
  }

  predicate LeavesCmux(s: LinkStep, on: bool) {
    s.SetCmux? ==> s.on == on
  }

  /** A step that makes the state machine handle an event when the CMUX flag is off. */
  predicate HandlesEvent(l: Link, s: LinkStep) {
    match s
    case SetCmux(_) => false
    case DoConnect(_) | DoDisconnect => true
    case DoPoll(_) => l.seen.now
  }

  lemma LostStaysLost(l: Link, s: LinkStep)
    requires !l.cmux && LeavesCmux(s, false)
    ensures !Step(l, s).cmux
    ensures HandlesEvent(l, s) || l.ppp == ConnectionLost ==> Step(l, s).ppp == ConnectionLost
  {}

  lemma {:induction false} LostRun(l: Link, steps: seq<LinkStep>)
    requires !l.cmux && l.ppp == ConnectionLost
    requires forall i :: 0 <= i < |steps| ==> LeavesCmux(steps[i], false)
    ensures Run(l, steps).ppp == ConnectionLost
    decreases |steps|
  {
    if steps != [] {
      LostStaysLost(l, steps[0]);
      assert forall i :: 0 <= i < |steps[1..]| ==> steps[1..][i] == steps[i + 1];
      LostRun(Step(l, steps[0]), steps[1..]);
    }
  }

  lemma {:induction false} CmuxStaysOff(l: Link, steps: seq<LinkStep>)
    requires !l.cmux && forall i :: 0 <= i < |steps| ==> LeavesCmux(steps[i], false)
    ensures !Run(l, steps).cmux
    decreases |steps|
  {
    if steps != [] {
      LostStaysLost(l, steps[0]);
      assert forall i :: 0 <= i < |steps[1..]| ==> steps[1..][i] == steps[i + 1];
      CmuxStaysOff(Step(l, steps[0]), steps[1..]);
    }
  }

  /** While the CMUX flag is off: after any steps `a`, once one step `s` makes the machine handle an
      event, no mix `b` of connects, disconnects and polls leaves CONNECTION_LOST, and the listeners
      know that the network is not ready. */
  lemma LostWhileCmuxOff(l: Link, a: seq<LinkStep>, s: LinkStep, b: seq<LinkStep>)
    requires ReadyIsConnected(l) && !l.cmux && HandlesEvent(Run(l, a), s)
    requires forall i :: 0 <= i < |a| ==> LeavesCmux(a[i], false)
    requires forall i :: 0 <= i < |b| ==> LeavesCmux(b[i], false)
    ensures var l' := Run(Step(Run(l, a), s), b);
            l'.ppp == ConnectionLost && !l'.ready
  {
    CmuxStaysOff(l, a);
    LostStaysLost(Run(l, a), s);
    LostRun(Step(Run(l, a), s), b);
    RunKeepsReady(l, a);
    RunKeepsReady(Step(Run(l, a), s), b);
  }

  /** Lost, with the device gone, and the listeners told. */
  predicate Lost(l: Link) {
    l.ppp == ConnectionLost && !l.ready && !l.cmux
  }

  lemma LostForGood(l: Link, steps: seq<LinkStep>)
    requires Lost(l) && forall i :: 0 <= i < |steps| ==> LeavesCmux(steps[i], false)
    ensures Lost(Run(l, steps))
  {
    LostRun(l, steps);
    CmuxStaysOff(l, steps);
    RunKeepsReady(l, steps);
  }

  // ----- what edge detection misses -----

  lemma {:induction false} RecoveredRun(l: Link, steps: seq<LinkStep>)
    requires l.ppp != ConnectionLost && l.cmux && l.seen.now
    requires forall i :: 0 <= i < |steps| ==> LeavesCmux(steps[i], true)
    ensures Run(l, steps).ppp != ConnectionLost
    decreases |steps|
  {
    if steps != [] {
      assert forall i :: 0 <= i < |steps[1..]| ==> steps[1..][i] == steps[i + 1];
      RecoveredRun(Step(l, steps[0]), steps[1..]);
    }
  }

  predicate Polls(steps: seq<LinkStep>) {
    exists i :: 0 <= i < |steps| && steps[i].DoPoll?
  }

  /** With the CMUX flag on again, and nobody disconnecting, a lost link stays lost, however often the sink
      tries to connect, if and only if the last poll had seen the flag on (the monitor missed the edge), or
      the monitor does not poll. */
  lemma {:induction false} StaysLostExactly(l: Link, steps: seq<LinkStep>)
    requires l.ppp == ConnectionLost && l.cmux
    requires forall i :: 0 <= i < |steps| ==> LeavesCmux(steps[i], true) && steps[i] != DoDisconnect
    ensures Run(l, steps).ppp == ConnectionLost <==> (l.seen.now || !Polls(steps))
    decreases |steps|
  {
    if steps != [] {
      var l' := Step(l, steps[0]);
      var rest := steps[1..];
      assert forall i :: 0 <= i < |rest| ==> rest[i] == steps[i + 1];
      if steps[0].DoPoll? && !l.seen.now {
        RecoveredRun(l', rest);
      } else {
        StaysLostExactly(l', rest);
        PollsOfRest(steps);
      }
    }
  }

  lemma PollsOfRest(steps: seq<LinkStep>)
    requires steps != []
    ensures Polls(steps) <==> steps[0].DoPoll? || Polls(steps[1..])
  {
    if Polls(steps[1..]) {
      var i :| 0 <= i < |steps[1..]| && steps[1..][i].DoPoll?;
      assert steps[i + 1].DoPoll?;
    }
    if Polls(steps) && !steps[0].DoPoll? {
      var i :| 0 <= i < |steps| && steps[i].DoPoll?;
      assert steps[1..][i - 1].DoPoll?;
    }
  }

  /** Such a state is reachable: connected, flag off, a connect attempt, flag on. */
  lemma MissedEdgeReachable()
    ensures var l := Run(Link(NoConnection, false, true, History(true, true), false),
                         [DoConnect(true), SetCmux(false), DoConnect(true), SetCmux(true)]);
            l.ppp == ConnectionLost && l.cmux && l.seen.now
  {
    var l0 := Link(NoConnection, false, true, History(true, true), false);
    var s := [DoConnect(true), SetCmux(false), DoConnect(true), SetCmux(true)];
    var l1 := Step(l0, s[0]);
    var l2 := Step(l1, s[1]);
    var l3 := Step(l2, s[2]);
    var l4 := Step(l3, s[3]);
    assert s[1..][1..] == s[2..] && s[2..][1..] == s[3..] && s[3..][1..] == [];
    assert Run(l3, s[3..]) == l4;
    assert Run(l2, s[2..]) == l4;
    assert Run(l1, s[1..]) == l4;
  }

  // ----- the object -----

  class PppConnection {
    const itsSharedMemory: SharedFlags
    const cmuxReadyFlag: HistoricalValue<bool>
    var itsCurrentState: PppState
    var callbackList: seq<MqttProtocol>
    var isPowerMonitorOn: bool
    var terminate: bool

    ghost predicate Valid() { cmuxReadyFlag.Valid() }

    /** The link as seen by a listener whose flag is `ready`. */
    ghost function View(ready: bool): Link
      requires Valid()
      reads this, itsSharedMemory, cmuxReadyFlag.values
    {
      Link(itsCurrentState, ready, itsSharedMemory.cmuxReady, cmuxReadyFlag.Contents(), isPowerMonitorOn)
    }

    constructor (sharedMemory: SharedFlags)
      ensures itsSharedMemory == sharedMemory && fresh(cmuxReadyFlag.values) && Valid()
      ensures cmuxReadyFlag.Contents() == History(sharedMemory.cmuxReady, sharedMemory.cmuxReady)
      ensures itsCurrentState == NoConnection && callbackList == [] && !isPowerMonitorOn && !terminate
    {
      itsSharedMemory := sharedMemory;
      cmuxReadyFlag := new HistoricalValue(sharedMemory.cmuxReady);
      itsCurrentState, callbackList := NoConnection, [];
      isPowerMonitorOn, terminate := false, false;
    }

    /** The link's own part of the view, whoever listens. */
    ghost predicate Moved(l: Link)
      reads this
    {
      itsCurrentState == l.ppp && isPowerMonitorOn == l.monitor
    }

    /** A listener that registers before the first connection starts in agreement with the link. */
    method RegisterUserCallback(m: MqttProtocol)
      modifies this`callbackList
      ensures callbackList == old(callbackList) + [m]
    {
      callbackList := callbackList + [m];
    }

    method NotifyByCallback(status: NetworkStatus)
      modifies callbackList`isNetworkReady
      ensures forall m :: m in callbackList ==> m.isNetworkReady == status.CONNECTED?
    {
      for i := 0 to |callbackList|
        invariant forall j :: 0 <= j < i ==> callbackList[j].isNetworkReady == status.CONNECTED?
      {
        callbackList[i].OnNetworkStatusChange(status);
      }
    }

    /** Handles one event; every listener's view moves as the value-level tick says. */
    method StateMachineTick(ev: LinkEvent, open: bool) returns (state: PppState)
      requires Valid()
      modifies this`itsCurrentState, this`isPowerMonitorOn, callbackList`isNetworkReady
      ensures forall m :: m in callbackList ==>
                View(m.isNetworkReady) == AfterEvent(old(View(m.isNetworkReady)), ev, open)
      ensures state == itsCurrentState && Moved(AfterEvent(old(View(false)), ev, open))
      ensures ev == DeviceRestored || (ev == ConnectRequest && old(itsCurrentState) == NoConnection) ==>
                state == if open then Connected else NoConnection
    {
      match ev {
        case ConnectRequest =>
          if itsCurrentState != NoConnection {
            return itsCurrentState;
          }
          if open {
            itsCurrentState := Connected;
            isPowerMonitorOn := true;
            NotifyByCallback(CONNECTED);
          } else {
            itsCurrentState := NoConnection;
            NotifyByCallback(CONNECTION_ERROR);
          }
        case DisconnectRequest =>
          if itsCurrentState == Connected || itsCurrentState == ConnectionLost {
            isPowerMonitorOn := false;
            itsCurrentState := NoConnection;
            NotifyByCallback(DISCONNECTED);
          }
        case DeviceLost =>
          itsCurrentState := ConnectionLost;
          NotifyByCallback(DEVICE_UNAVAILABLE);
        case DeviceRestored =>
          if open {
            isPowerMonitorOn := true;
            itsCurrentState := Connected;
            NotifyByCallback(CONNECTED);
          } else {
            itsCurrentState := NoConnection;
            NotifyByCallback(CONNECTION_ERROR);
          }
      }
      state := itsCurrentState;
    }

    method Connect(open: bool) returns (status: NetworkStatus)
      requires Valid()
      modifies this`itsCurrentState, this`isPowerMonitorOn, callbackList`isNetworkReady
      ensures forall m :: m in callbackList ==>
                View(m.isNetworkReady) == AfterConnect(old(View(m.isNetworkReady)), open)
      ensures Moved(AfterConnect(old(View(false)), open))
      ensures status == ConnectStatus(old(View(false)), open)
    {
      status := CONNECTION_ERROR;
      if !itsSharedMemory.cmuxReady {
        var lost := StateMachineTick(DeviceLost, open);
        return DEVICE_UNAVAILABLE;
      }
      if itsCurrentState == Connected {
        return CONNECTED;
      }
      var state := StateMachineTick(ConnectRequest, open);
      if state == Connected {
        status := CONNECTED;
      }
    }

    method Disconnect() returns (status: NetworkStatus)
      requires Valid()
      modifies this`itsCurrentState, this`isPowerMonitorOn, callbackList`isNetworkReady
      ensures forall m :: m in callbackList ==>
                View(m.isNetworkReady) == AfterDisconnect(old(View(m.isNetworkReady)))
      ensures Moved(AfterDisconnect(old(View(false))))
      ensures status == DisconnectStatus(old(View(false)))
    {
      status := CONNECTION_ERROR;
      if !itsSharedMemory.cmuxReady {
        var lost := StateMachineTick(DeviceLost, false);
        return DISCONNECTED;
      }
      if itsCurrentState == NoConnection {
        return DISCONNECTED;
      }
      var state := StateMachineTick(DisconnectRequest, false);
      if state == Connected {
        status := DISCONNECTED;
      }
    }

    /** Every listener in agreement with the link is told the same by a query. */
    method QueryStatus() returns (status: NetworkStatus)
      requires Valid()
      ensures status == StatusOf(itsCurrentState)
      ensures forall m :: m in callbackList && ReadyIsConnected(View(m.isNetworkReady)) ==>
                (status == CONNECTED <==> m.isNetworkReady)
    {
      status := UNKNOWN_ERROR;
      match itsCurrentState
      case Connected => status := CONNECTED;
      case DeviceUnavailable => status := DEVICE_UNAVAILABLE;
      case NoConnection => status := DISCONNECTED;
      case ConnectionLost => status := DEVICE_UNAVAILABLE;
    }

    /** What the destructor tells the monitor thread. */
    method Terminate()
      modifies this`terminate
      ensures terminate
    {
      terminate := true;
    }

    /** One turn of the monitor thread's loop, after its wait; says whether the loop goes on. */
    method PowerMonitorTurn(open: bool) returns (again: bool)
      requires Valid()
      modifies this`itsCurrentState, this`isPowerMonitorOn, callbackList`isNetworkReady, cmuxReadyFlag.values
      ensures again == !terminate
      ensures forall m :: m in callbackList ==>
                View(m.isNetworkReady) == if again then AfterPoll(old(View(m.isNetworkReady)), open)
                                          else old(View(m.isNetworkReady))
      ensures Moved(if again then AfterPoll(old(View(false)), open) else old(View(false)))
      ensures again ==> cmuxReadyFlag.Contents() == old(cmuxReadyFlag.Contents()).Next(itsSharedMemory.cmuxReady)
      ensures !again ==> cmuxReadyFlag.Contents() == old(cmuxReadyFlag.Contents())
    {
      if terminate {
        return false;
      }
      cmuxReadyFlag.Set(itsSharedMemory.cmuxReady);
      var changed := cmuxReadyFlag.HasChanged();
      if changed {
        if cmuxReadyFlag.Contents().now {
          var state := StateMachineTick(DeviceRestored, open);
        } else {
          var state := StateMachineTick(DeviceLost, open);
        }
      }
      again := true;
    }
  }
}

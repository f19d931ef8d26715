/** Power manager and link together: the manager alone writes the CMUX-ready flag that the link and
    its monitor read. */
module Uplink {
  import opened Modem = PowerManager
  import Ppp = PppConnection
  import opened SgmData
  import opened MessageQueue
  import Sink = SgmSink

  datatype System = System(manager: Manager, link: Ppp.Link)

  datatype Move = Power(a: Action) | Connect(open: bool) | Disconnect | Poll(open: bool)

  function LinkStepOf(m: Manager, mv: Move): Ppp.LinkStep {
    match mv
    case Power(a) => Ppp.SetCmux(Act(m, a).cmuxReady)
    case Connect(open) => Ppp.DoConnect(open)
    case Disconnect => Ppp.DoDisconnect
    case Poll(open) => Ppp.DoPoll(open)
  }

  function Step(sys: System, mv: Move): System {
    System(if mv.Power? then Act(sys.manager, mv.a) else sys.manager, Ppp.Step(sys.link, LinkStepOf(sys.manager, mv)))
  }

  function Run(sys: System, moves: seq<Move>): System
    decreases |moves|
  {
    if moves == [] then sys else Run(Step(sys, moves[0]), moves[1..])
  }

  predicate Inv(sys: System) {
    && Modem.Inv(sys.manager)
    && Ppp.ReadyIsConnected(sys.link)
    && sys.link.cmux == sys.manager.cmuxReady
  }

  /** Over every run, the flag that the link reads is set exactly in MODEM_CMUX, and the listeners' ready
      flag exactly while the link is connected. */
  lemma {:induction false} RunKeepsInv(sys: System, moves: seq<Move>)
    requires Inv(sys)
    ensures var sys' := Run(sys, moves);
            && Inv(sys')
            && (sys'.link.cmux <==> sys'.manager.device.now == MODEM_CMUX)
            && (sys'.link.ready <==> sys'.link.ppp == Ppp.Connected)
    decreases |moves|
  {
    if moves != [] {
      assert Inv(Step(sys, moves[0]));
      RunKeepsInv(Step(sys, moves[0]), moves[1..]);
    }
  }

  /** The modem is down and will stay so: for good, or until power is reported enabled. */
  predicate Down(m: Manager) {
    m.device.now == MODEM_FAILED || (m.device.now == MODEM_OFF && m.power.now != ENABLED)
  }

  predicate StaysDown(sys: System, moves: seq<Move>) {
    sys.manager.device.now == MODEM_FAILED || Power(Report(ENABLED)) !in moves
  }

  predicate HandlesEvent(sys: System, mv: Move) {
    Ppp.HandlesEvent(sys.link, LinkStepOf(sys.manager, mv))
  }

  lemma DownStep(sys: System, mv: Move)
    requires Inv(sys) && Down(sys.manager) && StaysDown(sys, [mv])
    ensures var sys' := Step(sys, mv);
            && Inv(sys') && Down(sys'.manager) && sys'.manager.device.now == sys.manager.device.now
            && (HandlesEvent(sys, mv) || sys.link.ppp == Ppp.ConnectionLost ==> sys'.link.ppp == Ppp.ConnectionLost)
  {
    assert mv in [mv];
    Ppp.LostStaysLost(sys.link, LinkStepOf(sys.manager, mv));
  }

  lemma {:induction false} DownRun(sys: System, moves: seq<Move>)
    requires Inv(sys) && Down(sys.manager) && StaysDown(sys, moves)
    ensures var sys' := Run(sys, moves);
            && Inv(sys') && Down(sys'.manager) && sys'.manager.device.now == sys.manager.device.now
            && (sys.link.ppp == Ppp.ConnectionLost ==> sys'.link.ppp == Ppp.ConnectionLost)
    decreases |moves|
  {
    if moves != [] {
      DownStep(sys, moves[0]);
      DownRun(Step(sys, moves[0]), moves[1..]);
    }
  }

  /** Once the modem is down and the link has handled one event, no run makes the network ready again,
      except that one down for lack of power may be enabled. */
  lemma DownIsSilent(sys: System, before: seq<Move>, mv: Move, after: seq<Move>)
    requires Inv(sys) && Down(sys.manager) && StaysDown(sys, before + [mv] + after)
    requires HandlesEvent(Run(sys, before), mv)
    ensures var sys' := Run(Step(Run(sys, before), mv), after);
            && sys'.link.ppp == Ppp.ConnectionLost && !sys'.link.ready
            && sys'.manager.device.now == sys.manager.device.now && Inv(sys') && Down(sys'.manager)
  {
    DownRun(sys, before);
    DownStep(Run(sys, before), mv);
    DownRun(Step(Run(sys, before), mv), after);
  }

  /** From any state of the modem but MODEM_FAILED: a burst of power reports that ends disabled, and one
      wake-up of the manager, silence the link in the same way. */
  lemma PowerLossSilences(sys: System, ps: seq<PowerState>, muxOn: bool, before: seq<Move>, mv: Move, after: seq<Move>)
    requires Inv(sys) && sys.manager.device.now != MODEM_FAILED
    requires ps != [] && Disabled(ps[|ps| - 1])
    requires Power(Report(ENABLED)) !in before + [mv] + after
    requires HandlesEvent(Run(Step(Run(sys, Reported(ps)), Power(Wake(muxOn))), before), mv)
    ensures var sys' := Run(Step(Run(Step(Run(sys, Reported(ps)), Power(Wake(muxOn))), before), mv), after);
            sys'.link.ppp == Ppp.ConnectionLost && !sys'.link.ready && sys'.manager.device.now == MODEM_OFF
  {
    PowerLossDown(sys, ps, muxOn);
    DownIsSilent(Step(Run(sys, Reported(ps)), Power(Wake(muxOn))), before, mv, after);
  }

  lemma PowerLossDown(sys: System, ps: seq<PowerState>, muxOn: bool)
    requires Inv(sys) && sys.manager.device.now != MODEM_FAILED
    requires ps != [] && Disabled(ps[|ps| - 1])
    ensures var sys' := Step(Run(sys, Reported(ps)), Power(Wake(muxOn)));
            Inv(sys') && Down(sys'.manager) && sys'.manager.device.now == MODEM_OFF
  {
    RunKeepsInv(sys, Reported(ps));
    ReportsReachManager(sys, ps);
    BurstCoalesces(sys.manager, ps, muxOn);
    BurstOnlyReports(sys.manager, ps);
  }

  function Reported(ps: seq<PowerState>): seq<Move> {
    seq(|ps|, i requires 0 <= i < |ps| => Power(Report(ps[i])))
  }

  lemma {:induction false} ReportsReachManager(sys: System, ps: seq<PowerState>)
    ensures Run(sys, Reported(ps)).manager == Modem.Run(sys.manager, Reports(ps))
    decreases |ps|
  {
    if ps != [] {
      assert Reported(ps)[1..] == Reported(ps[1..]) && Reports(ps)[1..] == Reports(ps[1..]);
      ReportsReachManager(Step(sys, Power(Report(ps[0]))), ps[1..]);
    }
  }

  // ----- from modem power to publication -----

  predicate SettledDown(m: Manager) {
    Modem.Inv(m) && Down(m)
  }

  function ManagerAfter(m: Manager, moves: seq<Move>): Manager
    decreases |moves|
  {
    if moves == [] then m else ManagerAfter(if moves[0].Power? then Act(m, moves[0].a) else m, moves[1..])
  }

  /** What the link goes through during the moves. */
  function LinkSteps(m: Manager, moves: seq<Move>): seq<Ppp.LinkStep>
    decreases |moves|
  {
    if moves == [] then []
    else [LinkStepOf(m, moves[0])] + LinkSteps(if moves[0].Power? then Act(m, moves[0].a) else m, moves[1..])
  }

  /** The link of the system is the link that the sink sees. */
  lemma {:induction false} LinkOfRun(sys: System, moves: seq<Move>)
    ensures Run(sys, moves).link == Ppp.Run(sys.link, LinkSteps(sys.manager, moves))
    ensures Run(sys, moves).manager == ManagerAfter(sys.manager, moves)
    decreases |moves|
  {
    if moves != [] {
      var sys1 := Step(sys, moves[0]);
      var steps := LinkSteps(sys.manager, moves);
      assert steps[0] == LinkStepOf(sys.manager, moves[0]) && steps[1..] == LinkSteps(sys1.manager, moves[1..]);
      LinkOfRun(sys1, moves[1..]);
    }
  }

  /** While the modem stays down, nothing that manager and monitor do turns the CMUX flag on. */
  lemma {:induction false} DownKeepsOff(m: Manager, moves: seq<Move>)
    requires SettledDown(m) && (m.device.now == MODEM_FAILED || Power(Report(ENABLED)) !in moves)
    ensures SettledDown(ManagerAfter(m, moves)) && ManagerAfter(m, moves).device.now == m.device.now
    ensures forall j :: 0 <= j < |LinkSteps(m, moves)| ==> Ppp.LeavesCmux(LinkSteps(m, moves)[j], false)
    decreases |moves|
  {
    if moves != [] {
      var m1 := if moves[0].Power? then Act(m, moves[0].a) else m;
      assert moves[0] in moves;
      DownKeepsOff(m1, moves[1..]);
    }
  }

  /** What happens around one tick of the sink, with the system's moves before the tick and before each
      receive of an accepted connection. */
  datatype Turn = Turn(before: seq<Move>, open: bool, mqtt: bool, socket: Arrival)

  datatype Arrival = Nobody | Fault | Connection(rx: seq<Receipt>)

  datatype Receipt = Receipt(before: seq<Move>, size: nat, packet: SgmProcessData, client: bool)

  function ReceivesOf(m: Manager, rx: seq<Receipt>): seq<Rx>
    decreases |rx|
  {
    if rx == [] then []
    else
      var r := rx[0];
      [Rx(LinkSteps(m, r.before), r.size, r.packet, r.client)] + ReceivesOf(ManagerAfter(m, r.before), rx[1..])
  }

  function ManagerAfterReceives(m: Manager, rx: seq<Receipt>): Manager
    decreases |rx|
  {
    if rx == [] then m else ManagerAfterReceives(ManagerAfter(m, rx[0].before), rx[1..])
  }

  /** The sink's input, with the manager in state m before the turn. */
  function InputOf(m: Manager, t: Turn): Sink.Input {
    var m1 := ManagerAfter(m, t.before);
    Sink.Input(LinkSteps(m, t.before), t.open, t.mqtt,
               match t.socket
               case Nobody => Sink.Idle
               case Fault => Sink.Broken
               case Connection(rx) => Sink.Accepted(ReceivesOf(m1, rx)))
  }

  function ManagerAfterTurn(m: Manager, t: Turn): Manager {
    var m1 := ManagerAfter(m, t.before);
    if t.socket.Connection? then ManagerAfterReceives(m1, t.socket.rx) else m1
  }

  function ManagerAt(m: Manager, turns: nat -> Turn, n: nat): Manager {
    if n == 0 then m else ManagerAfterTurn(ManagerAt(m, turns, n - 1), turns(n - 1))
  }

  function InputsOf(m: Manager, turns: nat -> Turn): Sink.Inputs {
    (n: nat) => InputOf(ManagerAt(m, turns, n), turns(n))
  }

  /** Power is never reported enabled during the turn. */
  predicate NeverEnabled(t: Turn) {
    && Power(Report(ENABLED)) !in t.before
    && (t.socket.Connection? ==> ReceiptsNeverEnabled(t.socket.rx))
  }

  predicate ReceiptsNeverEnabled(rx: seq<Receipt>) {
    forall i :: 0 <= i < |rx| ==> Power(Report(ENABLED)) !in rx[i].before
  }

  lemma {:induction false} DownReceives(m: Manager, rx: seq<Receipt>)
    requires SettledDown(m) && (m.device.now == MODEM_FAILED || ReceiptsNeverEnabled(rx))
    ensures ReceivesKeepOff(ReceivesOf(m, rx))
    ensures SettledDown(ManagerAfterReceives(m, rx)) && ManagerAfterReceives(m, rx).device.now == m.device.now
    decreases |rx|
  {
    if rx != [] {
      DownKeepsOff(m, rx[0].before);
      assert forall i :: 0 <= i < |rx[1..]| ==> rx[1..][i] == rx[i + 1];
      DownReceives(ManagerAfter(m, rx[0].before), rx[1..]);
    }
  }

  lemma DownTurn(m: Manager, t: Turn)
    requires SettledDown(m) && (m.device.now == MODEM_FAILED || NeverEnabled(t))
    ensures Sink.KeepsOff(InputOf(m, t))
    ensures SettledDown(ManagerAfterTurn(m, t)) && ManagerAfterTurn(m, t).device.now == m.device.now
  {
    DownKeepsOff(m, t.before);
    if t.socket.Connection? {
      DownReceives(ManagerAfter(m, t.before), t.socket.rx);
    }
  }

  lemma {:induction false} DownTurns(m: Manager, turns: nat -> Turn, n: nat)
    requires SettledDown(m) && (m.device.now == MODEM_FAILED || forall k: nat :: NeverEnabled(turns(k)))
    ensures SettledDown(ManagerAt(m, turns, n)) && ManagerAt(m, turns, n).device.now == m.device.now
    decreases n
  {
    if n > 0 {
      DownTurns(m, turns, n - 1);
      NextTurn(m, turns, n, ManagerAt(m, turns, n - 1), turns(n - 1));
    }
  }

  lemma NextTurn(m: Manager, turns: nat -> Turn, n: nat, m': Manager, t: Turn)
    requires n > 0 && m' == ManagerAt(m, turns, n - 1) && t == turns(n - 1)
    requires SettledDown(m') && (m'.device.now == MODEM_FAILED || NeverEnabled(t))
    ensures SettledDown(ManagerAt(m, turns, n)) && ManagerAt(m, turns, n).device.now == m'.device.now
  {
    DownTurn(m', t);
  }

  /** With the modem down and the link lost, the sink publishes nothing, whatever manager, monitor, PPP
      daemon, MQTT server and sensors do: ever again after MODEM_FAILED, and otherwise until power is
      reported enabled. */
  lemma DownPublishesNothing(sys: System, id: string, s: Sink.Sink, turns: nat -> Turn, n: nat)
    requires Inv(sys) && Down(sys.manager) && sys.link.ppp == Ppp.ConnectionLost && s.link == sys.link
    requires sys.manager.device.now == MODEM_FAILED || forall k: nat :: NeverEnabled(turns(k))
    ensures Sink.AllSent(id, s, InputsOf(sys.manager, turns), n) == []
  {
    var inputs := InputsOf(sys.manager, turns);
    forall k: nat
      ensures Sink.KeepsOff(inputs(k))
    {
      DownTurns(sys.manager, turns, k);
      DownTurn(ManagerAt(sys.manager, turns, k), turns(k));
    }
    Sink.LostSinkIsSilent(id, s, inputs, n);
  }

  /** From modem power to publication.  A burst of power reports ending disabled, one wake-up of the
      manager and one event handled by the link; from then on, as long as power is not reported enabled,
      the sink publishes nothing. */
  lemma PowerLossStopsPublishing(sys: System, ps: seq<PowerState>, muxOn: bool, before: seq<Move>, mv: Move,
                                 id: string, s: Sink.Sink, turns: nat -> Turn, n: nat)
    requires Inv(sys) && sys.manager.device.now != MODEM_FAILED
    requires ps != [] && Disabled(ps[|ps| - 1])
    requires Power(Report(ENABLED)) !in before + [mv]
    requires HandlesEvent(Run(Step(Run(sys, Reported(ps)), Power(Wake(muxOn))), before), mv)
    requires s.link == Step(Run(Step(Run(sys, Reported(ps)), Power(Wake(muxOn))), before), mv).link
    requires forall k: nat :: NeverEnabled(turns(k))
    ensures var sys' := Step(Run(Step(Run(sys, Reported(ps)), Power(Wake(muxOn))), before), mv);
            Sink.AllSent(id, s, InputsOf(sys'.manager, turns), n) == []
  {
    var sys1 := Step(Run(sys, Reported(ps)), Power(Wake(muxOn)));
    var sys' := Step(Run(sys1, before), mv);
    assert before + [mv] + [] == before + [mv];
    PowerLossDown(sys, ps, muxOn);
    DownIsSilent(sys1, before, mv, []);
    assert Run(sys', []) == sys';
    DownPublishesNothing(sys', id, s, turns, n);
  }
}

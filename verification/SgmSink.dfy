/** The sink's ticks and its loop, on values: what every run keeps, when the loop ends, and why. */
module SgmSink {
  import opened MqttProtocol
  import opened PppConnection
  import opened MessageQueue

  const MAX_LISTEN_ITERATIONS_COUNT := 5

  datatype SinkState = NotConnected | LinkUp | ListeningConnected | ListeningDisconnected

  /** What the socket yields in one tick: nobody waiting, a runtime error, or a connection. */
  datatype Socket = Idle | Broken | Accepted(rx: seq<Rx>)

  /** The outside world in one tick: what monitor and modem do first, whether the PPP daemon would
      start, whether the MQTT server would accept, and the socket. */
  datatype Input = Input(before: seq<LinkStep>, open: bool, mqtt: bool, socket: Socket)

  datatype Sink = Sink(state: SinkState, count: nat, link: Link)

  function Tick(id: string, s: Sink, i: Input): Sink {
    var link := Run(s.link, i.before);
    match s.state
    case NotConnected =>
      Sink(if ConnectStatus(link, i.open) == CONNECTED then LinkUp else NotConnected,
           s.count, AfterConnect(link, i.open))
    case LinkUp =>
      if i.mqtt then Sink(ListeningConnected, 0, link) else s.(link := link)
    case ListeningConnected =>
      (match i.socket
       case Idle => Sink(ListeningConnected, s.count + 1, link)
       case Broken => s.(link := link)
       case Accepted(rx) =>
         var q := Finished(QueueAfter(id, link, rx));
         match q.end
         case ClientGone => Sink(NotConnected, 0, q.link)
         case BadPacket => Sink(ListeningConnected, 0, q.link)
         case _ => Sink(ListeningConnected, 1, q.link))
    case ListeningDisconnected => Sink(ListeningDisconnected, s.count + 1, link)
  }

  function SentIn(id: string, s: Sink, i: Input): seq<Sent> {
    if s.state == ListeningConnected && i.socket.Accepted?
    then QueueAfter(id, Run(s.link, i.before), i.socket.rx).sent
    else []
  }

  type Inputs = nat -> Input

  predicate Running(s: Sink) {
    s.count < MAX_LISTEN_ITERATIONS_COUNT
  }

  /** The sink after n ticks; it stands still once the loop has ended. */
  function At(id: string, s: Sink, inputs: Inputs, n: nat): Sink {
    if n == 0 then s
    else
      var t := At(id, s, inputs, n - 1);
      if Running(t) then Tick(id, t, inputs(n - 1)) else t
  }

  // ----- what every run keeps -----

  predicate Inv(s: Sink) {
    && s.count <= MAX_LISTEN_ITERATIONS_COUNT
    && (s.count > 0 ==> s.state == ListeningConnected)
    && s.state != ListeningDisconnected
    && ReadyIsConnected(s.link)
  }

  lemma TickKeepsInv(id: string, s: Sink, i: Input)
    requires Inv(s) && Running(s)
    ensures Inv(Tick(id, s, i))
    ensures forall k :: 0 <= k < |SentIn(id, s, i)| ==> SentIn(id, s, i)[k].ppp == Connected
  {
    var link := Run(s.link, i.before);
    RunKeepsReady(s.link, i.before);
    if s.state == ListeningConnected && i.socket.Accepted? {
      QueueSendsConnected(id, link, i.socket.rx);
    }
  }

  /** After any number of ticks the count is at most 5 and positive only while listening, the ready flag
      matches the link, and whatever the next tick publishes leaves while the link is connected. */
  lemma {:induction false} RunKeepsInv(id: string, s: Sink, inputs: Inputs, n: nat)
    requires Inv(s)
    ensures var t := At(id, s, inputs, n);
            && Inv(t)
            && (Running(t) ==>
                  forall k :: 0 <= k < |SentIn(id, t, inputs(n))| ==> SentIn(id, t, inputs(n))[k].ppp == Connected)
    decreases n
  {
    if n > 0 {
      RunKeepsInv(id, s, inputs, n - 1);
      var t := At(id, s, inputs, n - 1);
      if Running(t) {
        TickKeepsInv(id, t, inputs(n - 1));
      }
    }
    if Running(At(id, s, inputs, n)) {
      TickKeepsInv(id, At(id, s, inputs, n), inputs(n));
    }
  }

  /** Everything published in the first n ticks. */
  function AllSent(id: string, s: Sink, inputs: Inputs, n: nat): seq<Sent> {
    if n == 0 then []
    else
      var t := At(id, s, inputs, n - 1);
      AllSent(id, s, inputs, n - 1) + if Running(t) then SentIn(id, t, inputs(n - 1)) else []
  }

  /** Publish safety over the whole run: nothing is ever published while the link is not connected. */
  lemma {:induction false} AllSentConnected(id: string, s: Sink, inputs: Inputs, n: nat)
    requires Inv(s)
    ensures forall k :: 0 <= k < |AllSent(id, s, inputs, n)| ==> AllSent(id, s, inputs, n)[k].ppp == Connected
    decreases n
  {
    if n > 0 {
      AllSentConnected(id, s, inputs, n - 1);
      RunKeepsInv(id, s, inputs, n - 1);
    }
  }

  // ----- what each tick does, by what is given -----

  /** The tick brings the link up. */
  predicate BringsUp(s: Sink, i: Input) {
    var link := Run(s.link, i.before);
    && s.state == NotConnected
    && link.cmux && (link.ppp == Connected || (link.ppp == NoConnection && i.open))
  }

  /** The tick connects the client. */
  predicate Logs(s: Sink, i: Input) {
    s.state == LinkUp && i.mqtt
  }

  /** The tick finds the client gone. */
  predicate LosesIt(s: Sink, i: Input) {
    Accepts(s, i) && LosesClient(i.socket.rx)
  }

  /** Where a tick goes: up exactly with the link, to listening exactly with the client, and back to the start
      exactly when the client is gone, which is when it is disconnected. */
  lemma TickMoves(id: string, s: Sink, i: Input)
    requires Inv(s)
    ensures var s' := Tick(id, s, i);
            && (s.state == NotConnected ==>
                  s'.state == (if BringsUp(s, i) then LinkUp else NotConnected)
                  && (s'.state == LinkUp <==> s'.link.ppp == Connected))
            && (s.state == LinkUp ==> s'.state == if Logs(s, i) then ListeningConnected else LinkUp)
            && (IsListening(s) ==> s'.state == if LosesIt(s, i) then NotConnected else ListeningConnected)
            && CallsIn(id, s, i).hangups == (if LosesIt(s, i) then 1 else 0)
  {
    var link := Run(s.link, i.before);
    RunKeepsReady(s.link, i.before);
    ConnectsExactly(link, i.open);
    if Accepts(s, i) {
      ClientGoneExactly(id, link, i.socket.rx);
    }
  }

  /** What a tick makes of the link: it connects when not connected, follows the queue of a connection, and
      leaves it alone otherwise. */
  lemma TickLink(id: string, s: Sink, i: Input)
    ensures var link := Run(s.link, i.before);
            Tick(id, s, i).link ==
              if s.state == NotConnected then Run(link, [DoConnect(i.open)])
              else if Accepts(s, i) then LinkAt(link, Received(i.socket.rx))
              else link
  {
    hide Run, AfterConnect, ConnectStatus, QueueAfter, LinkAt, Selected, Texts;
    RunOne(Run(s.link, i.before), DoConnect(i.open));
    if Accepts(s, i) {
      PacketConservation(id, Run(s.link, i.before), i.socket.rx, FirstStop(i.socket.rx));
    }
  }

  /** The receives of a connection, up to the one that stops the queue. */
  function Received(rx: seq<Rx>): seq<Rx> {
    var k := FirstStop(rx);
    if k < |rx| then rx[..k + 1] else rx
  }

  /** What the first n ticks are to publish: the publishable packets of every accepted connection. */
  function Due(id: string, s: Sink, inputs: Inputs, n: nat): seq<Message> {
    if n == 0 then []
    else
      var t, i := At(id, s, inputs, n - 1), inputs(n - 1);
      Due(id, s, inputs, n - 1)
      + if Running(t) && Accepts(t, i)
        then Selected(id, Run(t.link, i.before), i.socket.rx, FirstStop(i.socket.rx))
        else []
  }

  /** Over every run the sink publishes exactly that, in order. */
  lemma {:induction false} PublishesWhatIsDue(id: string, s: Sink, inputs: Inputs, n: nat)
    ensures Texts(AllSent(id, s, inputs, n)) == Due(id, s, inputs, n)
    decreases n
  {
    hide At, Tick, Texts, QueueAfter, Selected, Run;
    if n > 0 {
      var t, i := At(id, s, inputs, n - 1), inputs(n - 1);
      PublishesWhatIsDue(id, s, inputs, n - 1);
      NoTexts();
      TextsConcat(AllSent(id, s, inputs, n - 1), if Running(t) then SentIn(id, t, i) else []);
      if Accepts(t, i) {
        SentIsSelected(id, t, i);
      }
    } else {
      NoTexts();
    }
  }

  lemma SentIsSelected(id: string, s: Sink, i: Input)
    requires Accepts(s, i)
    ensures Texts(SentIn(id, s, i)) == Selected(id, Run(s.link, i.before), i.socket.rx, FirstStop(i.socket.rx))
  {
    PacketConservation(id, Run(s.link, i.before), i.socket.rx, FirstStop(i.socket.rx));
  }

  // ----- coming back -----

  lemma {:induction false} BringsUpBetween(id: string, s: Sink, inputs: Inputs, m: nat, n: nat) returns (k: nat)
    requires Inv(s) && m <= n && forall j :: m <= j < n ==> Running(At(id, s, inputs, j))
    requires At(id, s, inputs, m).state == NotConnected && At(id, s, inputs, n).state != NotConnected
    ensures m <= k < n && BringsUp(At(id, s, inputs, k), inputs(k)) && At(id, s, inputs, k + 1).state == LinkUp
    decreases n - m
  {
    hide BringsUp, Inv, Tick;
    InvAt(id, s, inputs, m);
    TickMoves(id, At(id, s, inputs, m), inputs(m));
    if At(id, s, inputs, m + 1).state == LinkUp {
      k := m;
    } else {
      k := BringsUpBetween(id, s, inputs, m + 1, n);
    }
  }

  lemma {:induction false} LogsBetween(id: string, s: Sink, inputs: Inputs, m: nat, n: nat) returns (k: nat)
    requires Inv(s) && m <= n && forall j :: m <= j < n ==> Running(At(id, s, inputs, j))
    requires At(id, s, inputs, m).state == LinkUp && At(id, s, inputs, n).state != LinkUp
    ensures m <= k < n && Logs(At(id, s, inputs, k), inputs(k))
    decreases n - m
  {
    hide Logs, Inv, Tick;
    InvAt(id, s, inputs, m);
    TickMoves(id, At(id, s, inputs, m), inputs(m));
    if Logs(At(id, s, inputs, m), inputs(m)) {
      k := m;
    } else {
      k := LogsBetween(id, s, inputs, m + 1, n);
    }
  }

  /** Between a tick that finds the client gone and the next connection accepted, a tick brought the link up,
      and a later one connected the client. */
  lemma ReconnectsBeforeAccepting(id: string, s: Sink, inputs: Inputs, m: nat, n: nat) returns (j: nat, k: nat)
    requires Inv(s) && m < n && forall i :: 0 <= i < n ==> Running(At(id, s, inputs, i))
    requires CallsIn(id, At(id, s, inputs, m), inputs(m)).hangups > 0
    requires Accepts(At(id, s, inputs, n), inputs(n))
    ensures m < j < k < n
    ensures BringsUp(At(id, s, inputs, j), inputs(j)) && Logs(At(id, s, inputs, k), inputs(k))
  {
    hide Inv, Tick, BringsUp, Logs;
    InvAt(id, s, inputs, m);
    TickMoves(id, At(id, s, inputs, m), inputs(m));
    NextAt(id, s, inputs, m);
    j := BringsUpBetween(id, s, inputs, m + 1, n);
    k := LogsBetween(id, s, inputs, j + 1, n);
  }

  lemma NextAt(id: string, s: Sink, inputs: Inputs, n: nat)
    requires Running(At(id, s, inputs, n))
    ensures At(id, s, inputs, n + 1) == Tick(id, At(id, s, inputs, n), inputs(n))
  {}

  /** The daemon starts at no step of the tick. */
  predicate StartsNoDaemon(i: Input) {
    && !i.open && NoDaemon(i.before)
    && (i.socket.Accepted? ==> forall k :: 0 <= k < |i.socket.rx| ==> NoDaemon(i.socket.rx[k].before))
  }

  /** Without a daemon that starts, the sink of an unconnected link never comes to listen. */
  lemma {:induction false} NeedsDaemon(id: string, s: Sink, inputs: Inputs, n: nat)
    requires Inv(s) && s.state == NotConnected && s.link.ppp != Connected
    requires forall k: nat :: StartsNoDaemon(inputs(k))
    ensures At(id, s, inputs, n).state == NotConnected && At(id, s, inputs, n).link.ppp != Connected
    ensures AllSent(id, s, inputs, n) == []
    decreases n
  {
    if n > 0 {
      NeedsDaemon(id, s, inputs, n - 1);
      var t, i := At(id, s, inputs, n - 1), inputs(n - 1);
      InvAt(id, s, inputs, n - 1);
      assert StartsNoDaemon(i);
      NeverConnected(t.link, i.before);
      TickMoves(id, t, i);
    }
  }

  // ----- short packets -----

  /** Of a short first receive the sink takes note, with a count of 0, if and only if its size is not that
      of EAGAIN; 11 bytes pass for a drained connection. */
  lemma ShortPacketCounts(id: string, s: Sink, i: Input)
    requires Accepts(s, i) && i.socket.rx != [] && 0 < i.socket.rx[0].size < PACKET_SIZE
    ensures Tick(id, s, i).count == (if i.socket.rx[0].size != EAGAIN then 0 else 1)
    ensures SentIn(id, s, i) == []
  {
    var link, rx := Run(s.link, i.before), i.socket.rx;
    ShortPacketReported(id, link, rx, 0);
    PacketConservation(id, link, rx, 0);
  }

  // ----- silence -----

  predicate KeepsOff(i: Input) {
    && (forall j :: 0 <= j < |i.before| ==> LeavesCmux(i.before[j], false))
    && (i.socket.Accepted? ==> ReceivesKeepOff(i.socket.rx))
  }

  /** Once the link is lost and the device gone, then for as long as it stays gone, also between receives,
      nothing is published, whatever sensors, modem, PPP daemon and MQTT server do. */
  lemma {:induction false} LostSinkIsSilent(id: string, s: Sink, inputs: Inputs, n: nat)
    requires Lost(s.link) && forall k: nat :: KeepsOff(inputs(k))
    ensures AllSent(id, s, inputs, n) == [] && Lost(At(id, s, inputs, n).link)
    decreases n
  {
    if n > 0 {
      LostSinkIsSilent(id, s, inputs, n - 1);
      LostTickIsSilent(id, At(id, s, inputs, n - 1), inputs(n - 1));
    }
  }

  lemma LostTickIsSilent(id: string, s: Sink, i: Input)
    requires Lost(s.link) && KeepsOff(i)
    ensures SentIn(id, s, i) == [] && Lost(Tick(id, s, i).link)
  {
    var link := Run(s.link, i.before);
    LostForGood(s.link, i.before);
    if i.socket.Accepted? {
      LostQueueIsSilent(id, link, i.socket.rx);
    }
  }

  // ----- calls to socket and client library -----

  /** Connections accepted and closed, times given to the client library, and disconnects of it. */
  datatype Calls = Calls(accepted: nat, closed: nat, yielded: nat, hangups: nat)
  {
    function Plus(c: Calls): Calls {
      Calls(accepted + c.accepted, closed + c.closed, yielded + c.yielded, hangups + c.hangups)
    }
  }

  const NO_CALLS: Calls := Calls(0, 0, 0, 0)

  /** Only a queue that has been drained closes its socket and yields. */
  function Ended(end: QueueEnd): nat {
    if end == Drained then 1 else 0
  }

  function EndIn(id: string, s: Sink, i: Input): QueueEnd
    requires i.socket.Accepted?
  {
    Finished(QueueAfter(id, Run(s.link, i.before), i.socket.rx)).end
  }

  predicate Accepts(s: Sink, i: Input) {
    IsListening(s) && i.socket.Accepted?
  }

  function CallsIn(id: string, s: Sink, i: Input): Calls {
    if !Accepts(s, i) then NO_CALLS
    else
      var end := EndIn(id, s, i);
      Calls(1, Ended(end), Ended(end), if end == ClientGone then 1 else 0)
  }

  /** The calls of the first n ticks. */
  function AllCalls(id: string, s: Sink, inputs: Inputs, n: nat): Calls {
    if n == 0 then NO_CALLS
    else
      var t := At(id, s, inputs, n - 1);
      AllCalls(id, s, inputs, n - 1).Plus(if Running(t) then CallsIn(id, t, inputs(n - 1)) else NO_CALLS)
  }

  /** The tick accepts a connection that it gives up, going by what is received alone. */
  predicate GivesUp(s: Sink, i: Input) {
    Accepts(s, i) && GivenUp(i.socket.rx)
  }

  /** How many of the first n ticks do so. */
  function GivenUpIn(id: string, s: Sink, inputs: Inputs, n: nat): nat {
    if n == 0 then 0
    else
      var t := At(id, s, inputs, n - 1);
      GivenUpIn(id, s, inputs, n - 1) + if Running(t) && GivesUp(t, inputs(n - 1)) then 1 else 0
  }

  /** How many of the first n ticks accept a connection, and find the client gone. */
  function AcceptedIn(id: string, s: Sink, inputs: Inputs, n: nat): nat {
    if n == 0 then 0
    else
      var t := At(id, s, inputs, n - 1);
      AcceptedIn(id, s, inputs, n - 1) + if Running(t) && Accepts(t, inputs(n - 1)) then 1 else 0
  }

  function LostIn(id: string, s: Sink, inputs: Inputs, n: nat): nat {
    if n == 0 then 0
    else
      var t := At(id, s, inputs, n - 1);
      LostIn(id, s, inputs, n - 1) + if Running(t) && LosesIt(t, inputs(n - 1)) then 1 else 0
  }

  /** Over every run, every accepted socket is counted, the client is disconnected once for every time it is
      found gone, and gets its turn once for every socket closed; and the sockets left open are exactly those
      whose first receive to stop the queue is of 1..31 bytes other than 11, or is a mapped packet that finds
      no client. */
  lemma {:induction false} SocketsLeftOpen(id: string, s: Sink, inputs: Inputs, n: nat)
    ensures var c := AllCalls(id, s, inputs, n);
            && c.accepted == AcceptedIn(id, s, inputs, n) && c.hangups == LostIn(id, s, inputs, n)
            && c.yielded == c.closed && c.accepted == c.closed + GivenUpIn(id, s, inputs, n)
    decreases n
  {
    hide At, EndIn, GivenUp, LosesClient;
    if n > 0 {
      SocketsLeftOpen(id, s, inputs, n - 1);
      var t, i := At(id, s, inputs, n - 1), inputs(n - 1);
      if Accepts(t, i) {
        EndsDrained(id, t, i);
      }
    }
  }

  lemma EndsDrained(id: string, s: Sink, i: Input)
    requires i.socket.Accepted?
    ensures EndIn(id, s, i) == Drained <==> !GivenUp(i.socket.rx)
    ensures EndIn(id, s, i) == ClientGone <==> LosesClient(i.socket.rx)
  {
    DrainedExactly(id, Run(s.link, i.before), i.socket.rx);
    ClientGoneExactly(id, Run(s.link, i.before), i.socket.rx);
  }

  // ----- termination -----

  /** The tick is not idle: a connection attempt fails, a socket is accepted, or an exception is thrown. */
  predicate Disturbs(s: Sink, i: Input) {
    match s.state
    case NotConnected => ConnectStatus(Run(s.link, i.before), i.open) != CONNECTED
    case LinkUp => !i.mqtt
    case ListeningConnected => i.socket != Idle
    case ListeningDisconnected => false
  }

  /** How many of the first n ticks of the loop are not idle. */
  function Disturbances(id: string, s: Sink, inputs: Inputs, n: nat): nat {
    if n == 0 then 0
    else
      var t := At(id, s, inputs, n - 1);
      Disturbances(id, s, inputs, n - 1) + if Running(t) && Disturbs(t, inputs(n - 1)) then 1 else 0
  }

  /** How many idle ticks remain. */
  function Rank(s: Sink): int {
    match s.state
    case NotConnected => MAX_LISTEN_ITERATIONS_COUNT + 2
    case LinkUp => MAX_LISTEN_ITERATIONS_COUNT + 1
    case _ => MAX_LISTEN_ITERATIONS_COUNT - s.count
  }

  lemma TickRank(id: string, s: Sink, i: Input)
    requires Inv(s) && Running(s)
    ensures 0 <= Rank(Tick(id, s, i)) <= 7
    ensures !Disturbs(s, i) ==> Rank(Tick(id, s, i)) == Rank(s) - 1
  {}

  /** As long as the loop runs, n ticks need at least (n - 7) / 8 disturbances. */
  lemma {:induction false} TicksAreBounded(id: string, s: Sink, inputs: Inputs, n: nat)
    requires Inv(s) && Running(s)
    requires forall k :: 0 <= k < n ==> Running(At(id, s, inputs, k))
    ensures n + Rank(At(id, s, inputs, n)) <= 7 + 8 * Disturbances(id, s, inputs, n)
    decreases n
  {
    hide Tick, Disturbs;
    if n > 0 {
      TicksAreBounded(id, s, inputs, n - 1);
      var t := At(id, s, inputs, n - 1);
      RunKeepsInv(id, s, inputs, n - 1);
      assert Running(t);
      TickRank(id, t, inputs(n - 1));
      if Disturbs(t, inputs(n - 1)) {
        assert Rank(t) >= 1;
      }
    }
  }

  /** The loop ends after n ticks. */
  predicate EndsAt(id: string, s: Sink, inputs: Inputs, n: nat) {
    !Running(At(id, s, inputs, n)) && forall k :: 0 <= k < n ==> Running(At(id, s, inputs, k))
  }

  /** With at most `budget` disturbances the loop ends within 8 * budget + 7 ticks, having counted to 5
      while listening. */
  lemma LoopEnds(id: string, s: Sink, inputs: Inputs, budget: nat) returns (n: nat)
    requires Inv(s) && Running(s)
    requires forall k: nat :: Disturbances(id, s, inputs, k) <= budget
    ensures n <= 8 * budget + 7 && EndsAt(id, s, inputs, n)
    ensures At(id, s, inputs, n).count == MAX_LISTEN_ITERATIONS_COUNT
            && At(id, s, inputs, n).state == ListeningConnected
  {
    n := 0;
    while Running(At(id, s, inputs, n))
      invariant n <= 8 * budget + 7
      invariant forall k :: 0 <= k < n ==> Running(At(id, s, inputs, k))
      decreases 8 * budget + 7 - n
    {
      StillBounded(id, s, inputs, budget, n);
      n := n + 1;
    }
    RunKeepsInv(id, s, inputs, n);
  }

  lemma BeforeEnd(id: string, s: Sink, inputs: Inputs, last: nat, k: nat)
    requires EndsAt(id, s, inputs, last) && k <= last
    ensures Running(At(id, s, inputs, k)) <==> k < last
  {}

  lemma InvAt(id: string, s: Sink, inputs: Inputs, n: nat)
    requires Inv(s)
    ensures Inv(At(id, s, inputs, n))
  {
    RunKeepsInv(id, s, inputs, n);
  }

  // ----- why it ends -----

  predicate IsListening(s: Sink) {
    s.state == ListeningConnected
  }

  /** Idle polls since the last tick that was anything but an idle poll or a broken socket. */
  function IdlePolls(id: string, s: Sink, inputs: Inputs, n: nat): nat {
    if n == 0 then 0
    else
      var t, i := At(id, s, inputs, n - 1), inputs(n - 1);
      if IsListening(t) && i.socket == Idle then IdlePolls(id, s, inputs, n - 1) + 1
      else if IsListening(t) && i.socket == Broken then IdlePolls(id, s, inputs, n - 1)
      else 0
  }

  lemma TickCounts(id: string, s: Sink, i: Input)
    requires Inv(s) && Running(s)
    ensures var s' := Tick(id, s, i);
            if IsListening(s) && i.socket == Idle then s' == s.(count := s.count + 1, link := s'.link)
            else if IsListening(s) && i.socket == Broken then s' == s.(link := s'.link)
            else s'.count == if Accepts(s, i) && EndIn(id, s, i) == Drained then 1 else 0
  {}

  /** The last tick that was anything but an idle poll or a broken socket drained a connection. */
  predicate AfterDraining(id: string, s: Sink, inputs: Inputs, n: nat) {
    n > 0 &&
    var t, i := At(id, s, inputs, n - 1), inputs(n - 1);
    if IsListening(t) && (i.socket == Idle || i.socket == Broken) then AfterDraining(id, s, inputs, n - 1)
    else Accepts(t, i) && !GivenUp(i.socket.rx)
  }

  /** The count is the number of idle polls since then, plus one exactly if that tick drained a connection. */
  lemma {:induction false} CountIsIdlePolls(id: string, s: Sink, inputs: Inputs, n: nat)
    requires Inv(s) && s.count == 0
    requires forall k :: 0 <= k < n ==> Running(At(id, s, inputs, k))
    ensures At(id, s, inputs, n).count ==
              IdlePolls(id, s, inputs, n) + if AfterDraining(id, s, inputs, n) then 1 else 0
    decreases n
  {
    hide Tick, Inv, EndIn, GivenUp;
    if n > 0 {
      CountIsIdlePolls(id, s, inputs, n - 1);
      var t, i := At(id, s, inputs, n - 1), inputs(n - 1);
      assert Running(t);
      RunKeepsInv(id, s, inputs, n - 1);
      TickCounts(id, t, i);
      if Accepts(t, i) {
        EndsDrained(id, t, i);
      }
    }
  }

  /** The loop ends only after at least four idle polls, with nothing but broken sockets among them. */
  lemma ExitAfterFourIdlePolls(id: string, s: Sink, inputs: Inputs, n: nat)
    requires Inv(s) && s.count == 0
    requires EndsAt(id, s, inputs, n)
    ensures IdlePolls(id, s, inputs, n) >= 4
  {
    CountIsIdlePolls(id, s, inputs, n);
    RunKeepsInv(id, s, inputs, n);
  }

  predicate IdlePoll(id: string, s: Sink, inputs: Inputs, k: nat) {
    IsListening(At(id, s, inputs, k)) && inputs(k).socket == Idle
  }

  lemma LastTickCounts(id: string, s: Sink, inputs: Inputs, n: nat)
    requires Inv(s) && s.count == 0 && n > 0 && Running(At(id, s, inputs, n - 1))
    requires At(id, s, inputs, n).count >= 2 && inputs(n - 1).socket != Broken
    ensures IdlePoll(id, s, inputs, n - 1)
    ensures At(id, s, inputs, n - 1).count == At(id, s, inputs, n).count - 1
  {
    RunKeepsInv(id, s, inputs, n - 1);
  }

  /** Where no socket was broken, the count goes back one idle poll at a time. */
  lemma {:induction false} LastTicksIdle(id: string, s: Sink, inputs: Inputs, n: nat, k: nat)
    requires Inv(s) && s.count == 0 && k <= n && At(id, s, inputs, n).count > k
    requires forall j :: n - k <= j < n ==> Running(At(id, s, inputs, j)) && inputs(j).socket != Broken
    ensures forall j :: n - k <= j < n ==> IdlePoll(id, s, inputs, j)
    decreases k
  {
    hide At, IdlePoll, Inv;
    if k > 0 {
      LastTickCounts(id, s, inputs, n);
      LastTicksIdle(id, s, inputs, n - 1, k - 1);
    }
  }

  /** The four polls before the end are idle, consecutively, exactly when none of them met a broken
      socket: an error accepting a connection does not reset the count. */
  lemma ExitConsecutive(id: string, s: Sink, inputs: Inputs, n: nat)
    requires Inv(s) && s.count == 0
    requires EndsAt(id, s, inputs, n)
    ensures n >= 4
    ensures (forall k :: n - 4 <= k < n ==> IdlePoll(id, s, inputs, k)) <==>
            (forall k :: n - 4 <= k < n ==> inputs(k).socket != Broken)
  {
    hide At, IdlePolls, Tick;
    RunKeepsInv(id, s, inputs, n);
    ExitAfterFourIdlePolls(id, s, inputs, n);
    IdlePollsAtMost(id, s, inputs, n);
    if forall k :: n - 4 <= k < n ==> inputs(k).socket != Broken {
      LastTicksIdle(id, s, inputs, n, 4);
    }
    if forall k :: n - 4 <= k < n ==> IdlePoll(id, s, inputs, k) {
      forall k | n - 4 <= k < n
        ensures inputs(k).socket != Broken
      {
        assert IdlePoll(id, s, inputs, k);
      }
    }
  }

  lemma {:induction false} IdlePollsAtMost(id: string, s: Sink, inputs: Inputs, n: nat)
    ensures IdlePolls(id, s, inputs, n) <= n
    decreases n
  {
    if n > 0 {
      IdlePollsAtMost(id, s, inputs, n - 1);
    }
  }

  /** A run that ends although its last four polls are not all idle: three idle polls, a broken socket,
      two idle polls. */
  lemma BrokenSocketInBetween(id: string, link: Link)
    ensures var s := Sink(ListeningConnected, 0, link);
            var inputs: Inputs := n => Input([], false, false, if n == 3 then Broken else Idle);
            && Running(At(id, s, inputs, 5)) && !Running(At(id, s, inputs, 6))
            && !IdlePoll(id, s, inputs, 3)
  {
    var s := Sink(ListeningConnected, 0, link);
    var inputs: Inputs := n => Input([], false, false, if n == 3 then Broken else Idle);
    assert At(id, s, inputs, 1) == Sink(ListeningConnected, 1, link);
    assert At(id, s, inputs, 2) == Sink(ListeningConnected, 2, link);
    assert At(id, s, inputs, 3) == Sink(ListeningConnected, 3, link);
    assert At(id, s, inputs, 4) == Sink(ListeningConnected, 3, link);
    assert At(id, s, inputs, 5) == Sink(ListeningConnected, 4, link);
    assert At(id, s, inputs, 6) == Sink(ListeningConnected, 5, link);
  }

  /** After the loop the sink disconnects; from then on the network is not ready. */
  lemma NotReadyAfterExit(s: Sink)
    requires Inv(s)
    ensures !AfterDisconnect(s.link).ready && AfterDisconnect(s.link).ppp != Connected
  {}

  // ----- the object -----

  class SinkSocket {
    /** How many connections have been accepted, and closed again. */
    var accepted: nat
    var closed: nat

    constructor ()
      ensures accepted == closed == 0
    {
      accepted, closed := 0, 0;
    }

    method Accept()
      modifies this`accepted
      ensures accepted == old(accepted) + 1
    {
      accepted := accepted + 1;
    }

    method Disconnect()
      modifies this`closed
      ensures closed == old(closed) + 1
    {
      closed := closed + 1;
    }
  }

  class SgmSink {
    const itsSinkProtocol: MqttProtocol
    const itsPppConnection: PppConnection
    const itsSinkSocket: SinkSocket
    var itsCurrentState: SinkState
    var listenIterationsCount: nat

    ghost predicate Valid()
      reads this, itsPppConnection
    {
      itsSinkProtocol.Valid() && itsPppConnection.Valid() && !itsPppConnection.terminate
      && itsPppConnection.callbackList == [itsSinkProtocol]
    }

    /** The calls made so far to socket and client library. */
    ghost function Made(): Calls
      reads itsSinkProtocol, itsSinkSocket
    {
      Calls(itsSinkSocket.accepted, itsSinkSocket.closed, itsSinkProtocol.yielded, itsSinkProtocol.hangups)
    }

    ghost function LinkView(): Link
      requires itsPppConnection.Valid()
      reads itsSinkProtocol, itsPppConnection, itsPppConnection.itsSharedMemory, itsPppConnection.cmuxReadyFlag.values
    {
      itsPppConnection.View(itsSinkProtocol.isNetworkReady)
    }

    ghost function View(): Sink
      requires itsPppConnection.Valid()
      reads this, itsSinkProtocol, itsPppConnection, itsPppConnection.itsSharedMemory,
            itsPppConnection.cmuxReadyFlag.values
    {
      Sink(itsCurrentState, listenIterationsCount, LinkView())
    }

    /** Registers the protocol with a link that nobody has used yet. */
    constructor (protocol: MqttProtocol, ppp: PppConnection)
      requires protocol.Valid() && ppp.Valid() && !protocol.isNetworkReady
      requires !ppp.terminate && ppp.callbackList == [] && ppp.itsCurrentState == NoConnection
      modifies ppp`callbackList
      ensures Valid() && itsSinkProtocol == protocol && itsPppConnection == ppp && fresh(itsSinkSocket)
      ensures itsSinkSocket.accepted == itsSinkSocket.closed == 0
      ensures Inv(View()) && View().state == NotConnected && View().count == 0
    {
      itsSinkProtocol, itsPppConnection := protocol, ppp;
      itsCurrentState, listenIterationsCount := NotConnected, 0;
      itsSinkSocket := new SinkSocket();
      new;
      itsPppConnection.RegisterUserCallback(itsSinkProtocol);
    }

    /** What happens to the link outside the sink's own calls. */
    method Environment(steps: seq<LinkStep>)
      requires Valid()
      modifies itsSinkProtocol`isNetworkReady, itsPppConnection`itsCurrentState, itsPppConnection`isPowerMonitorOn
      modifies itsPppConnection.itsSharedMemory, itsPppConnection.cmuxReadyFlag.values
      ensures Valid() && LinkView() == Run(old(LinkView()), steps)
    {
      for k := 0 to |steps|
        invariant Valid() && Run(LinkView(), steps[k..]) == Run(old(LinkView()), steps)
      {
        assert steps[k..][1..] == steps[k + 1..];
        match steps[k] {
          case SetCmux(on) => itsPppConnection.itsSharedMemory.cmuxReady := on;
          case DoConnect(open) => var status := itsPppConnection.Connect(open);
          case DoDisconnect => var status := itsPppConnection.Disconnect();
          case DoPoll(open) => var again := itsPppConnection.PowerMonitorTurn(open);
        }
      }
    }

    /** One receive's worth of the queue. */
    method ReceiveOne(r: Rx) returns (end: QueueEnd)
      requires Valid()
      modifies itsSinkProtocol`isNetworkReady, itsSinkProtocol`itsTopicBuffer, itsSinkProtocol`published,
               itsSinkProtocol.itsMessageBuffer
      modifies itsPppConnection`itsCurrentState, itsPppConnection`isPowerMonitorOn
      modifies itsPppConnection.itsSharedMemory, itsPppConnection.cmuxReadyFlag.values
      ensures Valid()
      ensures var q := Receive(itsSinkProtocol.mqttClientId, Queue(old(LinkView()), [], Open), r);
              && LinkView() == q.link && end == q.end
              && itsSinkProtocol.published == old(itsSinkProtocol.published) + Texts(q.sent)
    {
      hide Run, MessageFor, Texts;
      NoTexts();
      Environment(r.before);
      if r.size == EAGAIN || r.size == 0 {
        return Drained;
      }
      if r.size < PACKET_SIZE {
        return BadPacket;
      }
      var sendingResult := itsSinkProtocol.SendMessage(r.packet, r.client);
      end := if sendingResult == NO_CONNECTION then ClientGone else Open;
      if sendingResult == MESSAGE_SENT {
        ghost var m := Sent(MessageFor(itsSinkProtocol.mqttClientId, r.packet), itsPppConnection.itsCurrentState);
        TextOfOne(m);
        assert [] + [m] == [m];
      }
    }

    /** The queue of one accepted connection, until it has no more data or must be given up. */
    method DrainConnection(rx: seq<Rx>) returns (end: QueueEnd)
      requires Valid()
      modifies itsSinkProtocol`isNetworkReady, itsSinkProtocol`itsTopicBuffer, itsSinkProtocol`published,
               itsSinkProtocol`yielded
      modifies itsSinkProtocol.itsMessageBuffer, itsSinkSocket`closed
      modifies itsPppConnection`itsCurrentState, itsPppConnection`isPowerMonitorOn
      modifies itsPppConnection.itsSharedMemory, itsPppConnection.cmuxReadyFlag.values
      ensures Valid()
      ensures var q := Finished(QueueAfter(itsSinkProtocol.mqttClientId, old(LinkView()), rx));
              && LinkView() == q.link && end == q.end
              && itsSinkProtocol.published == old(itsSinkProtocol.published) + Texts(q.sent)
      ensures Made() == old(Made()).Plus(Calls(0, Ended(end), Ended(end), 0))
    {
      hide Receive;
      ghost var id, link, before := itsSinkProtocol.mqttClientId, LinkView(), itsSinkProtocol.published;
      end := Open;
      var k := 0;
      while end == Open && k < |rx|
        invariant Valid() && k <= |rx| && Made() == old(Made())
        invariant var q := QueueAfter(id, link, rx[..k]);
                  q.link == LinkView() && q.end == end && itsSinkProtocol.published == before + Texts(q.sent)
      {
        ghost var q := QueueAfter(id, link, rx[..k]);
        assert rx[..k + 1][..k] == rx[..k];
        end := ReceiveOne(rx[k]);
        ReceiveAppends(id, q, rx[k]);
        k := k + 1;
      }
      if end == Open {
        assert rx[..k] == rx;
        end := Drained;
      } else {
        ClosedQueue(id, link, rx, k);
      }
      if end == Drained {
        itsSinkSocket.Disconnect();
        itsSinkProtocol.Yield();
      }
    }

    /** Says whether the tick is to be counted as done, abandoned with a runtime error, or lost its client. */
    method ProcessMessageQueue(socket: Socket) returns (end: QueueEnd)
      requires Valid()
      modifies this`listenIterationsCount, itsSinkProtocol, itsSinkProtocol.itsMessageBuffer, itsSinkSocket
      modifies itsPppConnection`itsCurrentState, itsPppConnection`isPowerMonitorOn
      modifies itsPppConnection.itsSharedMemory, itsPppConnection.cmuxReadyFlag.values
      ensures Valid()
      ensures match socket
              case Idle =>
                && end == Drained && listenIterationsCount == old(listenIterationsCount)
                && LinkView() == old(LinkView()) && Made() == old(Made())
                && itsSinkProtocol.published == old(itsSinkProtocol.published)
              case Broken =>
                && end == BadPacket && listenIterationsCount == old(listenIterationsCount)
                && LinkView() == old(LinkView()) && Made() == old(Made())
                && itsSinkProtocol.published == old(itsSinkProtocol.published)
              case Accepted(rx) =>
                var q := Finished(QueueAfter(itsSinkProtocol.mqttClientId, old(LinkView()), rx));
                && end == q.end && listenIterationsCount == 0 && LinkView() == q.link
                && itsSinkProtocol.published == old(itsSinkProtocol.published) + Texts(q.sent)
                && Made() == old(Made()).Plus(Calls(1, Ended(end), Ended(end), 0))
    {
      match socket
      case Idle => end := Drained;
      case Broken => end := BadPacket;
      case Accepted(rx) =>
        itsSinkSocket.Accept();
        listenIterationsCount := 0;
        end := DrainConnection(rx);
    }

    /** The listening part of a tick. */
    method Listen(socket: Socket)
      requires Valid() && itsCurrentState == ListeningConnected
      modifies this`itsCurrentState, this`listenIterationsCount
      modifies itsSinkProtocol, itsSinkProtocol.itsMessageBuffer, itsSinkSocket
      modifies itsPppConnection`itsCurrentState, itsPppConnection`isPowerMonitorOn
      modifies itsPppConnection.itsSharedMemory, itsPppConnection.cmuxReadyFlag.values
      ensures Valid()
      ensures var id, i := itsSinkProtocol.mqttClientId, OnlySocket(socket);
              && View() == Tick(id, old(View()), i)
              && itsSinkProtocol.published == old(itsSinkProtocol.published) + Texts(SentIn(id, old(View()), i))
              && Made() == old(Made()).Plus(CallsIn(id, old(View()), i))
    {
      hide QueueAfter, AfterConnect, ConnectStatus, Texts;
      NoTexts();
      var end := ProcessMessageQueue(socket);
      if end == ClientGone {
        itsSinkProtocol.Disconnect();
        listenIterationsCount := 0;
        itsCurrentState := NotConnected;
      } else if end != BadPacket {
        listenIterationsCount := listenIterationsCount + 1;
      }
    }

    /** One tick: the sink moves as on values, publishes what `SentIn` says, and calls socket and client
        library as `CallsIn` says. */
    method DoTick(i: Input)
      requires Valid()
      modifies this`itsCurrentState, this`listenIterationsCount
      modifies itsSinkProtocol, itsSinkProtocol.itsMessageBuffer, itsSinkSocket
      modifies itsPppConnection`itsCurrentState, itsPppConnection`isPowerMonitorOn
      modifies itsPppConnection.itsSharedMemory, itsPppConnection.cmuxReadyFlag.values
      ensures Valid()
      ensures View() == Tick(itsSinkProtocol.mqttClientId, old(View()), i)
      ensures itsSinkProtocol.published ==
                old(itsSinkProtocol.published) + Texts(SentIn(itsSinkProtocol.mqttClientId, old(View()), i))
      ensures Made() == old(Made()).Plus(CallsIn(itsSinkProtocol.mqttClientId, old(View()), i))
    {
      hide Run, QueueAfter, AfterConnect, ConnectStatus, Texts;
      NoTexts();
      ghost var s := View();
      Environment(i.before);
      match itsCurrentState
      case NotConnected =>
        ConnectStatusForAll(LinkView(), i.open);
        var status := itsPppConnection.Connect(i.open);
        if status == CONNECTED {
          itsCurrentState := LinkUp;
        }
      case LinkUp =>
        if i.mqtt {
          listenIterationsCount := 0;
          itsCurrentState := ListeningConnected;
        }
      case ListeningConnected =>
        hide Tick, SentIn, CallsIn;
        ListeningAfterwards(itsSinkProtocol.mqttClientId, s, i);
        Listen(i.socket);
      case ListeningDisconnected =>
        listenIterationsCount := listenIterationsCount + 1;
    }

    /** Since `published` and `made` the sink has done what n ticks from s do on values. */
    ghost predicate Traced(s: Sink, inputs: Inputs, n: nat, published: seq<Message>, made: Calls)
      requires itsPppConnection.Valid()
      reads this, itsSinkProtocol, itsSinkSocket
      reads itsPppConnection, itsPppConnection.itsSharedMemory, itsPppConnection.cmuxReadyFlag.values
    {
      var id := itsSinkProtocol.mqttClientId;
      && View() == At(id, s, inputs, n)
      && itsSinkProtocol.published == published + Texts(AllSent(id, s, inputs, n))
      && Made() == made.Plus(AllCalls(id, s, inputs, n))
    }

    method LoopTurn(inputs: Inputs, n: nat, ghost s: Sink, ghost published: seq<Message>, ghost made: Calls)
      requires Valid() && Running(View()) && Traced(s, inputs, n, published, made)
      modifies this`itsCurrentState, this`listenIterationsCount
      modifies itsSinkProtocol, itsSinkProtocol.itsMessageBuffer, itsSinkSocket
      modifies itsPppConnection`itsCurrentState, itsPppConnection`isPowerMonitorOn
      modifies itsPppConnection.itsSharedMemory, itsPppConnection.cmuxReadyFlag.values
      ensures Valid() && Traced(s, inputs, n + 1, published, made)
    {
      hide Tick, SentIn, CallsIn, Texts, Run, At, AllSent, AllCalls;
      ghost var id, t := itsSinkProtocol.mqttClientId, View();
      DoTick(inputs(n));
      TextsConcat(AllSent(id, s, inputs, n), SentIn(id, t, inputs(n)));
      OneMore(id, s, inputs, n);
    }

    method Loop(inputs: Inputs, ghost budget: nat) returns (ticks: nat)
      requires Valid() && Inv(View()) && Running(View())
      requires forall k: nat :: Disturbances(itsSinkProtocol.mqttClientId, View(), inputs, k) <= budget
      modifies this`itsCurrentState, this`listenIterationsCount
      modifies itsSinkProtocol, itsSinkProtocol.itsMessageBuffer, itsSinkSocket
      modifies itsPppConnection`itsCurrentState, itsPppConnection`isPowerMonitorOn
      modifies itsPppConnection.itsSharedMemory, itsPppConnection.cmuxReadyFlag.values
      ensures Valid() && ticks <= 8 * budget + 7 && !Running(View()) && Inv(View())
      ensures Traced(old(View()), inputs, ticks, old(itsSinkProtocol.published), old(Made()))
    {
      ghost var id, s, published, made := itsSinkProtocol.mqttClientId, View(), itsSinkProtocol.published, Made();
      ghost var last := LoopEnds(id, s, inputs, budget);
      TracedAtStart(s, inputs);
      ticks := 0;
      hide Traced, At, Inv, Disturbances, EndsAt;
      while listenIterationsCount < MAX_LISTEN_ITERATIONS_COUNT
        invariant Valid() && Traced(s, inputs, ticks, published, made) && ticks <= last
        decreases last - ticks
      {
        TracedSink(s, inputs, ticks, published, made);
        BeforeEnd(id, s, inputs, last, ticks);
        LoopTurn(inputs, ticks, s, published, made);
        ticks := ticks + 1;
      }
      TracedSink(s, inputs, ticks, published, made);
      InvAt(id, s, inputs, ticks);
    }

    lemma TracedSink(s: Sink, inputs: Inputs, n: nat, published: seq<Message>, made: Calls)
      requires itsPppConnection.Valid() && Traced(s, inputs, n, published, made)
      ensures View() == At(itsSinkProtocol.mqttClientId, s, inputs, n)
      ensures Running(View()) <==> listenIterationsCount < MAX_LISTEN_ITERATIONS_COUNT
    {}

    lemma TracedAtStart(s: Sink, inputs: Inputs)
      requires itsPppConnection.Valid() && s == View()
      ensures Traced(s, inputs, 0, itsSinkProtocol.published, Made())
    {
      AtStart(itsSinkProtocol.mqttClientId, s, inputs);
      NoTexts();
    }

    /** The main loop: it ends within a bound linear in the disturbances, having published and called what
        the run on values does, and disconnects. */
    method Operate(inputs: Inputs, ghost budget: nat) returns (ticks: nat)
      requires Valid() && Inv(View()) && Running(View())
      requires forall k: nat :: Disturbances(itsSinkProtocol.mqttClientId, View(), inputs, k) <= budget
      modifies this`itsCurrentState, this`listenIterationsCount
      modifies itsSinkProtocol, itsSinkProtocol.itsMessageBuffer, itsSinkSocket
      modifies itsPppConnection`itsCurrentState, itsPppConnection`isPowerMonitorOn
      modifies itsPppConnection.itsSharedMemory, itsPppConnection.cmuxReadyFlag.values
      ensures ticks <= 8 * budget + 7
      ensures listenIterationsCount == MAX_LISTEN_ITERATIONS_COUNT
      ensures var id := itsSinkProtocol.mqttClientId;
              && LinkView() == AfterDisconnect(At(id, old(View()), inputs, ticks).link)
              && itsSinkProtocol.published ==
                   old(itsSinkProtocol.published) + Texts(AllSent(id, old(View()), inputs, ticks))
              && Made() == old(Made()).Plus(AllCalls(id, old(View()), inputs, ticks)).Plus(Calls(0, 0, 0, 1))
      ensures !itsSinkProtocol.isNetworkReady
    {
      hide At, AllSent, AllCalls, Disturbances, Texts;
      ticks := Loop(inputs, budget);
      NotReadyAfterExit(View());
      itsSinkProtocol.Disconnect();
      var status := itsPppConnection.Disconnect();
    }
  }

  lemma AtStart(id: string, s: Sink, inputs: Inputs)
    ensures At(id, s, inputs, 0) == s && AllSent(id, s, inputs, 0) == [] && AllCalls(id, s, inputs, 0) == NO_CALLS
  {}

  lemma OneMore(id: string, s: Sink, inputs: Inputs, n: nat)
    requires Running(At(id, s, inputs, n))
    ensures var t := At(id, s, inputs, n);
            && At(id, s, inputs, n + 1) == Tick(id, t, inputs(n))
            && AllSent(id, s, inputs, n + 1) == AllSent(id, s, inputs, n) + SentIn(id, t, inputs(n))
            && AllCalls(id, s, inputs, n + 1) == AllCalls(id, s, inputs, n).Plus(CallsIn(id, t, inputs(n)))
  {
    hide Tick, SentIn, CallsIn;
  }

  function OnlySocket(socket: Socket): Input {
    Input([], false, false, socket)
  }

  /** While listening, a tick is what happens outside followed by what the socket yields. */
  lemma ListeningAfterwards(id: string, s: Sink, i: Input)
    requires IsListening(s)
    ensures var s', i' := s.(link := Run(s.link, i.before)), OnlySocket(i.socket);
            && Tick(id, s, i) == Tick(id, s', i')
            && SentIn(id, s, i) == SentIn(id, s', i')
            && CallsIn(id, s, i) == CallsIn(id, s', i')
  {
    hide QueueAfter;
  }

  /** A loop that still runs after n ticks has ticks to spare. */
  lemma StillBounded(id: string, s: Sink, inputs: Inputs, budget: nat, n: nat)
    requires Inv(s) && Running(s)
    requires forall k: nat :: Disturbances(id, s, inputs, k) <= budget
    requires forall k :: 0 <= k <= n ==> Running(At(id, s, inputs, k))
    ensures n < 8 * budget + 7
  {
    TicksAreBounded(id, s, inputs, n);
    RunKeepsInv(id, s, inputs, n);
    assert Disturbances(id, s, inputs, n) <= budget;
    assert Rank(At(id, s, inputs, n)) >= 1;
  }

  /** Receiving on an open queue only appends to what has been sent. */
  lemma ReceiveAppends(id: string, q: Queue, r: Rx)
    requires q.end == Open
    ensures var one := Receive(id, Queue(q.link, [], Open), r);
            && Receive(id, q, r) == Queue(one.link, q.sent + one.sent, one.end)
            && Texts(q.sent + one.sent) == Texts(q.sent) + Texts(one.sent)
  {
    var one := Receive(id, Queue(q.link, [], Open), r);
    TextsConcat(q.sent, one.sent);
  }
}

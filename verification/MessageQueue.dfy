/** One accepted connection: the sink receives its packets and forwards them, until there is no more
    data, a packet is bad, or the client is gone. */
module MessageQueue {
  import opened SgmData
  import opened MqttProtocol
  import opened PppConnection

  const EAGAIN := 11
  const PACKET_SIZE := 32

  /** One receive from an accepted connection: what monitor and modem do first, the size reported, the
      packet, and whether the client library says it is connected when asked. */
  datatype Rx = Rx(before: seq<LinkStep>, size: nat, packet: SgmProcessData, client: bool)

  datatype QueueEnd = Open | Drained | BadPacket | ClientGone

  /** A message sent, and the state of the link at that moment. */
  datatype Sent = Sent(message: Message, ppp: PppState)

  datatype Queue = Queue(link: Link, sent: seq<Sent>, end: QueueEnd)

  function Receive(id: string, q: Queue, r: Rx): Queue {
    if q.end != Open then q
    else
      var q' := q.(link := Run(q.link, r.before));
      if r.size == EAGAIN || r.size == 0 then q'.(end := Drained)
      else if r.size < PACKET_SIZE then q'.(end := BadPacket)
      else
        match SendResult(r.packet, r.client, q'.link.ready)
        case MESSAGE_SENT => q'.(sent := q.sent + [Sent(MessageFor(id, r.packet), q'.link.ppp)])
        case NO_CONNECTION => q'.(end := ClientGone)
        case _ => q'
  }

  function QueueAfter(id: string, link: Link, rx: seq<Rx>): Queue {
    if rx == [] then Queue(link, [], Open) else Receive(id, QueueAfter(id, link, rx[..|rx| - 1]), rx[|rx| - 1])
  }

  /** When the connection has nothing more to give, it reports no data. */
  function Finished(q: Queue): Queue {
    if q.end == Open then q.(end := Drained) else q
  }

  function Texts(sent: seq<Sent>): (m: seq<Message>)
    ensures |m| == |sent|
  {
    if sent == [] then [] else Texts(sent[..|sent| - 1]) + [sent[|sent| - 1].message]
  }

  lemma {:induction false} TextsConcat(a: seq<Sent>, b: seq<Sent>)
    ensures Texts(a + b) == Texts(a) + Texts(b)
    decreases |b|
  {
    if b == [] {
      assert a + b == a;
    } else {
      assert (a + b)[..|a + b| - 1] == a + b[..|b| - 1];
      TextsConcat(a, b[..|b| - 1]);
    }
  }

  lemma TextOfOne(m: Sent)
    ensures Texts([m]) == [m.message]
  {
    assert [m][..0] == [];
  }

  // What the queue does, packet by packet and without running it.

  /** The receive ends the queue: no data, a short packet, or a valid packet without a client. */
  predicate Stops(r: Rx) {
    r.size == EAGAIN || r.size < PACKET_SIZE || (Mapped(r.packet) && !r.client)
  }

  /** The link when packet k is sent. */
  function LinkAt(link: Link, rx: seq<Rx>): Link {
    if rx == [] then link else Run(LinkAt(link, rx[..|rx| - 1]), rx[|rx| - 1].before)
  }

  predicate Publishable(link: Link, rx: seq<Rx>, k: nat)
    requires k < |rx|
  {
    Mapped(rx[k].packet) && rx[k].client && LinkAt(link, rx[..k + 1]).ready
  }

  /** The publishable packets among the first n, in order, as messages. */
  function Selected(id: string, link: Link, rx: seq<Rx>, n: nat): seq<Message>
    requires n <= |rx|
  {
    if n == 0 then []
    else Selected(id, link, rx, n - 1)
         + if Publishable(link, rx, n - 1) then [MessageFor(id, rx[n - 1].packet)] else []
  }

  predicate DroppedInvalid(r: Rx) {
    !Mapped(r.packet)
  }

  predicate DroppedNetworkDown(link: Link, rx: seq<Rx>, k: nat)
    requires k < |rx|
  {
    Mapped(rx[k].packet) && rx[k].client && !LinkAt(link, rx[..k + 1]).ready
  }

  /** One receive that does not stop an open queue. */
  lemma OpenReceive(id: string, q: Queue, r: Rx)
    requires q.end == Open && !Stops(r)
    ensures var q', link := Receive(id, q, r), Run(q.link, r.before);
            && q'.end == Open && q'.link == link
            && Texts(q'.sent) == Texts(q.sent) + if Mapped(r.packet) && r.client && link.ready
                                                 then [MessageFor(id, r.packet)] else []
  {
    var link := Run(q.link, r.before);
    if Mapped(r.packet) && link.ready {
      var m := Sent(MessageFor(id, r.packet), link.ppp);
      TextsConcat(q.sent, [m]);
      TextOfOne(m);
    }
  }

  /** While nothing stops the queue it stays open, follows the link, and sends the publishable packets. */
  lemma {:induction false} OpenQueue(id: string, link: Link, rx: seq<Rx>, n: nat)
    requires n <= |rx| && forall i :: 0 <= i < n ==> !Stops(rx[i])
    ensures var q := QueueAfter(id, link, rx[..n]);
            q.end == Open && q.link == LinkAt(link, rx[..n]) && Texts(q.sent) == Selected(id, link, rx, n)
    decreases n
  {
    hide Receive, Run, Stops, MessageFor, Texts;
    if n > 0 {
      OpenQueue(id, link, rx, n - 1);
      assert rx[..n][..n - 1] == rx[..n - 1] && rx[..n][n - 1] == rx[n - 1];
      OpenReceive(id, QueueAfter(id, link, rx[..n - 1]), rx[n - 1]);
    } else {
      NoTexts();
    }
  }

  lemma NoTexts()
    ensures Texts([]) == []
  {}

  lemma {:induction false} ClosedQueue(id: string, link: Link, rx: seq<Rx>, n: nat)
    requires n <= |rx| && QueueAfter(id, link, rx[..n]).end != Open
    ensures QueueAfter(id, link, rx) == QueueAfter(id, link, rx[..n])
    decreases |rx|
  {
    if n < |rx| {
      assert rx[..|rx| - 1][..n] == rx[..n];
      ClosedQueue(id, link, rx[..|rx| - 1], n);
    } else {
      assert rx[..n] == rx;
    }
  }

  /** How the receive that stops the queue ends it. */
  function EndOf(r: Rx): QueueEnd {
    if r.size == EAGAIN || r.size == 0 then Drained
    else if r.size < PACKET_SIZE then BadPacket
    else ClientGone
  }

  /** Packet conservation.  With k the first receive that stops the queue (or the number of all, if none
      does), the messages published are exactly, and in order, those of the first k packets that are
      mapped and came while client and network were ready; each of the others among the first k is
      dropped, as invalid or because the network is down; and packet k alone decides how it ends. */
  lemma PacketConservation(id: string, link: Link, rx: seq<Rx>, k: nat)
    requires k <= |rx| && (forall i :: 0 <= i < k ==> !Stops(rx[i])) && (k < |rx| ==> Stops(rx[k]))
    ensures var q := Finished(QueueAfter(id, link, rx));
            && Texts(q.sent) == Selected(id, link, rx, k)
            && q.end == (if k < |rx| then EndOf(rx[k]) else Drained)
            && q.link == LinkAt(link, if k < |rx| then rx[..k + 1] else rx)
    ensures forall i :: 0 <= i < k ==>
              (Publishable(link, rx, i) || DroppedInvalid(rx[i]) || DroppedNetworkDown(link, rx, i))
    ensures forall i :: 0 <= i < k && Publishable(link, rx, i) ==>
              !DroppedInvalid(rx[i]) && !DroppedNetworkDown(link, rx, i)
  {
    OpenQueue(id, link, rx, k);
    if k < |rx| {
      var q := QueueAfter(id, link, rx[..k]);
      assert rx[..k + 1][..k] == rx[..k] && rx[..k + 1][k] == rx[k];
      assert QueueAfter(id, link, rx[..k + 1]) == Receive(id, q, rx[k]);
      ClosedQueue(id, link, rx, k + 1);
    } else {
      assert rx[..k] == rx;
    }
  }

  /** The monitor keeps the ready flag in step with the link, so every message leaves while the link is
      connected. */
  lemma {:induction false} QueueSendsConnected(id: string, link: Link, rx: seq<Rx>)
    requires ReadyIsConnected(link)
    ensures var q := QueueAfter(id, link, rx);
            ReadyIsConnected(q.link) && forall i :: 0 <= i < |q.sent| ==> q.sent[i].ppp == Connected
    decreases |rx|
  {
    if rx != [] {
      var q, r := QueueAfter(id, link, rx[..|rx| - 1]), rx[|rx| - 1];
      QueueSendsConnected(id, link, rx[..|rx| - 1]);
      RunKeepsReady(q.link, r.before);
    }
  }

  /** The number of receives before the first that stops the queue. */
  function FirstStop(rx: seq<Rx>): (k: nat)
    ensures k <= |rx| && (k < |rx| ==> Stops(rx[k]))
    ensures forall i :: 0 <= i < k ==> !Stops(rx[i])
  {
    if rx == [] || Stops(rx[0]) then 0 else 1 + FirstStop(rx[1..])
  }

  /** Some bytes but no packet, their number not that of EAGAIN; or a packet to be sent, without a client. */
  predicate Abandons(r: Rx) {
    (0 < r.size < PACKET_SIZE && r.size != EAGAIN) || (r.size >= PACKET_SIZE && Mapped(r.packet) && !r.client)
  }

  /** The first receive that stops the queue makes it be given up. */
  predicate GivenUp(rx: seq<Rx>) {
    FirstStop(rx) < |rx| && Abandons(rx[FirstStop(rx)])
  }

  /** Whether a queue is drained depends on what is received alone, not on the link. */
  lemma DrainedExactly(id: string, link: Link, rx: seq<Rx>)
    ensures Finished(QueueAfter(id, link, rx)).end == Drained <==> !GivenUp(rx)
  {
    PacketConservation(id, link, rx, FirstStop(rx));
  }

  /** The first receive that stops the queue is a mapped packet that finds no client. */
  predicate LosesClient(rx: seq<Rx>) {
    var k := FirstStop(rx);
    k < |rx| && rx[k].size >= 32 && Mapped(rx[k].packet) && !rx[k].client
  }

  lemma ClientGoneExactly(id: string, link: Link, rx: seq<Rx>)
    ensures Finished(QueueAfter(id, link, rx)).end == ClientGone <==> LosesClient(rx)
  {
    PacketConservation(id, link, rx, FirstStop(rx));
  }

  /** The sizes that matter: 11, and that of the eight fields of a packet, two of them padded. */
  lemma SizesSpelledOut(id: string, link: Link, r: Rx)
    requires Mapped(r.packet) && !r.client
    ensures var end := Finished(QueueAfter(id, link, [r])).end;
            && (end == Drained <==> r.size == 0 || r.size == 11)
            && (end == BadPacket <==> 0 < r.size < 32 && r.size != 11)
            && (end == ClientGone <==> r.size >= 4 + 4 + 4 + 4 + 4 + (2 + 2) + 4 + (2 + 2))
  {
    PacketConservation(id, link, [r], 0);
  }

  /** A receive of some bytes, but fewer than a packet, is reported as a bad packet if and only if their
      number is not that of EAGAIN, which is taken for "no data". */
  lemma ShortPacketReported(id: string, link: Link, rx: seq<Rx>, k: nat)
    requires k < |rx| && (forall i :: 0 <= i < k ==> !Stops(rx[i])) && 0 < rx[k].size < PACKET_SIZE
    ensures Finished(QueueAfter(id, link, rx)).end == BadPacket <==> rx[k].size != EAGAIN
  {
    PacketConservation(id, link, rx, k);
  }

  /** No receive of a connection makes what happens outside turn the CMUX flag on. */
  predicate ReceivesKeepOff(rx: seq<Rx>) {
    forall i, j :: 0 <= i < |rx| && 0 <= j < |rx[i].before| ==> LeavesCmux(rx[i].before[j], false)
  }

  /** A queue served while the link is lost, and stays so, sends nothing. */
  lemma {:induction false} LostQueueIsSilent(id: string, link: Link, rx: seq<Rx>)
    requires Lost(link) && ReceivesKeepOff(rx)
    ensures var q := QueueAfter(id, link, rx);
            q.sent == [] && Lost(q.link)
    decreases |rx|
  {
    if rx != [] {
      var q, r := QueueAfter(id, link, rx[..|rx| - 1]), rx[|rx| - 1];
      LostQueueIsSilent(id, link, rx[..|rx| - 1]);
      LostForGood(q.link, r.before);
    }
  }
}

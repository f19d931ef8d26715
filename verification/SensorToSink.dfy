/** From the sensor to the wire: the records of an acquisition as the sink publishes them. */
module SensorToSink {
  import opened Machine
  import opened SgmData
  import opened MqttProtocol
  import opened PppConnection
  import opened MessageQueue
  import Sensor
  import Temperature
  import Pressure
  import Humidity

  predicate AllFit(records: seq<SgmProcessData>) {
    forall d :: d in records ==> FieldsInWidth(d)
  }

  /** Every record of an acquisition fits the widths of its fields, so that a receiver recovers it. */
  lemma {:induction false} RecordsFit(u: Sensor.Setup, b: Sensor.Bench, qs: seq<PhysQuantity>)
    ensures AllFit(Sensor.AllMeasured(u, b, qs))
  {
    hide Sensor.Measured, Sensor.AfterAll, FieldsInWidth;
    if qs != [] {
      RecordsFit(u, b, qs[..|qs| - 1]);
      RecordFits(u, Sensor.AfterAll(u, b, qs[..|qs| - 1]), qs[|qs| - 1]);
    }
  }

  lemma RecordFits(u: Sensor.Setup, b: Sensor.Bench, q: PhysQuantity)
    ensures AllFit(Sensor.Measured(u, b, q))
  {
    hide Temperature.TFine, Pressure.Pascals, Humidity.Percent1024, S32, U32, Temperature.Hundredths,
         Sensor.AfterMeasure;
    HundredthsFit(Sensor.AfterMeasure(u, b, q).tFine);
  }

  lemma HundredthsFit(t: int)
    ensures InS32(Temperature.Hundredths(t))
  {}

  /** The receives of a connection that brings these records, while the client is connected. */
  function Delivery(records: seq<SgmProcessData>, before: seq<seq<LinkStep>>): (rx: seq<Rx>)
    requires |before| == |records|
    ensures |rx| == |records|
  {
    seq(|records|, k requires 0 <= k < |records| => Rx(before[k], 32, records[k], true))
  }

  /** The network is ready at every receive. */
  predicate ReadyThroughout(link: Link, rx: seq<Rx>) {
    forall k :: 0 <= k < |rx| ==> ReadyAt(link, rx, k)
  }

  predicate ReadyAt(link: Link, rx: seq<Rx>, k: nat)
    requires k < |rx|
  {
    LinkAt(link, rx[..k + 1]).ready
  }

  lemma {:induction false} AllSelected(id: string, link: Link, rx: seq<Rx>, n: nat)
    requires n <= |rx| && ReadyThroughout(link, rx)
    requires forall k :: 0 <= k < |rx| ==> Mapped(rx[k].packet) && rx[k].client
    ensures Selected(id, link, rx, n) == seq(n, k requires 0 <= k < n => MessageFor(id, rx[k].packet))
    decreases n
  {
    hide LinkAt, MessageFor, Mapped;
    if n > 0 {
      AllSelected(id, link, rx, n - 1);
      assert ReadyAt(link, rx, n - 1);
    }
  }

  /** What is delivered while the network stays ready is published in full and in order. */
  lemma DeliveryIsPublished(id: string, link: Link, records: seq<SgmProcessData>, before: seq<seq<LinkStep>>)
    requires |before| == |records| && ReadyThroughout(link, Delivery(records, before))
    requires forall k :: 0 <= k < |records| ==> Mapped(records[k])
    ensures Texts(Finished(QueueAfter(id, link, Delivery(records, before))).sent) ==
              seq(|records|, k requires 0 <= k < |records| => MessageFor(id, records[k]))
  {
    hide LinkAt, MessageFor, Mapped, QueueAfter, Texts, ReadyThroughout;
    var rx := Delivery(records, before);
    PacketConservation(id, link, rx, |rx|);
    AllSelected(id, link, rx, |rx|);
  }

  /** A standard acquisition in the air, delivered while the network stays ready, is published under the topics
      of temperature, pressure and humidity. */
  lemma AirIsPublished(u: Sensor.Setup, b: Sensor.Bench, id: string, link: Link, before: seq<seq<LinkStep>>)
    requires u.point == AIR && |before| == 3 && ReadyThroughout(link, Delivery(AllOf(u, b), before))
    ensures var r := AllOf(u, b);
            Texts(Finished(QueueAfter(id, link, Delivery(r, before))).sent) ==
              [Message("sgm/" + id + "/air/temp", Payload(r[0])),
               Message("sgm/" + id + "/air/press", Payload(r[1])),
               Message("sgm/" + id + "/air/humid", Payload(r[2]))]
  {
    hide Payload, TopicOf, LinkAt, QueueAfter, Mapped, Texts, ReadyThroughout, AllOf;
    var r := AllOf(u, b);
    TopicsSpelledOut(id, r[0]);
    TopicsSpelledOut(id, r[1]);
    TopicsSpelledOut(id, r[2]);
    DeliveryIsPublished(id, link, r, before);
  }

  /** The records of a standard acquisition: temperature, pressure, humidity. */
  function AllOf(u: Sensor.Setup, b: Sensor.Bench): (r: seq<SgmProcessData>)
    ensures |r| == 3 && r[0].measPoint == r[1].measPoint == r[2].measPoint == u.point
    ensures r[0].physQuantityType == TEMPERATURE && r[1].physQuantityType == PRESSURE
    ensures r[2].physQuantityType == HUMIDITY
  {
    AllOfStandard(u, b);
    Sensor.AllMeasured(u, b, Sensor.STANDARD_QUANTITIES)
  }

  lemma AllOfStandard(u: Sensor.Setup, b: Sensor.Bench)
    ensures var r := Sensor.AllMeasured(u, b, Sensor.STANDARD_QUANTITIES);
            && |r| == 3 && r[0].measPoint == r[1].measPoint == r[2].measPoint == u.point
            && r[0].physQuantityType == TEMPERATURE && r[1].physQuantityType == PRESSURE
            && r[2].physQuantityType == HUMIDITY
  {
    hide Sensor.AllMeasured, Temperature.TFine, Pressure.Pascals, Humidity.Percent1024, S32, U32,
         Temperature.Hundredths;
    Sensor.StandardAcquisition(u, b);
  }
}

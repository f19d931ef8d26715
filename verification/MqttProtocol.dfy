/** The publishing side: topics, payloads, and the network-ready flag that gates publication. */
module MqttProtocol {
  import opened Machine
  import opened SgmData
  import opened Bus

  /** What a network provider reports. */
  datatype NetworkStatus =
    | CONNECTED | DISCONNECTED | CONNECTION_ERROR | TOO_MANY_ATTEMPTS | DEVICE_UNAVAILABLE | UNKNOWN_ERROR

  datatype Result =
    MESSAGE_SENT | NO_CONNECTION | ERROR_PROTOCOL | ERROR_SOCKET | INPUT_DATA_INVALID | ERROR_UNKNOWN

  datatype Message = Message(topic: string, payload: seq<byte>)

  // ----- topics -----

  /** The point can measure the quantity, and both have names. */
  predicate Mapped(d: SgmProcessData) {
    (d.measPoint, d.physQuantityType) in UNIT_MAP
  }

  function Prefix(clientId: string): string {
    "sgm/" + clientId + "/"
  }

  lemma QuantityNamed(q: PhysQuantity)
    ensures q in PHYSICAL_STRING_MAP
  {}

  function TopicTail(p: MeasurementPoint, q: PhysQuantity): string
    requires p in MEAS_POINT_STRING_MAP
  {
    QuantityNamed(q);
    MEAS_POINT_STRING_MAP[p] + "/" + PHYSICAL_STRING_MAP[q]
  }

  function TopicOf(clientId: string, p: MeasurementPoint, q: PhysQuantity): string
    requires p in MEAS_POINT_STRING_MAP
  {
    Prefix(clientId) + TopicTail(p, q)
  }

  lemma MappedPointsNamed(i: nat)
    requires i < |UNIT_MAP|
    ensures UNIT_MAP[i].0 in MEAS_POINT_STRING_MAP && UNIT_MAP[i].1 in PHYSICAL_STRING_MAP
  {}

  lemma MappedNamed(d: SgmProcessData)
    requires Mapped(d)
    ensures d.measPoint in MEAS_POINT_STRING_MAP
  {
    var i :| 0 <= i < |UNIT_MAP| && UNIT_MAP[i] == (d.measPoint, d.physQuantityType);
    MappedPointsNamed(i);
  }

  /** A subscriber can tell from the topic which point and quantity was meant. */
  lemma TopicInjective(clientId: string, p: MeasurementPoint, q: PhysQuantity, p': MeasurementPoint, q': PhysQuantity)
    requires p in MEAS_POINT_STRING_MAP && p' in MEAS_POINT_STRING_MAP
    requires TopicOf(clientId, p, q) == TopicOf(clientId, p', q')
    ensures p == p' && q == q'
  {
    hide TopicTail, Prefix;
    SamePrefix(Prefix(clientId), TopicTail(p, q), TopicTail(p', q'));
    TailInjective(p, q, p', q');
  }

  lemma SamePrefix(s: string, t: string, t': string)
    requires s + t == s + t'
    ensures t == t'
  {
    assert (s + t)[|s|..] == t && (s + t')[|s|..] == t';
  }

  lemma TailInjective(p: MeasurementPoint, q: PhysQuantity, p': MeasurementPoint, q': PhysQuantity)
    requires p in MEAS_POINT_STRING_MAP && p' in MEAS_POINT_STRING_MAP
    requires TopicTail(p, q) == TopicTail(p', q')
    ensures p == p' && q == q'
  {
    var t, m := TopicTail(p, q), |MEAS_POINT_STRING_MAP[p]|;
    assert t[0] == MEAS_POINT_STRING_MAP[p][0] == MEAS_POINT_STRING_MAP[p'][0];
    assert p == p';
    assert t[m + 1] == PHYSICAL_STRING_MAP[q][0] == PHYSICAL_STRING_MAP[q'][0];
  }

  /** The points and quantities with a topic, and the text of each. */
  lemma TopicsSpelledOut(id: string, d: SgmProcessData)
    ensures Mapped(d) <==>
              || (d.measPoint == AIR)
              || (d.measPoint == SOIL && d.physQuantityType == HUMIDITY)
              || (d.measPoint == DEVICE && d.physQuantityType == TEMPERATURE)
    ensures TopicOf(id, AIR, TEMPERATURE) == "sgm/" + id + "/air/temp"
    ensures TopicOf(id, AIR, PRESSURE) == "sgm/" + id + "/air/press"
    ensures TopicOf(id, AIR, HUMIDITY) == "sgm/" + id + "/air/humid"
    ensures TopicOf(id, AIR, LIGHT) == "sgm/" + id + "/air/light"
    ensures TopicOf(id, SOIL, HUMIDITY) == "sgm/" + id + "/soil/humid"
    ensures TopicOf(id, DEVICE, TEMPERATURE) == "sgm/" + id + "/dev/temp"
  {
    MappedSpelledOut(d.measPoint, d.physQuantityType);
    TextOf(id, AIR, TEMPERATURE, "/air/temp");
    TextOf(id, AIR, PRESSURE, "/air/press");
    TextOf(id, AIR, HUMIDITY, "/air/humid");
    TextOf(id, AIR, LIGHT, "/air/light");
    TextOf(id, SOIL, HUMIDITY, "/soil/humid");
    TextOf(id, DEVICE, TEMPERATURE, "/dev/temp");
  }

  lemma MappedSpelledOut(p: MeasurementPoint, q: PhysQuantity)
    ensures (p, q) in UNIT_MAP <==> p == AIR || (p == SOIL && q == HUMIDITY) || (p == DEVICE && q == TEMPERATURE)
  {
    if p == AIR {
      assert UNIT_MAP[1] == (AIR, PRESSURE) && UNIT_MAP[2] == (AIR, TEMPERATURE);
      assert UNIT_MAP[3] == (AIR, HUMIDITY) && UNIT_MAP[4] == (AIR, LIGHT);
      assert q == PRESSURE || q == TEMPERATURE || q == HUMIDITY || q == LIGHT;
    }
    assert UNIT_MAP[0] == (SOIL, HUMIDITY) && UNIT_MAP[5] == (DEVICE, TEMPERATURE);
  }

  lemma TextOf(id: string, p: MeasurementPoint, q: PhysQuantity, tail: string)
    requires p in MEAS_POINT_STRING_MAP && tail == "/" + TopicTail(p, q)
    ensures TopicOf(id, p, q) == "sgm/" + id + tail
  {
    hide TopicTail;
    Reassociate("sgm/" + id, "/", TopicTail(p, q));
  }

  lemma Reassociate(a: string, b: string, c: string)
    ensures a + b + c == a + (b + c)
  {}

  // ----- payloads -----

  /** The n low bytes of w, low byte first. */
  function LittleEndian(w: int, n: nat): (b: seq<byte>)
    ensures |b| == n
    decreases n
  {
    if n == 0 then [] else [w % 256] + LittleEndian(w / 256, n - 1)
  }

  function FromLittleEndian(b: seq<byte>): nat {
    if b == [] then 0 else b[0] + 256 * FromLittleEndian(b[1..])
  }

  function Pow256(n: nat): nat {
    if n == 0 then 1 else 256 * Pow256(n - 1)
  }

  lemma {:induction false} LittleEndianRoundTrip(w: int, n: nat)
    requires 0 <= w < Pow256(n)
    ensures FromLittleEndian(LittleEndian(w, n)) == w
    decreases n
  {
    if n > 0 {
      LittleEndianRoundTrip(w / 256, n - 1);
      assert LittleEndian(w, n)[1..] == LittleEndian(w / 256, n - 1);
    }
  }

  /** The n low bytes of w are those of w modulo 256^n. */
  lemma {:induction false} LowBytes(w: int, n: nat)
    ensures Pow256(n) > 0
    ensures LittleEndian(w, n) == LittleEndian(w % Pow256(n), n)
    decreases n
  {
    if n > 0 {
      LowBytes(w / 256, n - 1);
      ModSplit(w, Pow256(n - 1));
      LowBytes(w % Pow256(n) / 256, n - 1);
    }
  }

  lemma ModSplit(w: int, p: int)
    requires 0 < p
    ensures w % (256 * p) % 256 == w % 256
    ensures w % (256 * p) / 256 == w / 256 % p
  {
    var r, s, k := w % 256, w / 256 % p, w / 256 / p;
    assert w / 256 == k * p + s;
    assert w == k * (256 * p) + (256 * s + r) by {
      assert w == 256 * (w / 256) + r;
      assert 256 * (k * p + s) == k * (256 * p) + 256 * s;
    }
    ModIs(w, 256 * p, k, 256 * s + r);
  }

  lemma ModIs(n: int, d: int, k: int, r: int)
    requires n == k * d + r && 0 <= r < d
    ensures n % d == r
  {
    var e := n / d - k;
    assert e * d == (n / d) * d - k * d;
    if e >= 1 { MulMono(d, 1, e); }
    if e <= -1 { MulMono(d, e, -1); }
  }

  function UnitCode(u: Unit): nat {
    match u
    case HPa => 0
    case Celsius => 1
    case Percent => 2
    case Lumen => 3
  }

  /** value, divider, unit, timestamp: 4 + 2 + 4 + 4 bytes. */
  function Payload(d: SgmProcessData): (b: seq<byte>)
    ensures |b| == 14
  {
    LittleEndian(d.value, 4) + LittleEndian(d.divider, 2) + LittleEndian(UnitCode(d.unit), 4)
        + LittleEndian(d.timestamp, 4)
  }

  predicate FieldsInWidth(d: SgmProcessData) {
    InS32(d.value) && InU16(d.divider) && InU32(d.timestamp)
  }

  /** A receiver recovers value, divider, unit and timestamp from the payload. */
  lemma PayloadRoundTrip(d: SgmProcessData)
    requires FieldsInWidth(d)
    ensures var b := Payload(d);
            && S32(FromLittleEndian(b[0..4])) == d.value
            && FromLittleEndian(b[4..6]) == d.divider
            && FromLittleEndian(b[6..10]) == UnitCode(d.unit)
            && FromLittleEndian(b[10..14]) == d.timestamp
  {
    hide LittleEndian, FromLittleEndian;
    var b := Payload(d);
    FourParts(LittleEndian(d.value, 4), LittleEndian(d.divider, 2), LittleEndian(UnitCode(d.unit), 4),
              LittleEndian(d.timestamp, 4));
    FieldRoundTrip(d.value, 4);
    SignedAgain(d.value);
    FieldRoundTrip(d.divider, 2);
    FieldRoundTrip(UnitCode(d.unit), 4);
    FieldRoundTrip(d.timestamp, 4);
  }

  lemma FourParts(v: seq<byte>, d: seq<byte>, u: seq<byte>, t: seq<byte>)
    requires |v| == 4 && |d| == 2 && |u| == 4 && |t| == 4
    ensures var b := v + d + u + t;
            b[0..4] == v && b[4..6] == d && b[6..10] == u && b[10..14] == t
  {}

  lemma FieldRoundTrip(w: int, n: nat)
    requires n == 2 || n == 4
    ensures FromLittleEndian(LittleEndian(w, n)) == if n == 2 then w % 0x1_0000 else w % 0x1_0000_0000
  {
    assert Pow256(2) == 0x1_0000 && Pow256(3) == 0x100_0000 && Pow256(4) == 0x1_0000_0000;
    LowBytes(w, n);
    LittleEndianRoundTrip(w % Pow256(n), n);
  }

  /** The bytes on the wire: value, divider, unit code and timestamp, each low byte first. */
  lemma PayloadSpelledOut(d: SgmProcessData)
    ensures var b := Payload(d);
            && b[0] == d.value % 256 && b[1] == d.value / 256 % 256
            && b[2] == d.value / 65536 % 256 && b[3] == d.value / 16777216 % 256
            && b[4] == d.divider % 256 && b[5] == d.divider / 256 % 256
            && b[6] == (match d.unit case HPa => 0 case Celsius => 1 case Percent => 2 case Lumen => 3)
            && b[7] == b[8] == b[9] == 0
            && b[10] == d.timestamp % 256 && b[11] == d.timestamp / 256 % 256
            && b[12] == d.timestamp / 65536 % 256 && b[13] == d.timestamp / 16777216 % 256
  {
    hide LittleEndian;
    FourBytes(d.value);
    TwoBytes(d.divider);
    FourBytes(UnitCode(d.unit));
    FourBytes(d.timestamp);
    FourParts(LittleEndian(d.value, 4), LittleEndian(d.divider, 2), LittleEndian(UnitCode(d.unit), 4),
              LittleEndian(d.timestamp, 4));
    PartsAt(Payload(d));
  }

  lemma PartsAt(b: seq<byte>)
    requires |b| == 14
    ensures b[0..4] == [b[0], b[1], b[2], b[3]] && b[4..6] == [b[4], b[5]]
    ensures b[6..10] == [b[6], b[7], b[8], b[9]] && b[10..14] == [b[10], b[11], b[12], b[13]]
  {}

  lemma TwoBytes(w: int)
    ensures LittleEndian(w, 2) == [w % 256, w / 256 % 256]
  {
    assert LittleEndian(w / 256, 1) == [w / 256 % 256];
  }

  lemma FourBytes(w: int)
    ensures LittleEndian(w, 4) == [w % 256, w / 256 % 256, w / 65536 % 256, w / 16777216 % 256]
  {
    hide LittleEndian;
    TwoBytes(w);
    TwoBytes(w / 65536);
    Split(w);
  }

  lemma Split(w: int)
    ensures LittleEndian(w, 4) == LittleEndian(w, 2) + LittleEndian(w / 65536, 2)
  {
    assert w / 256 / 256 == w / 65536;
    assert LittleEndian(w / 256, 3) == [w / 256 % 256] + LittleEndian(w / 65536, 2);
    assert LittleEndian(w / 256, 1) == [w / 256 % 256] + [];
  }

  lemma SignedAgain(v: int)
    requires InS32(v)
    ensures S32(v % 0x1_0000_0000) == v
  {}

  function MessageFor(clientId: string, d: SgmProcessData): Message
    requires Mapped(d)
  {
    MappedNamed(d);
    Message(TopicOf(clientId, d.measPoint, d.physQuantityType), Payload(d))
  }

  // ----- sending -----

  /** The result of sending d when the client is or is not connected and the network is or is not ready. */
  function SendResult(d: SgmProcessData, client: bool, ready: bool): Result {
    if !Mapped(d) then INPUT_DATA_INVALID
    else if !client then NO_CONNECTION
    else if ready then MESSAGE_SENT
    else ERROR_PROTOCOL
  }

  function Published(clientId: string, d: SgmProcessData, client: bool, ready: bool): seq<Message> {
    if SendResult(d, client, ready) == MESSAGE_SENT then [MessageFor(clientId, d)] else []
  }

  /** Each result says why. */
  lemma ResultsExactly(d: SgmProcessData, client: bool, ready: bool)
    ensures var r := SendResult(d, client, ready);
            && (r == INPUT_DATA_INVALID <==> !Mapped(d))
            && (r == NO_CONNECTION <==> Mapped(d) && !client)
            && (r == ERROR_PROTOCOL <==> Mapped(d) && client && !ready)
            && (r == MESSAGE_SENT <==> Mapped(d) && client && ready)
  {}

  /** A receiver can tell packets apart: two packets published by one client as the same message agree in
      point, quantity, value, divider, unit and timestamp. */
  lemma MessageInjective(clientId: string, d: SgmProcessData, d': SgmProcessData)
    requires Mapped(d) && Mapped(d') && FieldsInWidth(d) && FieldsInWidth(d')
    requires MessageFor(clientId, d) == MessageFor(clientId, d')
    ensures d' == d.(packetId := d'.packetId, crc := d'.crc)
  {
    hide Mapped, Payload, TopicOf;
    MappedNamed(d);
    MappedNamed(d');
    TopicInjective(clientId, d.measPoint, d.physQuantityType, d'.measPoint, d'.physQuantityType);
    PayloadRoundTrip(d);
    PayloadRoundTrip(d');
  }

  class MqttProtocol {
    const mqttClientId: string
    var isNetworkReady: bool
    var itsTopicBuffer: string
    const itsMessageBuffer: array<byte>
    /** What has been handed to the client library. */
    var published: seq<Message>
    /** How often the client library has been given time, and told to disconnect. */
    var yielded: nat
    var hangups: nat

    ghost predicate Valid() {
      itsMessageBuffer.Length == 100
    }

    constructor (clientId: string)
      ensures Valid() && fresh(itsMessageBuffer)
      ensures mqttClientId == clientId && !isNetworkReady && published == [] && yielded == hangups == 0
    {
      mqttClientId := clientId;
      isNetworkReady, itsTopicBuffer, published := false, "", [];
      yielded, hangups := 0, 0;
      itsMessageBuffer := new byte[100];
    }

    method Yield()
      modifies this`yielded
      ensures yielded == old(yielded) + 1
    {
      yielded := yielded + 1;
    }

    method Disconnect()
      modifies this`hangups
      ensures hangups == old(hangups) + 1
    {
      hangups := hangups + 1;
    }

    method OnNetworkStatusChange(status: NetworkStatus)
      modifies this`isNetworkReady
      ensures isNetworkReady == status.CONNECTED?
    {
      match status
      case CONNECTED => isNetworkReady := true;
      case _ => isNetworkReady := false;
    }

    method PrepareTopic(d: SgmProcessData) returns (isMapperFound: bool)
      modifies this`itsTopicBuffer
      ensures isMapperFound == Mapped(d)
      ensures isMapperFound ==> itsTopicBuffer == MessageFor(mqttClientId, d).topic
    {
      itsTopicBuffer := "sgm/";
      itsTopicBuffer := itsTopicBuffer + mqttClientId;
      itsTopicBuffer := itsTopicBuffer + "/";
      isMapperFound := false;
      assert itsTopicBuffer == Prefix(mqttClientId);
      for i := 0 to |UNIT_MAP|
        invariant !isMapperFound && itsTopicBuffer == Prefix(mqttClientId)
        invariant (d.measPoint, d.physQuantityType) !in UNIT_MAP[..i]
      {
        var unitMapper := UNIT_MAP[i];
        if unitMapper.0 == d.measPoint && unitMapper.1 == d.physQuantityType {
          isMapperFound := true;
          MappedPointsNamed(i);
          itsTopicBuffer := itsTopicBuffer + MEAS_POINT_STRING_MAP[unitMapper.0];
          itsTopicBuffer := itsTopicBuffer + "/";
          itsTopicBuffer := itsTopicBuffer + PHYSICAL_STRING_MAP[unitMapper.1];
          assert unitMapper in UNIT_MAP;
          return;
        }
      }
    }

    /** memcpy of the n low bytes of w to the message buffer at pos. */
    method Store(pos: nat, w: int, n: nat)
      requires pos + n <= itsMessageBuffer.Length
      modifies itsMessageBuffer
      ensures itsMessageBuffer[..pos + n] == old(itsMessageBuffer[..pos]) + LittleEndian(w, n)
    {
      var b := LittleEndian(w, n);
      for i := 0 to n
        invariant itsMessageBuffer[..pos + i] == old(itsMessageBuffer[..pos]) + b[..i]
      {
        itsMessageBuffer[pos + i] := b[i];
      }
    }

    method PrepareMessage(d: SgmProcessData) returns (size: int)
      requires Valid()
      modifies itsMessageBuffer
      ensures size == 14 && itsMessageBuffer[..size] == Payload(d)
    {
      Store(0, d.value, 4);
      Store(4, d.divider, 2);
      Store(6, UnitCode(d.unit), 4);
      Store(10, d.timestamp, 4);
      size := 14;
    }

    /** `client` is what the client library says about its connection when asked. */
    method SendMessage(d: SgmProcessData, client: bool) returns (result: Result)
      requires Valid()
      modifies this`itsTopicBuffer, this`published, itsMessageBuffer
      ensures result == SendResult(d, client, isNetworkReady)
      ensures published == old(published) + Published(mqttClientId, d, client, isNetworkReady)
    {
      result := MESSAGE_SENT;
      var found := PrepareTopic(d);
      if !found {
        return INPUT_DATA_INVALID;
      }
      var messageSize := PrepareMessage(d);
      if messageSize < 0 {
        return INPUT_DATA_INVALID;
      }
      if !client {
        result := NO_CONNECTION;
      } else if isNetworkReady {
        published := published + [Message(itsTopicBuffer, itsMessageBuffer[..messageSize])];
      } else {
        result := ERROR_PROTOCOL;
      }
    }
  }
}

/**
 * The older gateway (piGateway/Gateway.c): one pass of its `for (;;)`
 * loop. A frame of exactly `sizeof(Payload)` bytes is snapshot into the
 * global `sensorNode` and raises the `sendMQTT` flag; every frame that asks
 * for an acknowledgement gets one, whoever it was sent to, and one in three
 * of them (by a `uint8_t` counter) is followed by a probe of the sender;
 * a raised flag is turned into one batch of four publishes and lowered.
 * Topics are three numbers run together (`%02d%01d%01d`), written into a
 * six-byte buffer.
 */
module LegacyGateway {
  import opened Common
  import opened Printf
  import opened PacketCodec
  import opened RadioLink

  /** The size of `buff_topic` in the `MQTTSend...` helpers. */
  const TopicBufferSize: nat := 6

  /** `snprintf(buff_message, 12, "%f", ...)` keeps at most 11 characters. */
  const FloatTextLimit: nat := 11

  /** The global `sensorNode`: the last payload kept, with its RSSI. */
  datatype SensorNode = SensorNode(nodeId: i16, sensorId: i16, var1: u32, var2: Float32, var3: Float32, var4: i16)

  /** A message body: digits printed by `%u` or `%04d`, or the `%f`
      rendering of a float cut to `limit` characters. */
  datatype Reading = Text(text: string) | FloatText(value: Float32, limit: nat)

  datatype LegacyAction =
    | Ack
    | Ping(node: byte)
    | Publish(topic: string, message: Reading)

  /** The globals a pass reads and writes. */
  datatype LegacyState = LegacyState(theData: Payload, sensorNode: SensorNode, sendMqtt: bool, ackCount: byte)

  // ---------------------------------------------------------------------
  // The `MQTTSend...` helpers.

  /** `sprintf(buff_topic, "%02d%01d%01d", node, sensor, var)`. */
  function LegacyTopic(node: int, sensor: int, variable: int): string
  {
    FormatInt(node, 2) + FormatInt(sensor, 1) + FormatInt(variable, 1)
  }

  /** `sprintf` wrote the topic and its terminator inside `buff_topic`. */
  predicate FitsTopicBuffer(topic: string, size: nat) { |topic| + 1 <= size }

  /** `MQTTSendULong`: the value printed by `%u`. */
  function SendULong(node: int, sensor: int, variable: int, val: u32): LegacyAction
  {
    Publish(LegacyTopic(node, sensor, variable), Text(Decimal(val)))
  }

  /** `MQTTSendFloat`: the value printed by `%f`, cut by `snprintf`. */
  function SendFloat(node: int, sensor: int, variable: int, val: Float32): LegacyAction
  {
    Publish(LegacyTopic(node, sensor, variable), FloatText(val, FloatTextLimit))
  }

  /** `MQTTSendInt`: the value printed by `%04d`. */
  function SendInt(node: int, sensor: int, variable: int, val: int): LegacyAction
  {
    Publish(LegacyTopic(node, sensor, variable), Text(FormatInt(val, 4)))
  }

  // ---------------------------------------------------------------------
  // The specification of one pass.

  /** A frame of the payload's size is copied field by field, the RSSI
      as the fourth value, and raises the flag; any other leaves all three
      globals as they were. */
  function Snapshot(s: LegacyState, f: Frame): LegacyState
  {
    if |f.data| != PayloadSize then s
    else
      var p := DecodePayload(f.data);
      s.(theData := p, sensorNode := SensorNode(p.nodeId, p.sensorId, p.var1, p.var2, p.var3, f.rssi), sendMqtt := true)
  }

  /** Every request is acknowledged; the probe follows when the counter,
      read before its `uint8_t` increment, is a multiple of three. */
  function AckAndPing(s: LegacyState, f: Frame): (LegacyState, seq<LegacyAction>)
  {
    if !f.ackRequested then (s, [])
    else
      var acts := if s.ackCount % 3 == 0 then [Ack, Ping(f.senderId)] else [Ack];
      (s.(ackCount := IncByte(s.ackCount)), acts)
  }

  /** The batch for the raised flag: values 1 to 4 in order. */
  function Batch(n: SensorNode): seq<LegacyAction>
  {
    [SendULong(n.nodeId, n.sensorId, 1, n.var1),
     SendFloat(n.nodeId, n.sensorId, 2, n.var2),
     SendFloat(n.nodeId, n.sensorId, 3, n.var3),
     SendInt(n.nodeId, n.sensorId, 4, n.var4)]
  }

  /** One pass of `run_loop`; `rx` is the frame when `receiveDone()`
      returned true. */
  function LegacyPass(s: LegacyState, rx: Option<Frame>): (r: (LegacyState, seq<LegacyAction>))
  {
    var (s1, acks) := if rx.Some? then AckAndPing(Snapshot(s, rx.value), rx.value) else (s, []);
    if s1.sendMqtt then (s1.(sendMqtt := false), acks + Batch(s1.sensorNode)) else (s1, acks)
  }

  class Gateway {
    var theData: Payload
    var sensorNode: SensorNode
    var sendMqtt: bool
    var ackCount: byte

    function State(): LegacyState
      reads this
    {
      LegacyState(theData, sensorNode, sendMqtt, ackCount)
    }

    /** The globals as the program starts: all zero. */
    constructor ()
      ensures State() == LegacyState(Payload(0, 0, 0, Float32(0), Float32(0)),
                                     SensorNode(0, 0, 0, Float32(0), Float32(0), 0), false, 0)
    {
      theData := Payload(0, 0, 0, Float32(0), Float32(0));
      sensorNode := SensorNode(0, 0, 0, Float32(0), Float32(0), 0);
      sendMqtt := false;
      ackCount := 0;
    }

    /** One pass of the `for (;;)` in `run_loop`. */
    method Step(radio: Radio, received: bool, ackIncoming: seq<byte>) returns (actions: seq<LegacyAction>)
      modifies this, radio
      ensures (State(), actions) == LegacyPass(old(State()), if received then Some(old(radio.Received())) else None)
    {
      ghost var f := radio.Received();
      actions := [];
      if received {
        if |radio.data| == PayloadSize {
          theData := DecodePayload(radio.data);
          sensorNode := SensorNode(theData.nodeId, theData.sensorId, theData.var1, theData.var2, theData.var3, radio.rssi);
          sendMqtt := true;
        }
        assert State() == Snapshot(old(State()), f);
        if radio.ackRequested {
          var theNodeId := radio.senderId;
          radio.SendAck(ackIncoming);
          actions := [Ack];
          var due := ackCount % 3 == 0;
          ackCount := IncByte(ackCount);
          if due {
            actions := [Ack, Ping(theNodeId)];
          }
        }
        assert (State(), actions) == AckAndPing(Snapshot(old(State()), f), f);
      }
      if sendMqtt {
        var batch := [SendULong(sensorNode.nodeId, sensorNode.sensorId, 1, sensorNode.var1),
                      SendFloat(sensorNode.nodeId, sensorNode.sensorId, 2, sensorNode.var2),
                      SendFloat(sensorNode.nodeId, sensorNode.sensorId, 3, sensorNode.var3),
                      SendInt(sensorNode.nodeId, sensorNode.sensorId, 4, sensorNode.var4)];
        actions := actions + batch;
        sendMqtt := false;
      }
    }
  }

  // ---------------------------------------------------------------------
  // What a pass promises.

  /** A frame of the payload's size is kept, every field as sent, with the
      RSSI it arrived at, and flags a publish; any other length changes
      neither the snapshot nor the flag. */
  lemma SnapshotOnlyPayloads(s: LegacyState, f: Frame, sent: Payload)
    ensures |f.data| != PayloadSize ==> Snapshot(s, f) == s
    ensures f.data == EncodePayload(sent) ==>
      Snapshot(s, f).sensorNode == SensorNode(sent.nodeId, sent.sensorId, sent.var1, sent.var2, sent.var3, f.rssi)
      && Snapshot(s, f).sendMqtt
  {
    if f.data == EncodePayload(sent) {
      PayloadRoundTrip(sent);
    }
  }

  /** Every request for an acknowledgement is answered, whatever node it
      was addressed to, and only those are. */
  lemma AckUnconditional(s: LegacyState, f: Frame)
    ensures Ack in AckAndPing(s, f).1 <==> f.ackRequested
  {
  }

  /** At the wrap of the `uint8_t` counter two consecutive requests are
      both probed: 255 and 0 are both multiples of three. */
  lemma ProbeTwiceAtWrap(s: LegacyState, f: Frame, g: Frame)
    requires s.ackCount == 255 && f.ackRequested && g.ackRequested
    ensures var (s1, a1) := AckAndPing(s, f);
      var (s2, a2) := AckAndPing(s1, g);
      && s1.ackCount == 0 && a1 == [Ack, Ping(f.senderId)] && a2 == [Ack, Ping(g.senderId)]
  {
  }

  /** Away from the wrap, requests are probed one in three: of three
      consecutive requests from a count below 253, exactly one is. */
  lemma ProbeOneInThree(s: LegacyState, f: Frame)
    requires s.ackCount < 253 && f.ackRequested
    ensures var (s1, a1) := AckAndPing(s, f);
      var (s2, a2) := AckAndPing(s1, f);
      var (s3, a3) := AckAndPing(s2, f);
      && s3.ackCount == s.ackCount + 3
      && |a1| + |a2| + |a3| == 4
  {
  }

  /** A raised flag yields exactly the four publishes, in the order 1, 2,
      3, 4, of the snapshot kept, and is lowered; without it nothing is
      published. */
  lemma BatchOnFlag(s: LegacyState, rx: Option<Frame>)
    ensures var s1 := if rx.Some? then AckAndPing(Snapshot(s, rx.value), rx.value).0 else s;
      var acks := if rx.Some? then AckAndPing(Snapshot(s, rx.value), rx.value).1 else [];
      var (s', acts) := LegacyPass(s, rx);
      && !s'.sendMqtt
      && (s1.sendMqtt ==> acts == acks + Batch(s1.sensorNode))
      && (!s1.sendMqtt ==> acts == acks)
  {
  }

  /** A frame is published at most once: after any pass the flag is down,
      so a following pass that receives nothing publishes nothing. */
  lemma PublishedOnce(s: LegacyState, rx: Option<Frame>)
    ensures var (s', _) := LegacyPass(s, rx);
      var (s'', acts) := LegacyPass(s', None);
      s'' == s' && acts == []
  {
  }

  /** Readable topics: for a node up to 99 and a sensor and value number
      up to 9 the topic is four digits, the node in the first two, the
      sensor and the value number in one each, and it fits the buffer. */
  lemma LegacyTopicShape(node: nat, sensor: nat, variable: nat)
    requires node <= 99 && sensor <= 9 && 1 <= variable <= 9
    ensures var t := LegacyTopic(node, sensor, variable);
      && |t| == 4 && AllDigits(t) && FitsTopicBuffer(t, TopicBufferSize)
      && DecimalValue(t[..2]) == node && DecimalValue(t[2..3]) == sensor && DecimalValue(t[3..]) == variable
  {
    var t := LegacyTopic(node, sensor, variable);
    DecimalWidth(node, 2);
    DecimalWidth(sensor, 1);
    DecimalWidth(variable, 1);
    FormatIntRoundTrip(node, 2);
    FormatIntRoundTrip(sensor, 1);
    FormatIntRoundTrip(variable, 1);
    assert t[..2] == FormatInt(node, 2);
    assert t[2..3] == FormatInt(sensor, 1);
    assert t[3..] == FormatInt(variable, 1);
  }

  /** The defect: node 100 with sensor 10 prints six characters, so
      `sprintf` writes seven bytes into the six-byte topic buffer. */
  lemma LegacyTopicOverflows()
    ensures |LegacyTopic(100, 10, 1)| == 6 && !FitsTopicBuffer(LegacyTopic(100, 10, 1), TopicBufferSize)
  {
    assert Decimal(100) == "100";
    assert Decimal(10) == "10";
  }

  /** `%0wd` of a 16-bit value takes at most six characters for a width
      of at most six. */
  lemma FormatInt16Width(n: i16, w: nat)
    requires w <= 6
    ensures |FormatInt(n, w)| <= 6
  {
    var m: nat := if n < 0 then 0 - n as int else n;
    DecimalWidth(m, 5);
  }

  /** The fix: a topic buffer of 14 bytes holds the topic of any pair of
      16-bit node and sensor numbers and any single-digit value number. */
  lemma LegacyTopicFitsWide(node: i16, sensor: i16, variable: nat)
    requires 1 <= variable <= 9
    ensures FitsTopicBuffer(LegacyTopic(node, sensor, variable), 14)
  {
    FormatInt16Width(node, 2);
    FormatInt16Width(sensor, 1);
    DecimalWidth(variable, 1);
  }

  /** The integer message buffers hold what is printed into them: `%u` of
      a 32-bit value in 12 bytes and `%04d` of the 16-bit RSSI in 7. (The
      float message is bounded by `snprintf`'s size argument of 12, which
      `FloatTextLimit` records.) */
  lemma LegacyMessagesFit(val: u32, rssi: i16)
    ensures |Decimal(val)| + 1 <= 12
    ensures |FormatInt(rssi, 4)| + 1 <= 7
  {
    DecimalWidth(val, 10);
    FormatInt16Width(rssi, 4);
  }
}

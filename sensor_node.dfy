/**
 * The temperature sensor node (RFM69HA-Temperature-SensorNode/Sketch.cpp):
 * `setup` fills in the header of the global `Packet_Data` once, and each
 * call of `loop` checks, by unsigned subtraction of the millisecond clock,
 * whether more than three seconds have passed since the last reading; if
 * so it restarts the timer, fills in the temperature fields with the next
 * byte sequence number and sends the record to the gateway.
 *
 * The clock and the radio's thermometer are inputs: `loop` reads the clock
 * twice (for the test and for the restart), so both readings are given.
 * The radio's set-up calls are not part of this model.
 */
module SensorNode {
  import opened Common
  import opened PacketCodec
  import opened MqttTopics
  import GatewayBridge

  /** `Temperature_Read_Interval`, in milliseconds. */
  const TemperatureReadInterval: u32 := 3000

  /** `This_Node_Radio_Device_ID`. */
  const ThisNodeDeviceId: byte := 0

  /** What the build fixes: the record layout and tags, this node's number,
      the gateway's number and the protocol version it writes. */
  datatype NodeConfig = NodeConfig(layout: Layout, tags: Tags, thisNodeId: byte, gatewayNodeId: byte, currentVersion: byte)

  /** The globals `loop` changes: `theData`, `timeTemperatureLastRead` and
      the static `sequence_number`. */
  datatype NodeState = NodeState(theData: seq<byte>, lastRead: u32, sequence: byte)

  /** A `radio.send(target, &theData, sizeof(theData))`: the node it goes
      to and the bytes of the record. */
  datatype Transmission = Transmission(target: byte, bytes: seq<byte>)

  /** The header `setup` wrote is in place. */
  predicate HeaderSet(c: NodeConfig, data: seq<byte>)
  {
    && ValidLayout(c.layout) && |data| == c.layout.size
    && data[0] == c.currentVersion && data[2] == c.thisNodeId && data[3] == c.gatewayNodeId
  }

  /** A reading is due once strictly more than the interval has passed,
      measured as `now - last` in 32-bit unsigned arithmetic. */
  predicate ReadingDue(now: u32, last: u32)
  {
    SubU32(now, last) > TemperatureReadInterval
  }

  /** The record after `loop` fills in a reading: data type, device,
      sequence number and temperature, the header left as it was. */
  function WithReading(c: NodeConfig, data: seq<byte>, sequence: byte, temperature: Float32): seq<byte>
    requires ValidLayout(c.layout) && |data| == c.layout.size
  {
    EncodeTemperature(c.layout, data,
      PacketData(data[0], c.tags.temperatureDataType, data[2], data[3], ThisNodeDeviceId, sequence, temperature, 0))
  }

  /** One call of `loop` with the two clock readings it takes: the new
      state and the transmission, if any. */
  function LoopSpec(c: NodeConfig, s: NodeState, now: u32, later: u32, temperature: Float32): (NodeState, Option<Transmission>)
    requires ValidLayout(c.layout) && |s.theData| == c.layout.size
  {
    if !ReadingDue(now, s.lastRead) then (s, None)
    else
      var data := WithReading(c, s.theData, s.sequence, temperature);
      (NodeState(data, later, IncByte(s.sequence)), Some(Transmission(c.gatewayNodeId, data)))
  }

  class Node {
    const config: NodeConfig
    var theData: seq<byte>
    var timeTemperatureLastRead: u32
    var sequenceNumber: byte

    function State(): NodeState
      reads this
    {
      NodeState(theData, timeTemperatureLastRead, sequenceNumber)
    }

    predicate Valid()
      reads this
    {
      HeaderSet(config, theData)
    }

    /** `setup`: the zero-initialised record gets its protocol version,
        source and target; the timer starts at `now` and the sequence
        number at 0. */
    constructor (config: NodeConfig, now: u32)
      requires ValidLayout(config.layout)
      ensures this.config == config && Valid()
      ensures timeTemperatureLastRead == now && sequenceNumber == 0
      ensures forall i :: 0 <= i < |theData| && i != 0 && i != 2 && i != 3 ==> theData[i] == 0
    {
      this.config := config;
      var data := seq(config.layout.size, _ => 0);
      data := data[0 := config.currentVersion];
      data := data[2 := config.thisNodeId];
      data := data[3 := config.gatewayNodeId];
      theData := data;
      timeTemperatureLastRead := now;
      sequenceNumber := 0;
    }

    /** `loop`. `now` and `later` are the two `millis()` readings, the
        temperature what the radio reported. */
    method Loop(now: u32, later: u32, temperature: Float32) returns (sent: Option<Transmission>)
      requires Valid()
      modifies this
      ensures Valid()
      ensures (State(), sent) == LoopSpec(config, old(State()), now, later, temperature)
    {
      var elapsed := SubU32(now, timeTemperatureLastRead);
      sent := None;
      if elapsed > TemperatureReadInterval {
        timeTemperatureLastRead := later;
        var current := sequenceNumber;
        sequenceNumber := IncByte(sequenceNumber);
        theData := WithReading(config, theData, current, temperature);
        HeaderKept(config, old(theData), current, temperature);
        sent := Some(Transmission(config.gatewayNodeId, theData));
      }
    }
  }

  // ---------------------------------------------------------------------
  // What the node promises.

  /** Filling in a reading leaves the header bytes alone. */
  lemma HeaderKept(c: NodeConfig, data: seq<byte>, sequence: byte, temperature: Float32)
    requires HeaderSet(c, data)
    ensures HeaderSet(c, WithReading(c, data, sequence, temperature))
  {
  }

  /** The record sent reads back as a temperature reading of this node's
      protocol version, from this node to the gateway, for device 0, with
      the sequence number before the increment and the temperature taken;
      the radio sends it to the node its target field names. */
  lemma SentRecordFields(c: NodeConfig, s: NodeState, now: u32, later: u32, temperature: Float32)
    requires HeaderSet(c, s.theData)
    ensures var (t, sent) := LoopSpec(c, s, now, later, temperature);
      sent.Some? ==>
        var p := View(c.layout, sent.value.bytes);
        && p.protocolVersion == c.currentVersion && p.dataType == c.tags.temperatureDataType
        && p.sourceNodeId == c.thisNodeId && p.targetNodeId == c.gatewayNodeId
        && p.deviceId == ThisNodeDeviceId && p.sequenceNumber == s.sequence
        && p.temperature == temperature
        && sent.value.target == p.targetNodeId
  {
    if ReadingDue(now, s.lastRead) {
      var d := s.theData;
      TemperatureRoundTrip(c.layout, d,
        PacketData(d[0], c.tags.temperatureDataType, d[2], d[3], ThisNodeDeviceId, s.sequence, temperature, 0));
    }
  }

  /** A call sends exactly when the reading is due; then the record, whole,
      goes to the gateway, the timer restarts at the second clock reading
      and the sequence number moves on by one modulo 256; otherwise nothing
      changes. */
  lemma LoopSchedule(c: NodeConfig, s: NodeState, now: u32, later: u32, temperature: Float32)
    requires HeaderSet(c, s.theData)
    ensures var (t, sent) := LoopSpec(c, s, now, later, temperature);
      && (sent.Some? <==> SubU32(now, s.lastRead) > TemperatureReadInterval)
      && (sent.Some? ==> t.lastRead == later && t.sequence == (s.sequence + 1) % 256)
      && (sent.Some? ==> sent.value.target == c.gatewayNodeId && sent.value.bytes == t.theData
                         && |sent.value.bytes| == c.layout.size)
      && (sent.None? ==> t == s)
  {
  }

  /** The elapsed-time test survives the clock's wrap-around: whatever the
      last reading, a clock that has advanced by `d` milliseconds (modulo
      2^32) shows exactly `d` elapsed. */
  lemma ElapsedIsWrapSafe(last: u32, d: u32)
    ensures SubU32((last + d) % 0x1_0000_0000, last) == d
    ensures ReadingDue((last + d) % 0x1_0000_0000, last) <==> d > TemperatureReadInterval
  {
  }

  /** Right after a send, a call that reads the clock as the restart did
      sends nothing: no two records leave within the same millisecond. */
  lemma NoSecondSendAtOnce(c: NodeConfig, s: NodeState, now: u32, later: u32, temperature: Float32, t2: Float32)
    requires HeaderSet(c, s.theData)
    ensures var (t, sent) := LoopSpec(c, s, now, later, temperature);
      sent.Some? ==> LoopSpec(c, t, later, later, t2).1.None?
  {
    var (t, sent) := LoopSpec(c, s, now, later, temperature);
    if sent.Some? {
      HeaderKept(c, s.theData, s.sequence, temperature);
    }
  }

  /** End to end: when the node writes the protocol version the gateway
      accepts, and the gateway shares its record layout and tags and has a
      root of at most 79 characters, every record the node sends is
      published by the gateway as exactly its RSSI, the sequence number and
      the temperature, under this node and device 0. */
  lemma GatewayPublishesReading(c: NodeConfig, g: GatewayBridge.Config, s: NodeState, now: u32, later: u32,
                                temperature: Float32, rssi: i16)
    requires HeaderSet(c, s.theData)
    requires g.layout == c.layout && g.tags == c.tags && g.tags.firstProtocolVersion == c.currentVersion
    requires |g.root| <= 79
    ensures var (t, sent) := LoopSpec(c, s, now, later, temperature);
      sent.Some? ==>
        GatewayBridge.Dispatch(g, sent.value.bytes, rssi) == [
          GatewayBridge.Publish(OutputTopic(g.root, g.networkId, c.thisNodeId, ThisNodeDeviceId, "RSSI"), RssiMessage(rssi)),
          GatewayBridge.Publish(OutputTopic(g.root, g.networkId, c.thisNodeId, ThisNodeDeviceId, "Sequence"), SequenceMessage(s.sequence)),
          GatewayBridge.Publish(OutputTopic(g.root, g.networkId, c.thisNodeId, ThisNodeDeviceId, "TemperatureC"), TemperatureText(temperature))]
  {
    var (t, sent) := LoopSpec(c, s, now, later, temperature);
    if sent.Some? {
      SentRecordFields(c, s, now, later, temperature);
      GatewayBridge.TemperatureFramePublishesThree(g, sent.value.bytes, rssi);
    }
  }
}

/**
 * One pass of the current gateway's run loop (`runLoop` in
 * piGateway/Gateway.cpp): the radio link watchdog, the acknowledgement of
 * addressed frames together with the one-in-three probe of the sender,
 * the dispatch of a received `Packet_Data` to MQTT publishes or to a hex
 * dump, and the gateway's own temperature report.
 *
 * The radio driver, the MQTT client and the clock are outside the model:
 * a pass receives the time, whether a frame arrived, what the driver's
 * ack leaves in its receive buffer, whether the probe was acknowledged and
 * the radio's temperature reading, and returns what it asked the outside
 * world to do as a sequence of actions.
 */
module GatewayBridge {
  import opened Common
  import opened PacketCodec
  import opened MqttTopics
  import opened HexDump
  import opened RadioLink

  /** `Watchdog_Timeout_Delay`, in milliseconds. */
  const WatchdogTimeout: nat := 1800000

  /** `Temperature_Read_Interval`, in milliseconds. */
  const TemperatureReadInterval: nat := 3000

  /** `Desired_Data_Vals_Per_Line`. */
  const DesiredPerLine: nat := 16

  /** `This_Node_Radio_Device_ID`: the device number of the gateway's own
      radio thermometer. */
  const ThisNodeDeviceId: byte := 0

  /** What the build fixes: the MQTT root, the network and node numbers,
      and the record layout and tags of the shared header. */
  datatype Config = Config(root: string, networkId: byte, gatewayNodeId: byte, layout: Layout, tags: Tags)

  predicate ValidConfig(c: Config) { ValidLayout(c.layout) }

  /** A request to the outside world. `HexDump` carries the description
      line it prints (`""`, or none for a `NULL` argument and for empty
      data, where `hexDump` returns before printing anything) and the lines
      logged; `Die` ends the process. */
  datatype Action =
    | Reinit
    | SendAck
    | Probe(node: byte)
    | Publish(topic: string, message: Message)
    | HexDump(description: Option<string>, lines: seq<DumpLine>)
    | Die(reason: Fatal)

  /** The process has ended: the last action is a `die`. */
  predicate Dies(acts: seq<Action>)
  {
    |acts| > 0 && acts[|acts| - 1].Die?
  }

  /** The fields of `the_Stats`. */
  datatype Stats = Stats(
    messageWatchdog: nat,
    messageSent: nat,
    messageReceived: nat,
    ackRequested: nat,
    ackReceived: nat,
    ackMissed: nat,
    ackCount: nat)

  /** The state a pass carries over: the statistics, `last_message_time`,
      and the two `static` locals of the self-report. The timer is a
      block-scope static initialised from the clock when control first
      reaches it, so it is `None` until the first pass gets there. */
  datatype Bridge = Bridge(stats: Stats, lastMessageTime: nat, sequenceNumber: byte, temperatureLastRead: Option<nat>)

  /** The state after a pass and the actions it took. */
  datatype Outcome = Outcome(state: Bridge, actions: seq<Action>)

  /** The counters move together: every addressed request is counted twice
      over, one in three of them (the first, fourth, ...) is probed, and
      each probe is answered or missed. */
  predicate StatsInvariant(s: Stats)
  {
    && s.ackCount == s.ackRequested
    && s.messageSent == (s.ackCount + 2) / 3
    && s.ackReceived + s.ackMissed == s.messageSent
  }

  /** All counters zero (a global), the watchdog timer read at start-up,
      the self-report timer not yet initialised. */
  function Initial(start: nat): (s: Bridge)
    ensures StatsInvariant(s.stats) && s.lastMessageTime == start && s.temperatureLastRead.None?
  {
    Bridge(Stats(0, 0, 0, 0, 0, 0, 0), start, 0, None)
  }

  // ---------------------------------------------------------------------
  // The specification of one pass, part by part.

  predicate WatchdogFires(s: Bridge, now: nat)
  {
    now > s.lastMessageTime + WatchdogTimeout
  }

  /** No frame for longer than the timeout: count it, re-initialise the
      radio and restart the timer. */
  function Watchdog(s: Bridge, now: nat): Outcome
  {
    if WatchdogFires(s, now) then
      Outcome(s.(stats := s.stats.(messageWatchdog := s.stats.messageWatchdog + 1), lastMessageTime := now), [Reinit])
    else Outcome(s, [])
  }

  /** The probe is due when the request count, read before it is bumped,
      is a multiple of three. */
  predicate ProbeDue(s: Stats) { s.ackCount % 3 == 0 }

  predicate AckWanted(c: Config, f: Frame)
  {
    f.ackRequested && f.targetId == c.gatewayNodeId
  }

  /** The acknowledgement and the probe, with the counters they move. */
  function Acknowledge(c: Config, s: Stats, f: Frame, probeAcked: bool): (Stats, seq<Action>)
  {
    if !AckWanted(c, f) then (s, [])
    else
      var s1 := s.(ackRequested := s.ackRequested + 1, ackCount := s.ackCount + 1);
      if !ProbeDue(s) then (s1, [SendAck])
      else
        var s2 := s1.(messageSent := s1.messageSent + 1);
        var s3 := if probeAcked then s2.(ackReceived := s2.ackReceived + 1) else s2.(ackMissed := s2.ackMissed + 1);
        (s3, [SendAck, Probe(f.senderId)])
  }

  /** `mqttFormOutputTopic` followed by `mosquittoPublishMessage`. */
  function Report(c: Config, node: byte, device: byte, subject: string, m: Message): seq<Action>
  {
    match FormOutputTopic(c.root, c.networkId, node, device, subject)
    case Err(e) => [Die(e)]
    case Ok(topic) =>
      match PublishCheck(topic, m)
      case Some(e) => [Die(e)]
      case None => [Publish(topic, m)]
  }

  /** The three publishes of a temperature reading, stopping at a `die`. */
  function TemperatureReports(c: Config, p: PacketData, rssi: i16): seq<Action>
  {
    var a := Report(c, p.sourceNodeId, p.deviceId, "RSSI", RssiMessage(rssi));
    if Dies(a) then a
    else
      var b := a + Report(c, p.sourceNodeId, p.deviceId, "Sequence", SequenceMessage(p.sequenceNumber));
      if Dies(b) then b
      else b + Report(c, p.sourceNodeId, p.deviceId, "TemperatureC", TemperatureText(p.temperature))
  }

  predicate IsTemperatureReading(c: Config, data: seq<byte>)
    requires ValidConfig(c)
  {
    && |data| == c.layout.size
    && View(c.layout, data).protocolVersion == c.tags.firstProtocolVersion
    && View(c.layout, data).dataType == c.tags.temperatureDataType
  }

  /** What the copied frame leads to: a hex dump, described when its
      length is wrong (an empty frame prints nothing at all), the three
      publishes for a temperature reading of the first protocol version, an
      undescribed hex dump for anything else. */
  function Dispatch(c: Config, data: seq<byte>, rssi: i16): seq<Action>
    requires ValidConfig(c)
  {
    if |data| != c.layout.size then [HexDump(if |data| == 0 then None else Some(""), Dump(CppStyle, data, DesiredPerLine))]
    else if IsTemperatureReading(c, data) then TemperatureReports(c, View(c.layout, data), rssi)
    else [HexDump(None, Dump(CppStyle, data, DesiredPerLine))]
  }

  /** A received frame: restart the watchdog, count it, acknowledge and
      probe, then dispatch the bytes copied before the acknowledgement. */
  function Receive(c: Config, s: Bridge, now: nat, f: Frame, probeAcked: bool): Outcome
    requires ValidConfig(c)
  {
    var counted := s.stats.(messageReceived := s.stats.messageReceived + 1);
    var (stats, acks) := Acknowledge(c, counted, f, probeAcked);
    Outcome(s.(stats := stats, lastMessageTime := now), acks + Dispatch(c, f.data, f.rssi))
  }

  /** `time_temperature_last_read` as the test reads it: the first pass to
      reach the block initialises it from the clock. */
  function LastRead(s: Bridge, now: nat): nat
  {
    if s.temperatureLastRead.Some? then s.temperatureLastRead.value else now
  }

  predicate SelfReportDue(s: Bridge, now: nat)
  {
    now > LastRead(s, now) + TemperatureReadInterval
  }

  /** The gateway's own reading: the timer restarts, then its sequence
      number (bumped once the first topic is formed) and its temperature
      are published for (gateway node, device 0). */
  function SelfReport(c: Config, s: Bridge, now: nat, temperature: Float32): Outcome
  {
    if !SelfReportDue(s, now) then Outcome(s.(temperatureLastRead := Some(LastRead(s, now))), [])
    else
      var s1 := s.(temperatureLastRead := Some(now));
      match FormOutputTopic(c.root, c.networkId, c.gatewayNodeId, ThisNodeDeviceId, "Sequence")
      case Err(e) => Outcome(s1, [Die(e)])
      case Ok(_) =>
        var s2 := s1.(sequenceNumber := IncByte(s.sequenceNumber));
        var a := Report(c, c.gatewayNodeId, ThisNodeDeviceId, "Sequence", SequenceMessage(s.sequenceNumber));
        if Dies(a) then Outcome(s2, a)
        else Outcome(s2, a + Report(c, c.gatewayNodeId, ThisNodeDeviceId, "TemperatureC", TemperatureText(temperature)))
  }

  /** One whole pass of `runLoop`; `rx` is the frame when `receiveDone()`
      returned true. A `die` ends the pass and the process. */
  function Pass(c: Config, s: Bridge, now: nat, rx: Option<Frame>, probeAcked: bool, temperature: Float32): Outcome
    requires ValidConfig(c)
  {
    var w := Watchdog(s, now);
    var r := if rx.Some? then Receive(c, w.state, now, rx.value, probeAcked) else Outcome(w.state, []);
    if Dies(r.actions) then Outcome(r.state, w.actions + r.actions)
    else
      var t := SelfReport(c, r.state, now, temperature);
      Outcome(t.state, w.actions + r.actions + t.actions)
  }

  // ---------------------------------------------------------------------
  // The loop pass itself.

  class Gateway {
    const config: Config
    var stats: Stats
    var lastMessageTime: nat
    var sequenceNumber: byte
    var temperatureLastRead: Option<nat>

    function State(): Bridge
      reads this
    {
      Bridge(stats, lastMessageTime, sequenceNumber, temperatureLastRead)
    }

    /** Start-up: zeroed statistics, the watchdog timer at `start`. */
    constructor (config: Config, start: nat)
      ensures this.config == config && State() == Initial(start)
    {
      this.config := config;
      stats := Stats(0, 0, 0, 0, 0, 0, 0);
      lastMessageTime := start;
      sequenceNumber := 0;
      temperatureLastRead := None;
    }

    /** One pass of the `while` in `runLoop`. The frame is copied out of the
        radio before the acknowledgement may overwrite the radio's buffer,
        so the pass acts on the frame that was received. */
    method Step(radio: Radio, now: nat, received: bool, ackIncoming: seq<byte>, probeAcked: bool, temperature: Float32)
      returns (actions: seq<Action>)
      requires ValidConfig(config)
      modifies this, radio
      ensures var o := Pass(config, old(State()), now, if received then Some(old(radio.Received())) else None,
                            probeAcked, temperature);
        State() == o.state && actions == o.actions
      ensures radio.data == if received && AckWanted(config, old(radio.Received())) then ackIncoming else old(radio.data)
    {
      actions := CheckWatchdog(now);
      if received {
        var got := ReceiveFrame(radio, now, ackIncoming, probeAcked);
        actions := actions + got;
        if Dies(got) {
          return;
        }
      }
      var own := ReportOwnTemperature(now, temperature);
      actions := actions + own;
    }

    /** The link watchdog. */
    method CheckWatchdog(now: nat) returns (actions: seq<Action>)
      modifies this
      ensures Outcome(State(), actions) == Watchdog(old(State()), now)
    {
      actions := [];
      if now > lastMessageTime + WatchdogTimeout {
        stats := stats.(messageWatchdog := stats.messageWatchdog + 1);
        actions := [Reinit];
        lastMessageTime := now;
      }
    }

    /** A received frame: copy it, acknowledge and probe, then dispatch the
        copy. */
    method ReceiveFrame(radio: Radio, now: nat, ackIncoming: seq<byte>, probeAcked: bool) returns (actions: seq<Action>)
      requires ValidConfig(config)
      modifies this, radio
      ensures Outcome(State(), actions) == Receive(config, old(State()), now, old(radio.Received()), probeAcked)
      ensures radio.data == if AckWanted(config, old(radio.Received())) then ackIncoming else old(radio.data)
    {
      ghost var f := radio.Received();
      lastMessageTime := now;
      stats := stats.(messageReceived := stats.messageReceived + 1);

      var data := radio.data;
      var rssi := radio.rssi;
      actions := AcknowledgeFrame(radio, ackIncoming, probeAcked);
      var dispatched := DispatchFrame(config, data, rssi);
      assert dispatched == Dispatch(config, f.data, f.rssi);
      actions := actions + dispatched;
    }

    /** The acknowledgement of an addressed frame and the probe of every
        third one. */
    method AcknowledgeFrame(radio: Radio, ackIncoming: seq<byte>, probeAcked: bool) returns (actions: seq<Action>)
      modifies this`stats, radio
      ensures (stats, actions) == Acknowledge(config, old(stats), old(radio.Received()), probeAcked)
      ensures radio.data == if AckWanted(config, old(radio.Received())) then ackIncoming else old(radio.data)
      ensures radio.rssi == old(radio.rssi)
    {
      var node := radio.senderId;
      var target := radio.targetId;
      var ackRequested := radio.ackRequested;
      actions := [];
      if ackRequested && target == config.gatewayNodeId {
        stats := stats.(ackRequested := stats.ackRequested + 1);
        radio.SendAck(ackIncoming);
        actions := [SendAck];
        var due := stats.ackCount % 3 == 0;
        stats := stats.(ackCount := stats.ackCount + 1);
        if due {
          stats := stats.(messageSent := stats.messageSent + 1);
          actions := actions + [Probe(node)];
          assert actions == [SendAck, Probe(node)];
          if probeAcked {
            stats := stats.(ackReceived := stats.ackReceived + 1);
          } else {
            stats := stats.(ackMissed := stats.ackMissed + 1);
          }
        }
      }
    }

    /** The gateway's own temperature report. */
    method ReportOwnTemperature(now: nat, temperature: Float32) returns (actions: seq<Action>)
      modifies this
      ensures Outcome(State(), actions) == SelfReport(config, old(State()), now, temperature)
    {
      if temperatureLastRead.None? {
        temperatureLastRead := Some(now);
      }
      actions := [];
      if now > temperatureLastRead.value + TemperatureReadInterval {
        temperatureLastRead := Some(now);
        var topic := FormOutputTopic(config.root, config.networkId, config.gatewayNodeId, ThisNodeDeviceId, "Sequence");
        if topic.Err? {
          actions := [Die(topic.error)];
          return;
        }
        var first := Report(config, config.gatewayNodeId, ThisNodeDeviceId, "Sequence", SequenceMessage(sequenceNumber));
        sequenceNumber := IncByte(sequenceNumber);
        actions := first;
        if Dies(first) {
          return;
        }
        actions := actions + Report(config, config.gatewayNodeId, ThisNodeDeviceId, "TemperatureC", TemperatureText(temperature));
      }
    }
  }

  /** The length, version and type dispatch of a copied frame. */
  method DispatchFrame(c: Config, data: seq<byte>, rssi: i16) returns (actions: seq<Action>)
    requires ValidConfig(c)
    ensures actions == Dispatch(c, data, rssi)
  {
    if |data| != c.layout.size {
      var lines := HexDumpFixed(data, DesiredPerLine);
      actions := [HexDump(if |data| == 0 then None else Some(""), lines)];
    } else {
      var packet := View(c.layout, data);
      if packet.protocolVersion == c.tags.firstProtocolVersion && packet.dataType == c.tags.temperatureDataType {
        actions := TemperatureReports(c, packet, rssi);
      } else {
        var lines := HexDumpFixed(data, DesiredPerLine);
        actions := [HexDump(None, lines)];
      }
    }
  }

  // ---------------------------------------------------------------------
  // What a pass promises.

  /** The watchdog fires exactly when no frame came for longer than the
      timeout; it counts once, asks for one re-initialisation and restarts
      the timer, so checking again at once does not fire. */
  lemma WatchdogRearms(s: Bridge, now: nat)
    ensures var w := Watchdog(s, now);
      && (w.actions == [Reinit] <==> now > s.lastMessageTime + WatchdogTimeout)
      && (w.actions == [] <==> now <= s.lastMessageTime + WatchdogTimeout)
      && (w.actions == [Reinit] ==>
            w.state.stats.messageWatchdog == s.stats.messageWatchdog + 1 && w.state.lastMessageTime == now)
      && !WatchdogFires(w.state, now)
  {
  }

  /** Every received frame is counted and restarts the watchdog: after it,
      the watchdog stays quiet for the whole timeout. */
  lemma FrameRestartsWatchdog(c: Config, s: Bridge, now: nat, f: Frame, probeAcked: bool, later: nat)
    requires ValidConfig(c)
    requires now <= later <= now + WatchdogTimeout
    ensures var r := Receive(c, s, now, f, probeAcked);
      && r.state.lastMessageTime == now
      && r.state.stats.messageReceived == s.stats.messageReceived + 1
      && !WatchdogFires(r.state, later)
  {
  }

  /** An acknowledgement goes out exactly when the frame asks for one and
      is addressed to this gateway; a probe only ever follows one, and goes
      to the frame's sender. */
  lemma AckOnlyWhenAddressed(c: Config, s: Stats, f: Frame, probeAcked: bool)
    ensures var (s', acts) := Acknowledge(c, s, f, probeAcked);
      && (SendAck in acts <==> f.ackRequested && f.targetId == c.gatewayNodeId)
      && (acts == [] <==> !AckWanted(c, f))
      && (forall a :: a in acts && a.Probe? ==> a.node == f.senderId && acts[0] == SendAck)
      && (s'.ackRequested == s.ackRequested + 1 <==> AckWanted(c, f))
  {
  }

  /** The n-th addressed request since start-up (counting from one) is
      probed exactly when n leaves remainder 1 when divided by 3: the first,
      fourth, seventh, ... */
  lemma ProbeSchedule(c: Config, s: Stats, f: Frame, probeAcked: bool)
    requires StatsInvariant(s) && AckWanted(c, f)
    ensures var n := s.ackRequested + 1;
      Probe(f.senderId) in Acknowledge(c, s, f, probeAcked).1 <==> n % 3 == 1
  {
  }

  /** Each probe bumps `messageSent` and exactly one of the answered and
      missed counts. */
  lemma ProbeOutcomeCounted(c: Config, s: Stats, f: Frame, probeAcked: bool)
    requires AckWanted(c, f) && ProbeDue(s)
    ensures var s' := Acknowledge(c, s, f, probeAcked).0;
      && s'.messageSent == s.messageSent + 1
      && (probeAcked ==> s'.ackReceived == s.ackReceived + 1 && s'.ackMissed == s.ackMissed)
      && (!probeAcked ==> s'.ackMissed == s.ackMissed + 1 && s'.ackReceived == s.ackReceived)
  {
  }

  /** The counters stay in step across an acknowledgement. */
  lemma AcknowledgeKeepsInvariant(c: Config, s: Stats, f: Frame, probeAcked: bool)
    requires StatsInvariant(s)
    ensures StatsInvariant(Acknowledge(c, s, f, probeAcked).0)
  {
    if AckWanted(c, f) {
      var n := s.ackCount;
      if n % 3 == 0 {
        assert (n + 3) / 3 == (n + 2) / 3 + 1;
      } else {
        assert (n + 3) / 3 == (n + 2) / 3;
      }
    }
  }

  /** The self-report touches none of the counters. */
  lemma SelfReportKeepsStats(c: Config, s: Bridge, now: nat, temperature: Float32)
    ensures SelfReport(c, s, now, temperature).state.stats == s.stats
  {
  }

  /** Every pass keeps the counters in step, whatever it receives. */
  lemma PassKeepsInvariant(c: Config, s: Bridge, now: nat, rx: Option<Frame>, probeAcked: bool, temperature: Float32)
    requires ValidConfig(c) && StatsInvariant(s.stats)
    ensures StatsInvariant(Pass(c, s, now, rx, probeAcked, temperature).state.stats)
  {
    var w := Watchdog(s, now);
    var r := if rx.Some? then Receive(c, w.state, now, rx.value, probeAcked) else Outcome(w.state, []);
    if rx.Some? {
      var counted := w.state.stats.(messageReceived := w.state.stats.messageReceived + 1);
      AcknowledgeKeepsInvariant(c, counted, rx.value, probeAcked);
      assert r.state.stats == Acknowledge(c, counted, rx.value, probeAcked).0;
    }
    assert StatsInvariant(r.state.stats);
    SelfReportKeepsStats(c, r.state, now, temperature);
  }

  /** A report publishes its message under the output topic, unless root
      and subject together exceed 91 characters, when the process dies on
      the topic; the message guard never fires for the gateway's payloads. */
  lemma ReportOutcome(c: Config, node: byte, device: byte, subject: string, m: Message)
    requires MessageFits(m)
    ensures Report(c, node, device, subject, m)
         == if |c.root| + |subject| > 91 then [Die(TopicTooLarge)]
            else [Publish(OutputTopic(c.root, c.networkId, node, device, subject), m)]
  {
    FormOutputTopicDiesIff(c.root, c.networkId, node, device, subject);
    OutputTopicLength(c.root, c.networkId, node, device, subject);
  }

  /** A temperature reading of the first protocol version is published as
      exactly three messages, in the order RSSI, sequence, temperature,
      all under the sender's node and device. */
  lemma TemperatureFramePublishesThree(c: Config, data: seq<byte>, rssi: i16)
    requires ValidConfig(c) && |c.root| <= 79 && IsTemperatureReading(c, data)
    ensures var p := View(c.layout, data);
      Dispatch(c, data, rssi) == [
        Publish(OutputTopic(c.root, c.networkId, p.sourceNodeId, p.deviceId, "RSSI"), RssiMessage(rssi)),
        Publish(OutputTopic(c.root, c.networkId, p.sourceNodeId, p.deviceId, "Sequence"), SequenceMessage(p.sequenceNumber)),
        Publish(OutputTopic(c.root, c.networkId, p.sourceNodeId, p.deviceId, "TemperatureC"), TemperatureText(p.temperature))]
  {
    TemperatureReportsPublish(c, View(c.layout, data), rssi);
  }

  lemma TemperatureReportsPublish(c: Config, p: PacketData, rssi: i16)
    requires |c.root| <= 79
    ensures TemperatureReports(c, p, rssi) == [
        Publish(OutputTopic(c.root, c.networkId, p.sourceNodeId, p.deviceId, "RSSI"), RssiMessage(rssi)),
        Publish(OutputTopic(c.root, c.networkId, p.sourceNodeId, p.deviceId, "Sequence"), SequenceMessage(p.sequenceNumber)),
        Publish(OutputTopic(c.root, c.networkId, p.sourceNodeId, p.deviceId, "TemperatureC"), TemperatureText(p.temperature))]
  {
    GatewayMessagesFit(rssi, p.sequenceNumber, p.temperature);
    var first := Report(c, p.sourceNodeId, p.deviceId, "RSSI", RssiMessage(rssi));
    var second := Report(c, p.sourceNodeId, p.deviceId, "Sequence", SequenceMessage(p.sequenceNumber));
    var third := Report(c, p.sourceNodeId, p.deviceId, "TemperatureC", TemperatureText(p.temperature));
    ReportOutcome(c, p.sourceNodeId, p.deviceId, "RSSI", RssiMessage(rssi));
    ReportOutcome(c, p.sourceNodeId, p.deviceId, "Sequence", SequenceMessage(p.sequenceNumber));
    ReportOutcome(c, p.sourceNodeId, p.deviceId, "TemperatureC", TemperatureText(p.temperature));
    assert !Dies(first) && !Dies(first + second);
    assert TemperatureReports(c, p, rssi) == first + second + third;
    ThreeInOrder(first[0], second[0], third[0]);
  }

  lemma ThreeInOrder(x: Action, y: Action, z: Action)
    ensures [x] + [y] + [z] == [x, y, z]
  {
  }

  /** Any other frame publishes nothing and is hex-dumped once, with an
      (empty) description exactly when its length is wrong. */
  lemma OtherFramesDumped(c: Config, data: seq<byte>, rssi: i16)
    requires ValidConfig(c) && !IsTemperatureReading(c, data)
    ensures Dispatch(c, data, rssi)
         == [HexDump(if |data| != c.layout.size && |data| != 0 then Some("") else None, Dump(CppStyle, data, DesiredPerLine))]
    ensures forall a :: a in Dispatch(c, data, rssi) ==> !a.Publish?
    ensures |data| == 0 ==> Dispatch(c, data, rssi) == [HexDump(None, [])]
  {
    if |data| == 0 {
      assert Slots(CppStyle, data, DesiredPerLine) == [];
    }
  }

  /** The self-report runs exactly when the interval has passed; it then
      publishes the sequence number and the temperature, in that order, for
      the gateway's node and device 0, bumps the sequence modulo 256 and
      restarts its timer. */
  lemma SelfReportSchedule(c: Config, s: Bridge, now: nat, temperature: Float32)
    requires |c.root| <= 79
    ensures var t := SelfReport(c, s, now, temperature);
      && (t.actions != [] <==> s.temperatureLastRead.Some? && now > s.temperatureLastRead.value + TemperatureReadInterval)
      && (t.actions != [] ==>
            && t.actions == [
                 Publish(OutputTopic(c.root, c.networkId, c.gatewayNodeId, ThisNodeDeviceId, "Sequence"),
                         SequenceMessage(s.sequenceNumber)),
                 Publish(OutputTopic(c.root, c.networkId, c.gatewayNodeId, ThisNodeDeviceId, "TemperatureC"),
                         TemperatureText(temperature))]
            && t.state.sequenceNumber == (s.sequenceNumber + 1) % 256
            && !SelfReportDue(t.state, now))
      && (t.actions == [] ==> t.state == s.(temperatureLastRead := Some(LastRead(s, now))))
      && t.state.temperatureLastRead.Some?
  {
    if SelfReportDue(s, now) {
      GatewayMessagesFit(0, s.sequenceNumber, temperature);
      FormOutputTopicDiesIff(c.root, c.networkId, c.gatewayNodeId, ThisNodeDeviceId, "Sequence");
      ReportOutcome(c, c.gatewayNodeId, ThisNodeDeviceId, "Sequence", SequenceMessage(s.sequenceNumber));
      ReportOutcome(c, c.gatewayNodeId, ThisNodeDeviceId, "TemperatureC", TemperatureText(temperature));
      var first := Report(c, c.gatewayNodeId, ThisNodeDeviceId, "Sequence", SequenceMessage(s.sequenceNumber));
      var second := Report(c, c.gatewayNodeId, ThisNodeDeviceId, "TemperatureC", TemperatureText(temperature));
      assert !Dies(first);
      assert SelfReport(c, s, now, temperature).actions == first + second;
      TwoInOrder(first[0], second[0]);
    }
  }

  /** The self-report timer is initialised by the first pass that reaches
      it, so that pass never reports, however long start-up took; the
      earliest report comes more than the interval after that pass. */
  lemma FirstPassNeverReports(c: Config, s: Bridge, now: nat, later: nat, temperature: Float32)
    requires s.temperatureLastRead.None?
    ensures var t := SelfReport(c, s, now, temperature);
      && t.actions == [] && t.state == s.(temperatureLastRead := Some(now))
      && (SelfReportDue(t.state, later) <==> later > now + TemperatureReadInterval)
  {
  }

  lemma TwoInOrder(x: Action, y: Action)
    ensures [x] + [y] == [x, y]
  {
  }

  /** With a root of at most 79 characters a frame never kills the
      gateway, whatever it holds. */
  lemma ShortRootDispatchLives(c: Config, data: seq<byte>, rssi: i16)
    requires ValidConfig(c) && |c.root| <= 79
    ensures forall a :: a in Dispatch(c, data, rssi) ==> !a.Die?
  {
    if IsTemperatureReading(c, data) {
      TemperatureFramePublishesThree(c, data, rssi);
    }
  }

  lemma ShortRootReceiveLives(c: Config, s: Bridge, now: nat, f: Frame, probeAcked: bool)
    requires ValidConfig(c) && |c.root| <= 79
    ensures forall a :: a in Receive(c, s, now, f, probeAcked).actions ==> !a.Die?
  {
    var counted := s.stats.(messageReceived := s.stats.messageReceived + 1);
    var acks := Acknowledge(c, counted, f, probeAcked).1;
    ShortRootDispatchLives(c, f.data, f.rssi);
    assert Receive(c, s, now, f, probeAcked).actions == acks + Dispatch(c, f.data, f.rssi);
  }

  /** With a root of at most 79 characters the gateway never dies in a
      pass, whatever it receives. */
  lemma ShortRootNeverDies(c: Config, s: Bridge, now: nat, rx: Option<Frame>, probeAcked: bool, temperature: Float32)
    requires ValidConfig(c) && |c.root| <= 79
    ensures forall a :: a in Pass(c, s, now, rx, probeAcked, temperature).actions ==> !a.Die?
  {
    var w := Watchdog(s, now);
    var r := if rx.Some? then Receive(c, w.state, now, rx.value, probeAcked) else Outcome(w.state, []);
    if rx.Some? {
      ShortRootReceiveLives(c, w.state, now, rx.value, probeAcked);
    }
    assert !Dies(r.actions);
    var t := SelfReport(c, r.state, now, temperature);
    SelfReportSchedule(c, r.state, now, temperature);
    assert forall a :: a in t.actions ==> !a.Die?;
    assert Pass(c, s, now, rx, probeAcked, temperature).actions == w.actions + r.actions + t.actions;
  }

  /** With a root longer than 79 characters a temperature reading kills
      the process: at the latest the `TemperatureC` topic is too long. */
  lemma LongRootDies(c: Config, data: seq<byte>, rssi: i16)
    requires ValidConfig(c) && |c.root| > 79 && IsTemperatureReading(c, data)
    ensures var acts := Dispatch(c, data, rssi);
      Dies(acts) && acts[|acts| - 1] == Die(TopicTooLarge)
  {
    TemperatureReportsDie(c, View(c.layout, data), rssi);
  }

  lemma TemperatureReportsDie(c: Config, p: PacketData, rssi: i16)
    requires |c.root| > 79
    ensures var acts := TemperatureReports(c, p, rssi);
      Dies(acts) && acts[|acts| - 1] == Die(TopicTooLarge)
  {
    GatewayMessagesFit(rssi, p.sequenceNumber, p.temperature);
    var first := Report(c, p.sourceNodeId, p.deviceId, "RSSI", RssiMessage(rssi));
    ReportOutcome(c, p.sourceNodeId, p.deviceId, "RSSI", RssiMessage(rssi));
    if |c.root| <= 87 {
      assert !Dies(first);
      var second := Report(c, p.sourceNodeId, p.deviceId, "Sequence", SequenceMessage(p.sequenceNumber));
      ReportOutcome(c, p.sourceNodeId, p.deviceId, "Sequence", SequenceMessage(p.sequenceNumber));
      LastOfAppended(first, second);
      if |c.root| <= 83 {
        assert !Dies(first + second);
        var third := Report(c, p.sourceNodeId, p.deviceId, "TemperatureC", TemperatureText(p.temperature));
        ReportOutcome(c, p.sourceNodeId, p.deviceId, "TemperatureC", TemperatureText(p.temperature));
        LastOfAppended(first + second, third);
      }
    }
  }

  lemma LastOfAppended(a: seq<Action>, b: seq<Action>)
    requires |b| == 1
    ensures Dies(a + b) == b[0].Die? && (a + b)[|a + b| - 1] == b[0]
  {
  }
}

/**
 * The C++ radio test tool (piGateway/SenderReceiver.cpp): one pass of its
 * `for (;;)` loop. Whatever the mode, a frame the radio received is copied
 * out, acknowledged when it asked for it and was addressed to this node,
 * and either hex-dumped (wrong length) or shown by its data type. In
 * sender mode every pass also counts, and every twentieth one sends a
 * fixed test packet to node 2.
 */
module SenderReceiver {
  import opened Common
  import opened PacketCodec
  import opened HexDump
  import opened RadioLink
  import opened TestTools
  import GatewayBridge

  /** `Desired_Data_Vals_Per_Line`. */
  const DesiredPerLine: nat := 16

  /** The fields `send_message` assigns. */
  const TestTarget: byte := 2
  const TestDevice: byte := 10
  const TestSequence: byte := 100

  /** `99.0` as a single-precision float. */
  const NinetyNine: Float32 := Float32(0x42C6_0000)

  /** The globals a pass changes: `counter` and `the_RFM69_Packet`. */
  datatype ToolState = ToolState(counter: nat, packet: PacketData)

  /** A zero-initialised global `Packet_Data`. */
  const ZeroPacket: PacketData := PacketData(0, 0, 0, 0, 0, 0, Float32(0), 0)

  /** The `switch` on `data_Type`: a test packet shows its test sequence
      number, a temperature packet its device, sequence and temperature,
      anything else only that the type is unknown. */
  function Classify(tags: Tags, p: PacketData, rssi: i16): Shown
  {
    if p.dataType == tags.testDataType then TestPacket(p.sourceNodeId, rssi, p.testSequenceNumber)
    else if p.dataType == tags.temperatureDataType then
      TemperaturePacket(p.sourceNodeId, rssi, p.deviceId, p.sequenceNumber, p.temperature)
    else UnknownPacket(p.sourceNodeId, rssi)
  }

  /** The receive branch on a copied frame. */
  function Receive(l: Layout, tags: Tags, nodeId: byte, s: ToolState, f: Frame): (ToolState, seq<ToolAction>)
    requires ValidLayout(l)
  {
    if |f.data| != l.size then (s, Acks(nodeId, f) + [HexDumped(Dump(CppStyle, f.data, DesiredPerLine))])
    else
      var p := View(l, f.data);
      (s.(packet := p), Acks(nodeId, f) + [Show(Classify(tags, p, f.rssi))])
  }

  /** `send_message`'s local `Packet_Data`: the stack bytes it starts from,
      with target, source, device, sequence and temperature assigned.
      `protocol_Version` and `data_Type` keep whatever the stack held. */
  function TestMessage(l: Layout, nodeId: byte, stack: seq<byte>): seq<byte>
    requires ValidLayout(l) && |stack| == l.size
  {
    EncodeTemperature(l, stack,
      PacketData(stack[0], stack[1], nodeId, TestTarget, TestDevice, TestSequence, NinetyNine, 0))
  }

  /** One pass: the receive branch when a frame came, then in sender mode
      the count and the send or the sleep. */
  function Pass(mode: Mode, l: Layout, tags: Tags, nodeId: byte, s: ToolState, rx: Option<Frame>, stack: seq<byte>)
    : (ToolState, seq<ToolAction>)
    requires ValidLayout(l) && |stack| == l.size
  {
    var (s1, received) := if rx.Some? then Receive(l, tags, nodeId, s, rx.value) else (s, []);
    if mode == Receiver then (s1, received)
    else
      var (counter, sent) := SenderTurn(s1.counter,
        SendWithRetry(TestTarget, TestMessage(l, nodeId, stack), SendRetries, SendWaitTime));
      (s1.(counter := counter), received + sent)
  }

  // ---------------------------------------------------------------------
  // The loop pass.

  class Tool {
    const mode: Mode
    /** `The_Gateway_Node_ID`: the tool answers as this node. */
    const nodeId: byte
    const layout: Layout
    const tags: Tags
    var counter: nat
    var packet: PacketData

    function State(): ToolState
      reads this
    {
      ToolState(counter, packet)
    }

    constructor (mode: Mode, nodeId: byte, layout: Layout, tags: Tags)
      ensures this.mode == mode && this.nodeId == nodeId && this.layout == layout && this.tags == tags
      ensures State() == ToolState(0, ZeroPacket)
    {
      this.mode, this.nodeId, this.layout, this.tags := mode, nodeId, layout, tags;
      counter, packet := 0, ZeroPacket;
    }

    /** One pass of `run_loop`. `stack` is what `send_message`'s local
        record holds before its fields are assigned. */
    method Step(radio: Radio, received: bool, ackIncoming: seq<byte>, stack: seq<byte>)
      returns (actions: seq<ToolAction>)
      requires ValidLayout(layout) && |stack| == layout.size
      modifies this, radio
      ensures (State(), actions)
           == Pass(mode, layout, tags, nodeId, old(State()), if received then Some(old(radio.Received())) else None, stack)
      ensures radio.data
           == if received && old(radio.ackRequested) && old(radio.targetId) == nodeId then ackIncoming else old(radio.data)
    {
      actions := [];
      if received {
        actions := ReceiveFrame(radio, ackIncoming);
      }
      if mode == Sender {
        counter := counter + 1;
        if counter % SendPeriod == 0 {
          var frame := TestMessage(layout, nodeId, stack);
          actions := actions + [SendWithRetry(TestTarget, frame, SendRetries, SendWaitTime)];
        } else {
          actions := actions + [Sleep(IdleSleep)];
        }
      }
    }

    /** The receive branch: copy the frame, acknowledge, then dump or show
        the copy. */
    method ReceiveFrame(radio: Radio, ackIncoming: seq<byte>) returns (actions: seq<ToolAction>)
      requires ValidLayout(layout)
      modifies this`packet, radio
      ensures (State(), actions) == Receive(layout, tags, nodeId, old(State()), old(radio.Received()))
      ensures radio.data
           == if old(radio.ackRequested) && old(radio.targetId) == nodeId then ackIncoming else old(radio.data)
    {
      ghost var f := radio.Received();
      var data := radio.data;
      var target := radio.targetId;
      var ackRequested := radio.ackRequested;
      var rssi := radio.rssi;
      actions := [];
      if ackRequested && target == nodeId {
        radio.SendAck(ackIncoming);
        actions := [SendAck];
      }
      assert actions == Acks(nodeId, f);
      if |data| != layout.size {
        var lines := HexDumpFixed(data, DesiredPerLine);
        actions := actions + [HexDumped(lines)];
      } else {
        packet := View(layout, data);
        actions := actions + [Show(Classify(tags, packet, rssi))];
      }
    }
  }

  // ---------------------------------------------------------------------
  // What a pass promises.

  /** An acknowledgement is sent exactly when a frame came that asked for
      one and was addressed to this node. */
  lemma AckOnlyWhenAddressed(mode: Mode, l: Layout, tags: Tags, nodeId: byte, s: ToolState, rx: Option<Frame>, stack: seq<byte>)
    requires ValidLayout(l) && |stack| == l.size
    ensures var acts := Pass(mode, l, tags, nodeId, s, rx, stack).1;
      SendAck in acts <==> rx.Some? && rx.value.ackRequested && rx.value.targetId == nodeId
  {
    var acts := Pass(mode, l, tags, nodeId, s, rx, stack).1;
    if rx.Some? {
      var r := Receive(l, tags, nodeId, s, rx.value);
      if mode == Sender {
        var sent := SenderTurn(r.0.counter,
          SendWithRetry(TestTarget, TestMessage(l, nodeId, stack), SendRetries, SendWaitTime)).1;
        assert acts == r.1 + sent;
        assert SendAck !in sent;
      }
    }
  }

  /** A frame of the wrong length is only dumped: nothing is shown and the
      kept packet does not change. */
  lemma WrongLengthOnlyDumped(l: Layout, tags: Tags, nodeId: byte, s: ToolState, f: Frame)
    requires ValidLayout(l) && |f.data| != l.size
    ensures var (t, acts) := Receive(l, tags, nodeId, s, f);
      && t == s
      && acts[|acts| - 1] == HexDumped(Dump(CppStyle, f.data, DesiredPerLine))
      && forall a :: a in acts ==> !a.Show?
  {
  }

  /** The protocol version is never consulted: two frames that differ only
      in their first byte are acknowledged, shown and kept alike, apart
      from the version field itself. */
  lemma VersionIgnored(l: Layout, tags: Tags, nodeId: byte, s: ToolState, f: Frame, version: byte)
    requires ValidLayout(l) && |f.data| == l.size
    ensures var g := f.(data := f.data[0 := version]);
      && Receive(l, tags, nodeId, s, g).1 == Receive(l, tags, nodeId, s, f).1
      && Receive(l, tags, nodeId, s, g).0.packet
         == Receive(l, tags, nodeId, s, f).0.packet.(protocolVersion := version)
  {
    var d := f.data[0 := version];
    var t := l.temperatureOffset;
    assert d[t..t + 4] == f.data[t..t + 4];
  }

  /** In sender mode a pass sends exactly when the incremented counter is
      a multiple of twenty and otherwise sleeps; in receiver mode it never
      sends and the counter stays. */
  lemma SenderSchedule(mode: Mode, l: Layout, tags: Tags, nodeId: byte, s: ToolState, rx: Option<Frame>, stack: seq<byte>)
    requires ValidLayout(l) && |stack| == l.size
    ensures var (t, acts) := Pass(mode, l, tags, nodeId, s, rx, stack);
      && t.counter == (if mode == Sender then s.counter + 1 else s.counter)
      && (|acts| > 0 && acts[|acts| - 1].SendWithRetry? <==> mode == Sender && (s.counter + 1) % SendPeriod == 0)
      && (mode == Sender && (s.counter + 1) % SendPeriod != 0 ==> acts[|acts| - 1] == Sleep(IdleSleep))
      && (mode == Receiver ==> forall a :: a in acts ==> !a.SendWithRetry? && !a.Sleep?)
  {
    var (s1, received) := if rx.Some? then Receive(l, tags, nodeId, s, rx.value) else (s, []);
    assert s1.counter == s.counter;
    assert forall a :: a in received ==> !a.SendWithRetry? && !a.Sleep?;
  }

  /** The test packet carries this node as source, node 2 as target,
      device 10, sequence 100 and 99.0; its version and type bytes are
      whatever the stack held. */
  lemma TestMessageFields(l: Layout, nodeId: byte, stack: seq<byte>)
    requires ValidLayout(l) && |stack| == l.size
    ensures var m := TestMessage(l, nodeId, stack);
      && |m| == l.size
      && var p := View(l, m);
      && p.protocolVersion == stack[0] && p.dataType == stack[1]
      && p.sourceNodeId == nodeId && p.targetNodeId == TestTarget
      && p.deviceId == TestDevice && p.sequenceNumber == TestSequence
      && p.temperature == NinetyNine
  {
    TemperatureRoundTrip(l, stack,
      PacketData(stack[0], stack[1], nodeId, TestTarget, TestDevice, TestSequence, NinetyNine, 0));
  }

  /** Because `send_message` leaves the version and type unset, whether a
      gateway sharing the record layout takes the test packet for a
      temperature reading depends only on the two stack bytes. */
  lemma GatewayReadsTestMessageByChance(c: GatewayBridge.Config, nodeId: byte, stack: seq<byte>)
    requires GatewayBridge.ValidConfig(c) && |stack| == c.layout.size
    ensures GatewayBridge.IsTemperatureReading(c, TestMessage(c.layout, nodeId, stack))
        <==> stack[0] == c.tags.firstProtocolVersion && stack[1] == c.tags.temperatureDataType
  {
    TestMessageFields(c.layout, nodeId, stack);
  }
}

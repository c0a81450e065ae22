/**
 * The C radio test tool (piGateway/SenderReceiver.c): `main`, which picks
 * the mode and the node numbers from the command line and sets the radio
 * up from the network settings, and one pass of `run_loop`. A receiver
 * copies each frame, acknowledges it when it asked for it and was sent to
 * this node, and either hex-dumps it (wrong length) or keeps and shows the
 * `Payload` it holds. A sender ignores the radio, counts every pass, and
 * every twentieth pass sends a fixed `Payload` to the other node.
 */
module LegacySenderReceiver {
  import opened Common
  import opened PacketCodec
  import opened HexDump
  import opened RadioLink
  import opened TestTools

  /** `RECEIVER_ID` and `SENDER_ID`. */
  const ReceiverId: byte := 10
  const SenderId: byte := 11

  /** The `bloc` `run_loop` passes to `hexDump`. */
  const DumpWidth: nat := 16

  /** `NODE_ID` and `GATEWAY_ID` for a mode: each mode answers as its own
      number and talks to the other one's. */
  datatype Roles = Roles(nodeId: byte, gatewayId: byte)

  function RolesOf(mode: Mode): Roles
  {
    match mode
    case Receiver => Roles(ReceiverId, SenderId)
    case Sender => Roles(SenderId, ReceiverId)
  }

  /** The `NWC_...` network settings `main` copies into `theConfig`. */
  datatype NetworkSettings = NetworkSettings(
    networkId: byte,
    frequency: byte,
    keyLength: byte,
    key: seq<byte>,
    isRFM69HW: bool,
    promiscuousMode: bool)

  /** `theConfig` for a node number. */
  function ConfigFor(net: NetworkSettings, nodeId: byte): RadioConfig
  {
    RadioConfig(net.frequency, nodeId, net.networkId, net.keyLength, net.key, net.isRFM69HW, net.promiscuousMode)
  }

  /** The globals a pass changes: `counter` and `theData`. */
  datatype LegacyToolState = LegacyToolState(counter: nat, theData: Payload)

  /** The zero-initialised global `theData`. */
  const ZeroPayload: Payload := Payload(0, 0, 0, Float32(0), Float32(0))

  /** `99.0` and `101.0` as single-precision floats. */
  const NinetyNine: Float32 := Float32(0x42C6_0000)
  const HundredOne: Float32 := Float32(0x42CA_0000)

  /** What `send_message` fills in: the peer's number as node, sensor 10,
      1000, 99.0 and 101.0. */
  function TestPayload(gatewayId: byte): Payload
  {
    Payload(gatewayId, 10, 1000, NinetyNine, HundredOne)
  }

  /** The receive branch on a copied frame. */
  function Receive(nodeId: byte, s: LegacyToolState, f: Frame): (LegacyToolState, seq<ToolAction>)
  {
    if |f.data| != PayloadSize then (s, Acks(nodeId, f) + [HexDumped(Dump(CStyle, f.data, DumpWidth))])
    else
      var p := DecodePayload(f.data);
      (s.(theData := p), Acks(nodeId, f) + [Show(PayloadPacket(p, f.rssi))])
  }

  /** One pass. `waiting` is the frame `receiveDone()` would report; only a
      receiver asks for it. */
  function Pass(mode: Mode, roles: Roles, s: LegacyToolState, waiting: Option<Frame>): (LegacyToolState, seq<ToolAction>)
  {
    if mode == Receiver then
      if waiting.Some? then Receive(roles.nodeId, s, waiting.value) else (s, [])
    else
      var (counter, sent) := SenderTurn(s.counter,
        SendWithRetry(roles.gatewayId, EncodePayload(TestPayload(roles.gatewayId)), SendRetries, SendWaitTime));
      (s.(counter := counter), sent)
  }

  class LegacyTool {
    const mode: Mode
    const roles: Roles
    var counter: nat
    var theData: Payload

    function State(): LegacyToolState
      reads this
    {
      LegacyToolState(counter, theData)
    }

    constructor (mode: Mode, roles: Roles)
      ensures this.mode == mode && this.roles == roles
      ensures State() == LegacyToolState(0, ZeroPayload)
    {
      this.mode, this.roles := mode, roles;
      counter, theData := 0, ZeroPayload;
    }

    /** One pass of `run_loop`. */
    method Step(radio: Radio, waiting: bool, ackIncoming: seq<byte>) returns (actions: seq<ToolAction>)
      modifies this, radio
      ensures (State(), actions) == Pass(mode, roles, old(State()), if waiting then Some(old(radio.Received())) else None)
      ensures radio.data
           == if mode == Receiver && waiting && old(radio.ackRequested) && old(radio.targetId) == roles.nodeId
              then ackIncoming else old(radio.data)
    {
      actions := [];
      if mode == Receiver && waiting {
        actions := ReceiveFrame(radio, ackIncoming);
      }
      if mode == Sender {
        actions := SenderPass();
      }
    }

    /** The sender half of a pass: count, then send every twentieth time
        and sleep otherwise. */
    method SenderPass() returns (actions: seq<ToolAction>)
      modifies this`counter
      ensures (counter, actions)
           == SenderTurn(old(counter), SendWithRetry(roles.gatewayId, EncodePayload(TestPayload(roles.gatewayId)), SendRetries, SendWaitTime))
    {
      counter := counter + 1;
      if counter % SendPeriod == 0 {
        var frame := SendMessage();
        actions := [SendWithRetry(roles.gatewayId, frame, SendRetries, SendWaitTime)];
      } else {
        actions := [Sleep(IdleSleep)];
      }
    }

    /** The receive branch: copy the frame, acknowledge, then dump it or
        keep and show the payload of the copy. */
    method ReceiveFrame(radio: Radio, ackIncoming: seq<byte>) returns (actions: seq<ToolAction>)
      modifies this`theData, radio
      ensures (State(), actions) == Receive(roles.nodeId, old(State()), old(radio.Received()))
      ensures radio.data
           == if old(radio.ackRequested) && old(radio.targetId) == roles.nodeId then ackIncoming else old(radio.data)
    {
      ghost var f := radio.Received();
      var data := radio.data;
      var target := radio.targetId;
      var ackRequested := radio.ackRequested;
      var rssi := radio.rssi;
      actions := [];
      if ackRequested && target == roles.nodeId {
        radio.SendAck(ackIncoming);
        actions := [SendAck];
      }
      assert actions == Acks(roles.nodeId, f);
      if |data| != PayloadSize {
        var lines := HexDumpC(data, DumpWidth);
        actions := actions + [HexDumped(lines)];
      } else {
        theData := DecodePayload(data);
        actions := actions + [Show(PayloadPacket(theData, rssi))];
      }
    }

    /** `send_message`: the bytes of the `Payload` it fills in, which the
        peer decodes back to that payload. */
    method SendMessage() returns (frame: seq<byte>)
      ensures frame == EncodePayload(TestPayload(roles.gatewayId))
      ensures |frame| == PayloadSize && DecodePayload(frame) == TestPayload(roles.gatewayId)
    {
      var data := Payload(roles.gatewayId, 10, 1000, NinetyNine, HundredOne);
      frame := EncodePayload(data);
      PayloadRoundTrip(data);
    }
  }

  /** `main`: the mode from the command line (or the usage exit), the node
      numbers for it, the driver's `initialize` and then `initRfm` with the
      network settings, and the tool in its initial state. */
  method Launch(args: seq<string>, net: NetworkSettings)
    returns (tool: Result<LegacyTool, Usage>, commands: seq<RadioCommand>)
    ensures tool.Err? <==> ParseMode(args).Err?
    ensures tool.Err? ==> tool.error == ParseMode(args).error && commands == []
    ensures tool.Ok? ==>
      var mode := ParseMode(args).value;
      var cfg := ConfigFor(net, RolesOf(mode).nodeId);
      && fresh(tool.value)
      && tool.value.mode == mode && tool.value.roles == RolesOf(mode)
      && tool.value.State() == LegacyToolState(0, ZeroPayload)
      && |commands| >= 1
      && commands[0] == Initialize(cfg.frequency, cfg.nodeId, cfg.networkId)
      && IsSetupSequence(cfg, commands[1..])
  {
    var parsed := ParseMode(args);
    if parsed.Err? {
      return Err(parsed.error), [];
    }
    var mode := parsed.value;
    var roles := RolesOf(mode);
    var cfg := ConfigFor(net, roles.nodeId);
    var setup := InitRadio(cfg);
    commands := [Initialize(cfg.frequency, cfg.nodeId, cfg.networkId)] + setup;
    assert commands[1..] == setup;
    var t := new LegacyTool(mode, roles);
    tool := Ok(t);
  }

  // ---------------------------------------------------------------------
  // What the tool promises.

  /** The two modes talk to each other: the sender addresses the
      receiver's number and the receiver answers as that number. */
  lemma RolesArePaired()
    ensures RolesOf(Sender).gatewayId == RolesOf(Receiver).nodeId
    ensures RolesOf(Receiver).gatewayId == RolesOf(Sender).nodeId
    ensures RolesOf(Sender).nodeId != RolesOf(Receiver).nodeId
  {
  }

  /** A receiver never counts, sleeps or sends; a sender never looks at
      the radio, so it neither acknowledges, dumps nor keeps a payload. */
  lemma ModesAreExclusive(mode: Mode, roles: Roles, s: LegacyToolState, waiting: Option<Frame>)
    ensures var (t, acts) := Pass(mode, roles, s, waiting);
      && (mode == Receiver ==> t.counter == s.counter && forall a :: a in acts ==> !a.SendWithRetry? && !a.Sleep?)
      && (mode == Sender ==> t.theData == s.theData && |acts| == 1 && (acts[0].SendWithRetry? || acts[0].Sleep?))
  {
  }

  /** A receiver acknowledges exactly the waiting frames that asked for it
      and were sent to its number. */
  lemma AckOnlyWhenAddressed(mode: Mode, roles: Roles, s: LegacyToolState, waiting: Option<Frame>)
    ensures SendAck in Pass(mode, roles, s, waiting).1
        <==> mode == Receiver && waiting.Some? && waiting.value.ackRequested && waiting.value.targetId == roles.nodeId
  {
  }

  /** A frame that is not `sizeof(Payload)` bytes long is dumped sixteen
      bytes to the line and not decoded. */
  lemma WrongLengthOnlyDumped(nodeId: byte, s: LegacyToolState, f: Frame)
    requires |f.data| != PayloadSize
    ensures var (t, acts) := Receive(nodeId, s, f);
      && t == s
      && acts[|acts| - 1] == HexDumped(Dump(CStyle, f.data, DumpWidth))
      && forall a :: a in acts ==> !a.Show?
  {
  }

  /** A sender sends on exactly the passes that bring its counter to a
      multiple of twenty, always to the receiver's number. */
  lemma SenderSchedule(roles: Roles, s: LegacyToolState, waiting: Option<Frame>)
    ensures var (t, acts) := Pass(Sender, roles, s, waiting);
      && t.counter == s.counter + 1
      && (acts[0].SendWithRetry? <==> (s.counter + 1) % SendPeriod == 0)
      && (acts[0].SendWithRetry? ==> acts[0].target == roles.gatewayId)
  {
  }

  /** What one tool in sender mode sends, arriving at the other in
      receiver mode, is acknowledged (the driver asks for an
      acknowledgement), decoded to the payload sent and kept. */
  lemma SenderReachesReceiver(s: LegacyToolState, f: Frame)
    requires f.data == EncodePayload(TestPayload(RolesOf(Sender).gatewayId))
    requires f.targetId == RolesOf(Sender).gatewayId && f.ackRequested
    ensures var (t, acts) := Pass(Receiver, RolesOf(Receiver), s, Some(f));
      && t.theData == TestPayload(ReceiverId)
      && acts == [SendAck, Show(PayloadPacket(TestPayload(ReceiverId), f.rssi))]
  {
    PayloadRoundTrip(TestPayload(RolesOf(Sender).gatewayId));
  }
}

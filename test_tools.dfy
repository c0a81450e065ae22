/**
 * What the two radio test tools (piGateway/SenderReceiver.cpp and
 * piGateway/SenderReceiver.c) share: the command line that picks sender or
 * receiver mode, the radio set-up sequence, the actions a loop pass asks
 * for, and the sender's schedule of one message every twentieth pass.
 */
module TestTools {
  import opened Common
  import opened PacketCodec
  import opened HexDump
  import opened RadioLink

  // ---------------------------------------------------------------------
  // The command line.

  datatype Mode = Sender | Receiver

  /** Why `main` exits through `uso()`: a wrong argument count, or a single
      argument that is neither flag (which also prints "invalid arguments"). */
  datatype Usage = WrongArgumentCount | InvalidArgument

  /** `main`'s choice of mode from `argv` (the program name included). */
  function ParseMode(args: seq<string>): Result<Mode, Usage>
  {
    if |args| != 2 then Err(WrongArgumentCount)
    else if args[1] == "-r" then Ok(Receiver)
    else if args[1] == "-s" then Ok(Sender)
    else Err(InvalidArgument)
  }

  /** Exactly `-r` selects the receiver and exactly `-s` the sender; every
      other command line ends in the usage message. */
  lemma ParseModeExact(args: seq<string>)
    ensures ParseMode(args) == Ok(Receiver) <==> |args| == 2 && args[1] == "-r"
    ensures ParseMode(args) == Ok(Sender) <==> |args| == 2 && args[1] == "-s"
    ensures ParseMode(args).Err? <==> |args| != 2 || (args[1] != "-r" && args[1] != "-s")
  {
  }

  // ---------------------------------------------------------------------
  // Radio set-up.

  /** The settings `initRfm` reads: frequency band, node and network
      numbers, key (no encryption when its length is 0), whether the module
      is a high-power RFM69HW, and promiscuous reception. */
  datatype RadioConfig = RadioConfig(
    frequency: byte,
    nodeId: byte,
    networkId: byte,
    keyLength: byte,
    key: seq<byte>,
    isRFM69HW: bool,
    promiscuousMode: bool)

  /** The driver calls the set-up makes, in order. */
  datatype RadioCommand =
    | Initialize(frequency: byte, nodeId: byte, networkId: byte)
    | Restart(frequency: byte, nodeId: byte, networkId: byte)
    | SetHighPower
    | Encrypt(key: seq<byte>)
    | Promiscuous(on: bool)

  /** The calls `initRfm` makes for `cfg`: as many as it needs, the restart
      first and promiscuous mode last, high power exactly for an RFM69HW,
      the configured key exactly when its length is not 0, and high power
      before the key. */
  predicate IsSetupSequence(cfg: RadioConfig, commands: seq<RadioCommand>)
  {
    && |commands| == 2 + (if cfg.isRFM69HW then 1 else 0) + (if cfg.keyLength != 0 then 1 else 0)
    && commands[0] == Restart(cfg.frequency, cfg.nodeId, cfg.networkId)
    && commands[|commands| - 1] == Promiscuous(cfg.promiscuousMode)
    && (SetHighPower in commands <==> cfg.isRFM69HW)
    && (Encrypt(cfg.key) in commands <==> cfg.keyLength != 0)
    && (forall c :: c in commands && c.Encrypt? ==> c == Encrypt(cfg.key))
    && (cfg.isRFM69HW && cfg.keyLength != 0 ==> commands[1] == SetHighPower && commands[2] == Encrypt(cfg.key))
  }

  /** The description leaves no freedom: one configuration has exactly one
      set-up sequence. */
  lemma SetupSequenceUnique(cfg: RadioConfig, a: seq<RadioCommand>, b: seq<RadioCommand>)
    requires IsSetupSequence(cfg, a) && IsSetupSequence(cfg, b)
    ensures a == b
  {
    if |a| == 3 {
      var x := if cfg.isRFM69HW then SetHighPower else Encrypt(cfg.key);
      assert x in a && x in b;
      assert a[1] == x;
      assert b[1] == x;
    }
  }

  /** `initRfm`: restart the module, switch on high power for an RFM69HW,
      load the key when one is configured, then set promiscuous mode. */
  method InitRadio(cfg: RadioConfig) returns (commands: seq<RadioCommand>)
    ensures IsSetupSequence(cfg, commands)
  {
    commands := [Restart(cfg.frequency, cfg.nodeId, cfg.networkId)];
    if cfg.isRFM69HW {
      commands := commands + [SetHighPower];
    }
    if cfg.keyLength != 0 {
      commands := commands + [Encrypt(cfg.key)];
    }
    commands := commands + [Promiscuous(cfg.promiscuousMode)];
  }

  // ---------------------------------------------------------------------
  // What a pass asks of the outside world.

  /** What the receive branch logs about a frame of the right length. */
  datatype Shown =
    | TestPacket(source: byte, rssi: i16, sequence: byte)
    | TemperaturePacket(source: byte, rssi: i16, device: byte, sequence: byte, temperature: Float32)
    | UnknownPacket(source: byte, rssi: i16)
    | PayloadPacket(payload: Payload, rssi: i16)

  datatype ToolAction =
    | SendAck
    | HexDumped(lines: seq<DumpLine>)
    | Show(what: Shown)
    | SendWithRetry(target: byte, frame: seq<byte>, retries: byte, waitTime: byte)
    | Sleep(milliseconds: nat)

  /** The acknowledgement a received frame gets: only when it asked for
      one and was sent to this node. */
  function Acks(nodeId: byte, f: Frame): seq<ToolAction>
  {
    if f.ackRequested && f.targetId == nodeId then [SendAck] else []
  }

  // ---------------------------------------------------------------------
  // The sender's schedule.

  /** Every pass in sender mode counts; one in this many sends. */
  const SendPeriod: nat := 20

  /** `usleep(100*1000)` on the passes that do not send. */
  const IdleSleep: nat := 100

  /** `sendWithRetry(..., retries, wait_time)` with `retries = 0` and
      `wait_time = 255`. */
  const SendRetries: byte := 0
  const SendWaitTime: byte := 255

  /** A sender pass that starts with `counter` sends: the incremented
      counter is a multiple of twenty. */
  predicate SendsOnPass(counter: nat)
  {
    (counter + 1) % SendPeriod == 0
  }

  /** The sender half of a pass: the new counter and the send or the sleep. */
  function SenderTurn(counter: nat, send: ToolAction): (nat, seq<ToolAction>)
  {
    (counter + 1, if SendsOnPass(counter) then [send] else [Sleep(IdleSleep)])
  }

  /** How many of the next `n` sender passes, from `counter`, send. */
  function SendsOver(counter: nat, n: nat): nat
    decreases n
  {
    if n == 0 then 0
    else (if SendsOnPass(counter) then 1 else 0) + SendsOver(counter + 1, n - 1)
  }

  /** Over any run of passes the sends are the multiples of twenty the
      counter reaches: from a fresh counter, `n` passes send `n / 20` times. */
  lemma {:induction false} SendsOverCount(counter: nat, n: nat)
    ensures SendsOver(counter, n) == (counter + n) / SendPeriod - counter / SendPeriod
    decreases n
  {
    if n > 0 {
      SendsOverCount(counter + 1, n - 1);
      StepOfTwenty(counter);
    }
  }

  lemma StepOfTwenty(c: nat)
    ensures (c + 1) / 20 - c / 20 == if (c + 1) % 20 == 0 then 1 else 0
  {
  }

  /** Twenty passes from any counter contain exactly one send. */
  lemma OneSendInTwenty(counter: nat)
    ensures SendsOver(counter, SendPeriod) == 1
  {
    SendsOverCount(counter, SendPeriod);
  }
}

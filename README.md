# HomeAutomation RFM69 gateway: a verified model

This project models the protocol core of the HomeAutomation system in Dafny.
Battery sensor nodes send temperature records over an RFM69 radio. A
Raspberry Pi gateway receives them and republishes them as MQTT messages.
Two small command-line tools exercise the radio link.

The model covers five programs:

- **The current gateway** (`piGateway/Gateway.cpp`), modules `GatewayBridge`,
  `MqttTopics` and `HexDump`. One pass of its run loop consists of:
  - the link watchdog;
  - the acknowledgement of frames addressed to the gateway, with a probe of
    the sender after every third one and the statistics counters;
  - the dispatch of a `Packet_Data` record to three MQTT publishes (RSSI,
    sequence number, temperature) or to a hex dump;
  - the gateway's own temperature report every three seconds.

  The topic format `<root>/OUTPUT/Network<NNN>/Node<NNN>/Device<NNN>/<subject>`
  is proved injective and parseable. Its length guards (`die` when a topic
  exceeds 128 characters) are modelled as a `Die` action.
- **The older gateway** (`piGateway/Gateway.c`), module `LegacyGateway`.
  - It snapshots a 16-byte `Payload`.
  - It acknowledges every request, whoever it was addressed to.
  - A `uint8_t` counter makes it probe one request in three.
  - It publishes four values under a topic of three numbers run together.
- **The C++ test tool** (`piGateway/SenderReceiver.cpp`), module `SenderReceiver`.
- **The C test tool** (`piGateway/SenderReceiver.c`), module `LegacySenderReceiver`.

  The two tools share their command line, radio set-up and sender schedule,
  which are modelled once in module `TestTools`.
- **The sensor node** (`RFM69HA-Temperature-SensorNode/Sketch.cpp`), module
  `SensorNode`. It fills in the record's header once and sends a reading
  whenever more than three seconds have passed on its wrapping millisecond
  clock.

Shared modules:

| module | what it holds |
|---|---|
| `Common` | machine integers with their C wrap-around |
| `Printf` | the `%0wd`, `%+0wd`, `%u` renderings, with round-trip lemmas |
| `PacketCodec` | the two wire records, with round-trip lemmas for the fields the code reads |
| `RadioLink` | the receive registers of the radio driver |

Where the code states behaviour imperatively, the model keeps that form:
- a loop pass is a `Step` method on a class whose fields are the program's
  globals;
- the hex dumps are methods with loops.

Each method is proved equal to a specification function. The lemmas state
the program's promises about those functions: schedules, counter invariants,
what is published and in which order, when the process dies, and
end-to-end properties across programs.

Nothing here runs: the radio, the clock, the MQTT client and the
thermometer are inputs to each pass, and what a pass asks of them comes
back as a sequence of actions.

Two behaviours worth knowing:
- The gateway probes the sender after the 1st, 4th, 7th, ... addressed
  request, because the counter is tested before it is incremented. That is
  ceil(n/3) probes over n requests.
- The C++ test tool (`piGateway/SenderReceiver.cpp`) processes received
  frames in sender mode too, because its receiver-mode test is commented
  out.

The C++ `hexDump` never returns for a non-empty frame (see "## Findings").
The passes of the current gateway and of the C++ test tool are modelled
with the corrected dump. "## Left out" names each member this affects.

## Model

| member | source | states |
|---|---|---|
| Common.IncByte | piGateway/Gateway.c:242 | `x++` on a `uint8_t` adds one below 255 and wraps 255 to 0 |
| Common.SubU32 | RFM69HA-Temperature-SensorNode/Sketch.cpp:126 | `a - b` on `unsigned long` is the difference, plus 2^32 when `b` exceeds `a` |
| Common.Word32OfLittleEndian | piGateway/Gateway.cpp:343 | reading back the four bytes a 32-bit word is stored as gives the word |
| Printf.DecimalRoundTrip | piGateway/Gateway.c:299 | the digits `%u` prints read back as the value |
| Printf.DecimalWidth | piGateway/Gateway.c:296 | the decimal rendering of n fits in k characters exactly when n < 10^k |
| Printf.ZeroPadValue | piGateway/Gateway.cpp:367 | padding with leading zeros to a width keeps the digits' value |
| Printf.FormatIntRoundTrip | piGateway/Gateway.cpp:367 | `%0wd` of a non-negative value is all digits and reads back as the value |
| Printf.FormatSignedIntRoundTrip | piGateway/Gateway.cpp:363 | `%+0wd` starts with the sign and reads back as the value |
| Printf.ThreeDigitsOfByte | piGateway/Gateway.cpp:546 | `%03d` of a byte is exactly three digits with the byte's value |
| Printf.SignedInt16Width | piGateway/Gateway.cpp:363 | `%+04d` of a 16-bit value takes 4 to 6 characters |
| Printf.LowerHexRoundTrip | piGateway/SenderReceiver.c:256 | the digits `%x` prints read back as the value |
| Printf.LowerHexWidth | piGateway/SenderReceiver.c:256 | the `%x` numeral has at most four digits exactly when the value is below 0x10000 |
| Printf.FormatHex4RoundTrip | piGateway/SenderReceiver.c:256 | `%04x` prints at least four hexadecimal digits, exactly four below 0x10000, that read back as the value |
| MqttTopics.ClientIdAccepted | piGateway/Gateway.cpp:100-104 | the client identifier is 1-23 alphanumerics, which section 3.1.3.1 of MQTT 3.1.1 obliges every server to accept, and with its terminator it fits in 24 bytes |
| MqttTopics.FormOutputTopic | piGateway/Gateway.cpp:544-550 | the result is the printed topic, or `die` for a topic that is too long |
| MqttTopics.OutputTopicLength | piGateway/Gateway.cpp:546 | every output topic is root + subject + 37 characters |
| MqttTopics.FormOutputTopicDiesIff | piGateway/Gateway.cpp:548-549 | forming a topic dies exactly when root and subject exceed 91 characters together; with the shipped root, no subject of up to 72 characters dies |
| MqttTopics.ReadLevelOf | piGateway/Gateway.cpp:546 | a level `<tag><NNN>` is read back as its tag and byte |
| MqttTopics.OutputTopicRoundTrip | piGateway/Gateway.cpp:546 | parsing an output topic gives back network, node, device and subject |
| MqttTopics.OutputTopicInjective | piGateway/Gateway.cpp:546 | distinct (network, node, device, subject) never share a topic |
| MqttTopics.SubscriptionFilterWellFormed | piGateway/Gateway.cpp:251 | the filter is `<root>/INPUT/Network<NNN>` followed by the multi-level wildcard alone in its level (section 4.7.1.2 of MQTT 3.1.1) |
| MqttTopics.NoEchoOfOwnPublishes | piGateway/Gateway.cpp:251 | no output topic matches the input subscription, so the gateway never receives its own publishes |
| MqttTopics.PublishCheck | piGateway/Gateway.cpp:553-568 | the publish goes ahead exactly when the topic is at most 128 characters and the message fits; a long topic dies on the topic guard first |
| MqttTopics.GatewayMessagesFit | piGateway/Gateway.cpp:363-371 | the RSSI, sequence and temperature payloads never trip the message guard, and the first two read back as their values |
| PacketCodec.View | piGateway/Gateway.cpp:343 | reinterpreting a frame as `Packet_Data` takes source and target from bytes 2 and 3 |
| PacketCodec.StoreFloat | RFM69HA-Temperature-SensorNode/Sketch.cpp:142 | storing a float writes its four little-endian bytes at its offset and nothing else |
| PacketCodec.TemperatureRoundTrip | RFM69HA-Temperature-SensorNode/Sketch.cpp:139-143 | a record written field by field reads back with every header and temperature field intact, the float bit for bit |
| PacketCodec.PayloadRoundTrip | piGateway/Gateway.c:89-96 | the 16 bytes of a `Payload` decode to the same payload |
| RadioLink.Radio.SendAck | piGateway/Gateway.cpp:312 | an acknowledgement may overwrite the driver's data buffer and leaves the other registers alone |
| HexDump.ChunksCoverData | piGateway/SenderReceiver.c:225-261 | the pieces a dump shows, in order, are exactly the data |
| HexDump.LineCountIsCeiling | piGateway/SenderReceiver.c:261 | a dump takes len/b lines rounded up |
| HexDump.Dump | piGateway/SenderReceiver.c:225-261 | the reference dump has one line per slot |
| HexDump.DumpShape | piGateway/SenderReceiver.c:225-259 | line j shows bytes j*b up to (j+1)*b, is labelled j*b (C) or j (C++), and has a hex column 3*b wide |
| HexDump.LineTextReadsBack | piGateway/SenderReceiver.c:256 | a printed dump line (`"%04x %s %s"` in C, `"%04x: %s   %s"` at Gateway.cpp:536) splits back into a hex label that reads back as the line's number, exactly four digits below 0x10000, then the hex column, then the ASCII column and the newline |
| HexDump.Render | piGateway/SenderReceiver.c:245-256 | a rendered line keeps its label, has one ASCII cell per byte and a hex column of 3*b characters |
| HexDump.HexDumpCLine | piGateway/SenderReceiver.c:236-251 | one pass of the C loop builds the lowercase hex and ASCII columns of its bytes, padded to `bloc` columns |
| HexDump.HexDumpC | piGateway/SenderReceiver.c:210-262 | the C `hexDump` prints nothing for no data and otherwise exactly the reference dump, with the width clamped to 16 |
| HexDump.HexDumpCppLine | piGateway/Gateway.cpp:514-530 | one pass of the C++ loop builds the uppercase hex and ASCII columns, padded with spaces to the line width |
| HexDump.HexDumpFixed | piGateway/Gateway.cpp:476-541 | the C++ `hexDump`, with the per-line count corrected, prints exactly the reference dump labelled by line number |
| HexDump.HexDumpAsWritten | piGateway/Gateway.cpp:476-541 | the C++ `hexDump` as written prints, pass by pass, the rendered slots of its bounded run and never reports an end that did not happen |
| HexDump.AsWrittenCount | piGateway/Gateway.cpp:506-510 | the per-line count as written never exceeds the line width |
| HexDump.AsWrittenNeverDrains | piGateway/Gateway.cpp:506-512 | as written, no pass brings the bytes left to zero |
| HexDump.AsWrittenStuckAtWidth | piGateway/Gateway.cpp:506-510 | with exactly a line's worth left, a pass shows nothing and changes nothing |
| HexDump.AsWrittenOverreads | piGateway/Gateway.cpp:506-510 | a frame shorter than a line is shown as a full line, reading past its end |
| HexDump.AsWrittenNeverFinishes | piGateway/Gateway.cpp:537-540 | for a non-empty frame the do-while never ends: every bounded run prints a line per pass and never finishes |
| GatewayBridge.Initial | piGateway/Gateway.cpp:263-265 | start-up state: zero counters and the watchdog timer at start-up time, which satisfies the counter invariant; the self-report's static timer is not yet initialised |
| GatewayBridge.Gateway.Step | piGateway/Gateway.cpp:269-420 | one loop pass changes the globals and asks for the actions the specification of a pass gives, acting on the frame as received even when the acknowledgement overwrites the radio buffer |
| GatewayBridge.Gateway.CheckWatchdog | piGateway/Gateway.cpp:277-285 | the watchdog step matches its specification |
| GatewayBridge.Gateway.ReceiveFrame | piGateway/Gateway.cpp:287-397 | the receive branch matches its specification on the copied frame |
| GatewayBridge.Gateway.AcknowledgeFrame | piGateway/Gateway.cpp:307-332 | the acknowledgement and probe branch matches its specification |
| GatewayBridge.Gateway.ReportOwnTemperature | piGateway/Gateway.cpp:401-420 | the gateway's own report matches its specification |
| GatewayBridge.DispatchFrame | piGateway/Gateway.cpp:336-397 | the length, version and type dispatch gives the specified publishes or dump |
| GatewayBridge.WatchdogRearms | piGateway/Gateway.cpp:277-285 | the watchdog fires exactly after the timeout; it counts once, asks for one re-initialisation and re-arms |
| GatewayBridge.FrameRestartsWatchdog | piGateway/Gateway.cpp:287-293 | each frame is counted and silences the watchdog for a full timeout |
| GatewayBridge.AckOnlyWhenAddressed | piGateway/Gateway.cpp:307-312 | an acknowledgement goes out exactly for a request addressed to the gateway; a probe follows only an acknowledgement and goes to the sender |
| GatewayBridge.ProbeSchedule | piGateway/Gateway.cpp:314 | the n-th addressed request is probed exactly when n mod 3 = 1 |
| GatewayBridge.ProbeOutcomeCounted | piGateway/Gateway.cpp:320-330 | a probe counts as sent and as exactly one of answered or missed |
| GatewayBridge.AcknowledgeKeepsInvariant | piGateway/Gateway.cpp:307-332 | acknowledging keeps the counters in step: ackCount = ackRequested, messageSent = ceil(ackCount/3), ackReceived + ackMissed = messageSent |
| GatewayBridge.SelfReportKeepsStats | piGateway/Gateway.cpp:401-420 | the gateway's own report leaves the statistics alone |
| GatewayBridge.PassKeepsInvariant | piGateway/Gateway.cpp:269-420 | every pass keeps the counters in step, whatever it receives |
| GatewayBridge.ReportOutcome | piGateway/Gateway.cpp:544-568 | a report publishes under its output topic, or dies on the topic when root and subject exceed 91 characters |
| GatewayBridge.TemperatureFramePublishesThree | piGateway/Gateway.cpp:345-375 | with a root of at most 79 characters, a first-version temperature record gives exactly three publishes in the order RSSI, sequence, temperature, under its node and device |
| GatewayBridge.TemperatureReportsPublish | piGateway/Gateway.cpp:362-372 | the three reports of a reading are those three publishes |
| GatewayBridge.OtherFramesDumped | piGateway/Gateway.cpp:336-340 | any other frame publishes nothing and is dumped once, described exactly when its length is wrong and it is not empty; an empty frame prints nothing (Gateway.cpp:490-491) |
| GatewayBridge.SelfReportSchedule | piGateway/Gateway.cpp:401-418 | the own report runs exactly when the initialised timer shows the interval has passed; it publishes the sequence number and then the temperature, bumps the sequence mod 256 and re-arms; otherwise only the timer is initialised |
| GatewayBridge.FirstPassNeverReports | piGateway/Gateway.cpp:403-405 | the static timer takes the clock on the first pass that reaches it, so that pass never reports and the first report comes more than 3000 ms later |
| GatewayBridge.ShortRootDispatchLives | piGateway/Gateway.cpp:343-396 | with a root of at most 79 characters no frame kills the gateway |
| GatewayBridge.ShortRootReceiveLives | piGateway/Gateway.cpp:287-397 | with such a root no received frame leads to `die` |
| GatewayBridge.ShortRootNeverDies | piGateway/Gateway.cpp:269-420 | with such a root no pass dies |
| GatewayBridge.LongRootDies | piGateway/Gateway.cpp:362-372 | with a longer root every temperature record ends the process on a topic that is too long |
| GatewayBridge.TemperatureReportsDie | piGateway/Gateway.cpp:362-372 | with a root over 79 characters the reports stop at a `die` on the topic |
| LegacyGateway.Gateway.Step | piGateway/Gateway.c:195-271 | one loop pass changes the globals and acts as the specification of a pass says |
| LegacyGateway.SnapshotOnlyPayloads | piGateway/Gateway.c:208-231 | a 16-byte frame is kept field by field with its RSSI and raises the flag; any other length changes nothing |
| LegacyGateway.AckUnconditional | piGateway/Gateway.c:233-237 | every acknowledgement request is answered, whatever node it was addressed to |
| LegacyGateway.ProbeTwiceAtWrap | piGateway/Gateway.c:242 | at the wrap of the `uint8_t` counter, two consecutive requests are both probed |
| LegacyGateway.ProbeOneInThree | piGateway/Gateway.c:242-251 | away from the wrap, three consecutive requests give one probe |
| LegacyGateway.BatchOnFlag | piGateway/Gateway.c:256-270 | a raised flag gives the four publishes of the snapshot in order and is lowered; otherwise nothing is published |
| LegacyGateway.PublishedOnce | piGateway/Gateway.c:256-270 | a snapshot is published at most once |
| LegacyGateway.LegacyTopicShape | piGateway/Gateway.c:288 | for node ≤ 99, sensor ≤ 9 and value number 1-9 the topic is four digits carrying the three numbers, and it fits its buffer |
| LegacyGateway.LegacyTopicOverflows | piGateway/Gateway.c:285-288 | node 100 with sensor 10 prints six characters, seven bytes with the terminator, into a six-byte buffer |
| LegacyGateway.FormatInt16Width | piGateway/Gateway.c:288 | `%0wd` of a 16-bit value with w ≤ 6 takes at most six characters |
| LegacyGateway.LegacyTopicFitsWide | piGateway/Gateway.c:285-288 | a 14-byte topic buffer holds the topic of any 16-bit node and sensor |
| LegacyGateway.LegacyMessagesFit | piGateway/Gateway.c:284-302 | the `%u` message of any 32-bit value fits its 12-byte buffer and the `%04d` message of any 16-bit value its 7-byte one |
| TestTools.ParseModeExact | piGateway/SenderReceiver.c:89-102 | exactly `-r` gives receiver mode and exactly `-s` sender mode; any other argument list ends in the usage exit |
| TestTools.InitRadio | piGateway/SenderReceiver.c:182-190 | set-up restarts the radio first and sets promiscuous mode last; it calls `setHighPower` exactly for an RFM69HW and `encrypt` with the key exactly when a key length is set, high power before the key, and nothing else |
| TestTools.SetupSequenceUnique | piGateway/SenderReceiver.c:182-190 | that description of the set-up admits exactly one command sequence per configuration |
| TestTools.SendsOverCount | piGateway/SenderReceiver.c:168-176 | over any run of sender passes, the number of sends is the number of multiples of 20 the counter passes |
| TestTools.OneSendInTwenty | piGateway/SenderReceiver.cpp:182-191 | any 20 consecutive sender passes send exactly once |
| SenderReceiver.Tool.Step | piGateway/SenderReceiver.cpp:118-192 | one loop pass changes the globals and acts as the specification of a pass says, on the frame as received |
| SenderReceiver.Tool.ReceiveFrame | piGateway/SenderReceiver.cpp:120-180 | the receive branch matches its specification on the copied frame |
| SenderReceiver.AckOnlyWhenAddressed | piGateway/SenderReceiver.cpp:140-146 | an acknowledgement goes out exactly for a request addressed to this node, in either mode |
| SenderReceiver.WrongLengthOnlyDumped | piGateway/SenderReceiver.cpp:150-154 | a frame of the wrong length is only dumped: nothing is shown and the kept packet stays |
| SenderReceiver.VersionIgnored | piGateway/SenderReceiver.cpp:155-178 | the protocol version is never consulted: frames that differ only in it are handled alike |
| SenderReceiver.SenderSchedule | piGateway/SenderReceiver.cpp:182-191 | a sender pass counts and sends exactly when the counter reaches a multiple of 20, otherwise sleeps; a receiver never counts or sends |
| SenderReceiver.TestMessageFields | piGateway/SenderReceiver.cpp:293-300 | the test packet reads back as this node, node 2, device 10, sequence 100 and 99.0; its version and type are whatever the stack held |
| SenderReceiver.GatewayReadsTestMessageByChance | piGateway/SenderReceiver.cpp:293-311 | whether a gateway takes the test packet for a temperature reading depends only on the two stack bytes left unset |
| LegacySenderReceiver.Launch | piGateway/SenderReceiver.c:89-122 | `main` either exits with usage or starts the tool in the parsed mode with its node numbers, after `initialize` followed by exactly the set-up sequence for its configuration |
| LegacySenderReceiver.LegacyTool.Step | piGateway/SenderReceiver.c:128-178 | one loop pass changes the globals and acts as the specification of a pass says |
| LegacySenderReceiver.LegacyTool.ReceiveFrame | piGateway/SenderReceiver.c:129-166 | the receive branch matches its specification on the copied frame |
| LegacySenderReceiver.LegacyTool.SenderPass | piGateway/SenderReceiver.c:168-176 | the sender half of a pass matches the shared schedule |
| LegacySenderReceiver.LegacyTool.SendMessage | piGateway/SenderReceiver.c:266-285 | the message sent is the `Payload` (peer, 10, 1000, 99.0, 101.0), and it decodes back to it |
| LegacySenderReceiver.RolesArePaired | piGateway/SenderReceiver.c:72-102 | sender and receiver have distinct numbers, and each addresses the other's |
| LegacySenderReceiver.ModesAreExclusive | piGateway/SenderReceiver.c:129-176 | a receiver never counts or sends; a sender never touches the radio's frames |
| LegacySenderReceiver.AckOnlyWhenAddressed | piGateway/SenderReceiver.c:143-147 | a receiver acknowledges exactly the requests addressed to its number |
| LegacySenderReceiver.WrongLengthOnlyDumped | piGateway/SenderReceiver.c:151-153 | a frame of the wrong length is dumped 16 bytes per line and not decoded |
| LegacySenderReceiver.SenderSchedule | piGateway/SenderReceiver.c:168-176 | a sender sends exactly when its counter reaches a multiple of 20, always to its peer |
| LegacySenderReceiver.SenderReachesReceiver | piGateway/SenderReceiver.c:266-291 | what the sender sends is acknowledged by the receiver, decoded to the payload sent and kept |
| SensorNode.Node.Loop | RFM69HA-Temperature-SensorNode/Sketch.cpp:120-145 | `loop` keeps the header `setup` wrote and acts as the specification of a call says |
| SensorNode.HeaderKept | RFM69HA-Temperature-SensorNode/Sketch.cpp:139-142 | filling in a reading leaves protocol version, source and target alone |
| SensorNode.SentRecordFields | RFM69HA-Temperature-SensorNode/Sketch.cpp:139-143 | the record sent reads back as a temperature reading of this node's version, from this node to the gateway, device 0, with the sequence number before the increment and the temperature taken; the radio sends it to the node its target field names |
| SensorNode.LoopSchedule | RFM69HA-Temperature-SensorNode/Sketch.cpp:126-143 | a call sends exactly when more than 3000 ms have elapsed, and then sends the whole record to the gateway's node number; the timer restarts and the sequence moves on mod 256, otherwise nothing changes |
| SensorNode.ElapsedIsWrapSafe | RFM69HA-Temperature-SensorNode/Sketch.cpp:126-128 | the elapsed-time test is unaffected by the clock's wrap-around |
| SensorNode.NoSecondSendAtOnce | RFM69HA-Temperature-SensorNode/Sketch.cpp:131 | right after a send, a call at the restart time sends nothing |
| SensorNode.GatewayPublishesReading | RFM69HA-Temperature-SensorNode/Sketch.cpp:139-143 | end to end: every record the node sends is published by a compatible gateway as exactly its RSSI, sequence number and temperature under this node and device 0 |

## Left out

- I/O is not modelled: logging, `printf`/`syslog` and serial output. The
  exception is the dump lines. A dump action carries each line as its
  number, hex column and ASCII column. `HexDump.LineText` gives the text
  `LOG` prints for such a line.
- In a build without `DAEMON` or `DEBUG`, the current gateway's `hexDump`
  has an empty body. The model still emits the dump action, whose lines
  are then not printed.
- These are not modelled: daemonisation, signal handling, the MQTT client
  (connection, loop, callbacks) and the radio driver's internals. A publish,
  acknowledgement, probe, send or radio set-up call is an action the model
  emits. The probe's answer and the bytes an acknowledgement leaves in the
  driver's buffer are inputs.
- The gateway's start-up sequence (client creation, subscribe,
  `initialize`) is not modelled beyond the client identifier and the
  subscription filter. The radio re-initialisation after the watchdog is
  the single action `Reinit`.
- Floating point is not modelled. Temperatures are opaque 32-bit patterns.
  `%+07.2f` and `%f` renderings are symbolic, bounded by the buffer limits
  the code relies on.
- GatewayBridge.Gateway.Step: the clock is a single reading per pass and is
  unbounded, so the 32-bit wrap of `last_message_time + Watchdog_Timeout_Delay`
  is not modelled. Only the sensor node's subtraction form is proved
  wrap-safe.
- GatewayBridge.Initial: the statistics counters are unbounded naturals. The
  32-bit `unsigned long` wrap after 2^32 events is not modelled.
- MqttTopics.FormOutputTopic: for a topic longer than 128 characters, the
  `sprintf` at Gateway.cpp:546 has already written past the 129-byte stack
  buffer `mqtt_topic` (Gateway.cpp:271) before the length guard runs. That
  is undefined behaviour. The model does not capture the overflow and
  gives the `die` that follows it.
- GatewayBridge.DispatchFrame: it calls `HexDumpFixed` where Gateway.cpp:339
  and :396 call the `hexDump` as written (see "## Findings"). In a
  `DAEMON` or `DEBUG` build that dump never returns for a non-empty frame.
  So a frame of the wrong length, or a record that is not a first-version
  temperature reading, stops the loop for good: no more watchdog,
  self-report or frames. The model has the dump complete and the pass go on.
- GatewayBridge.OtherFramesDumped: it states the corrected dump's lines as
  the outcome. As written, in a logging build, that dump never finishes
  for a non-empty frame.
- GatewayBridge.Gateway.ReceiveFrame: its dump branch is the corrected
  `hexDump`. As written, in a logging build, the pass never returns from
  it for a non-empty frame.
- GatewayBridge.Gateway.Step: a pass whose frame goes to the dump completes,
  with the corrected `hexDump`. As written, in a logging build, it hangs
  there for a non-empty frame.
- SenderReceiver.Tool.Step: a pass with a frame of the wrong length
  completes, with the corrected `hexDump`. SenderReceiver.cpp always defines
  `DEBUG` (line 37), so as written the tool hangs in `hexDump` for any
  non-empty such frame. After that it neither receives nor sends.
- SenderReceiver.Tool.ReceiveFrame: it calls `HexDumpFixed` where
  SenderReceiver.cpp:153 calls the `hexDump` as written. That call never
  returns for a non-empty frame.
- SenderReceiver.WrongLengthOnlyDumped: it states that the dump completes
  and the pass goes on. This holds for the corrected `hexDump` only. As
  written, the dump of a non-empty frame never ends.
- Once a `die` action has been emitted, the state is not meaningful: the
  process has ended.
- TestTools.SendsOverCount: the `int` counter of the test tools is unbounded.
  Its overflow after 2^31 passes is undefined behaviour in C and is not
  modelled.
- The `Packet_Data` field offsets come from a header that is not part of this
  model (`RFM69HomeAutomationCfg.h`). The layout is a parameter constrained
  to non-overlapping fields.
- The data-type and protocol tags are parameters too, and so are the node
  numbers and keys from `RFM69NetworkCfg.h` and the node configuration
  headers.
- The stray `%` at the end of `"%04d%"` in `MQTTSendInt` is undefined
  behaviour in C. The message is modelled as the `%04d` rendering alone.
- The legacy gateway's probe payload (`"ACK TEST"`, two retries, 100 ms) is
  not modelled. The probe is an action naming the node only.
- The sensor node's radio set-up calls in `setup` (`initialize`,
  `setHighPower`, `encrypt`) are not modelled. Neither is the conversion
  from the radio's integer temperature to `float`.
- The `millis()` helper of the C test tool is not modelled: it is never
  called.

## Findings

| source | as written | input that shows it | evidently intended | confidence | as-written member | corrected member |
|---|---|---|---|---|---|---|
| piGateway/Gateway.cpp:506-510 (same code in piGateway/SenderReceiver.cpp:255-259) | each line shows `remaining - perLine` bytes (unsigned), clamped to `perLine`, and `remaining` drops by that count | any non-empty frame. With 16 bytes left at 16 per line, a pass shows nothing and loops forever. A 5-byte frame shows 16 bytes, reading past its end. | each line shows the smaller of `remaining` and `perLine` bytes, and the loop ends after len/perLine lines rounded up | high, not executed | HexDump.AsWrittenNeverFinishes | HexDump.HexDumpFixed |
| piGateway/Gateway.c:285-288 (also :295-298, :305-308) | `sprintf` writes `%02d%01d%01d` into `char buff_topic[6]` | node 100, sensor 10, value 1 prints `100101`: seven bytes with the terminator | a topic buffer large enough for any node and sensor number the `Payload` can carry | high, not executed | LegacyGateway.LegacyTopicOverflows | LegacyGateway.LegacyTopicFitsWide |

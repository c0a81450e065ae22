/**
 * The MQTT side of the current gateway: the client identifier, the
 * subscription filter, the grammar of the output topics
 *   <root>/OUTPUT/Network<NNN>/Node<NNN>/Device<NNN>/<subject>
 * with each number printed by `%03d`, the payload strings, and the length
 * guards that end the process rather than publish a truncated topic.
 */
module MqttTopics {
  import opened Common
  import opened Printf

  /** `MQTT_Max_Topic_Length` and `MQTT_Max_Message_Length`. */
  const MaxTopicLength: nat := 128
  const MaxMessageLength: nat := 128

  /** `MQTT_Topic_Root` as shipped. */
  const DefaultRoot: string := "RFM69HomeAutomation"

  /** `MQTT_Client_ID`. */
  const ClientId: string := "RFM69HomePiGateway"

  /** Section 3.1.3.1 of MQTT 3.1.1: a server must accept a client identifier
      of 1 to 23 characters drawn from 0-9, a-z and A-Z. */
  predicate GuaranteedClientId(id: string)
  {
    && 1 <= |id| <= 23
    && forall i :: 0 <= i < |id| ==>
         ('0' <= id[i] <= '9') || ('a' <= id[i] <= 'z') || ('A' <= id[i] <= 'Z')
  }

  /** The gateway's identifier is one every server must accept (the source
      asserts `sizeof` of it, terminator included, is at most 24). */
  lemma ClientIdAccepted()
    ensures GuaranteedClientId(ClientId) && |ClientId| + 1 <= 24
  {
  }

  /** The topic `mqttFormOutputTopic` prints. */
  function OutputTopic(root: string, network: byte, node: byte, device: byte, subject: string): string
  {
    root + ("/OUTPUT/Network" + FormatInt(network, 3)
      + ("/Node" + FormatInt(node, 3) + ("/Device" + FormatInt(device, 3) + ("/" + subject))))
  }

  /** The fatal conditions of the topic and publish helpers (`die`). */
  datatype Fatal = TopicTooLarge | TopicTooLargeAtPublish | MessageTooLarge

  /** `mqttFormOutputTopic`: the printed topic, or the process dies when it
      is longer than `MaxTopicLength`. */
  function FormOutputTopic(root: string, network: byte, node: byte, device: byte, subject: string)
    : (r: Result<string, Fatal>)
    ensures r.Ok? ==> r.value == OutputTopic(root, network, node, device, subject)
    ensures r.Err? ==> r.error == TopicTooLarge
  {
    var topic := OutputTopic(root, network, node, device, subject);
    if |topic| > MaxTopicLength then Err(TopicTooLarge) else Ok(topic)
  }

  /** The fixed parts of a topic take 37 characters, so every topic is that
      much longer than root and subject together. */
  lemma OutputTopicLength(root: string, network: byte, node: byte, device: byte, subject: string)
    ensures |OutputTopic(root, network, node, device, subject)| == |root| + 37 + |subject|
  {
    ThreeDigitsOfByte(network);
    ThreeDigitsOfByte(node);
    ThreeDigitsOfByte(device);
  }

  /** The process dies on a topic exactly when root and subject together
      exceed 91 characters, whatever the node and device; with the shipped
      root every subject of up to 72 characters is published. */
  lemma FormOutputTopicDiesIff(root: string, network: byte, node: byte, device: byte, subject: string)
    ensures FormOutputTopic(root, network, node, device, subject).Err?
        <==> |root| + |subject| > 91
    ensures root == DefaultRoot && |subject| <= 72 ==>
        FormOutputTopic(root, network, node, device, subject).Ok?
  {
    OutputTopicLength(root, network, node, device, subject);
  }

  /** The four fields a topic names. */
  datatype TopicFields = TopicFields(network: byte, node: byte, device: byte, subject: string)

  /** Reads a three-digit number field, if it is one and names a byte. */
  function ByteField(s: string): (r: Option<byte>)
    ensures r.Some? ==> |s| == 3 && AllDigits(s) && r.value == DecimalValue(s)
  {
    if |s| == 3 && AllDigits(s) && DecimalValue(s) < 0x100 then Some(DecimalValue(s)) else None
  }

  /** Reads one `<tag><NNN>` level off the front of `s`: the number and what
      follows it. */
  function ReadLevel(tag: string, s: string): Option<(byte, string)>
  {
    if |s| < |tag| + 3 || s[..|tag|] != tag then None
    else match ByteField(s[|tag|..|tag| + 3])
      case Some(v) => Some((v, s[|tag| + 3..]))
      case None => None
  }

  lemma ReadLevelOf(tag: string, v: byte, rest: string)
    ensures ReadLevel(tag, tag + FormatInt(v, 3) + rest) == Some((v, rest))
  {
    var s := tag + FormatInt(v, 3) + rest;
    ThreeDigitsOfByte(v);
    assert s[..|tag|] == tag;
    assert s[|tag|..|tag| + 3] == FormatInt(v, 3);
    assert s[|tag| + 3..] == rest;
  }

  /** The inverse of `OutputTopic` for a known root: recovers the network,
      node, device and subject, or `None` when the string is not an output
      topic under that root. */
  function ParseOutputTopic(root: string, topic: string): (r: Option<TopicFields>)
  {
    if |topic| < |root| || topic[..|root|] != root then None
    else match ReadLevel("/OUTPUT/Network", topic[|root|..])
      case None => None
      case Some((net, r1)) =>
        match ReadLevel("/Node", r1)
        case None => None
        case Some((node, r2)) =>
          match ReadLevel("/Device", r2)
          case None => None
          case Some((device, r3)) =>
            if |r3| >= 1 && r3[0] == '/' then Some(TopicFields(net, node, device, r3[1..])) else None
  }

  /** Every output topic reads back as the network, node, device and subject
      it was built from. */
  lemma OutputTopicRoundTrip(root: string, network: byte, node: byte, device: byte, subject: string)
    ensures ParseOutputTopic(root, OutputTopic(root, network, node, device, subject))
         == Some(TopicFields(network, node, device, subject))
  {
    var r3 := "/" + subject;
    var r2 := "/Device" + FormatInt(device, 3) + r3;
    var r1 := "/Node" + FormatInt(node, 3) + r2;
    var r0 := "/OUTPUT/Network" + FormatInt(network, 3) + r1;
    assert OutputTopic(root, network, node, device, subject) == root + r0;
    ReadLevelOf("/OUTPUT/Network", network, r1);
    ReadLevelOf("/Node", node, r2);
    ReadLevelOf("/Device", device, r3);
    ParseLevels(root, r0, r1, r2, r3, TopicFields(network, node, device, subject));
  }

  lemma ParseLevels(root: string, r0: string, r1: string, r2: string, r3: string, f: TopicFields)
    requires ReadLevel("/OUTPUT/Network", r0) == Some((f.network, r1))
    requires ReadLevel("/Node", r1) == Some((f.node, r2))
    requires ReadLevel("/Device", r2) == Some((f.device, r3))
    requires r3 == "/" + f.subject
    ensures ParseOutputTopic(root, root + r0) == Some(f)
  {
    var t := root + r0;
    assert t[..|root|] == root && t[|root|..] == r0;
    assert r3[1..] == f.subject;
  }

  /** Distinct (network, node, device, subject) tuples never share a topic,
      so no reading can be published under another sensor's name. */
  lemma OutputTopicInjective(root: string, a: TopicFields, c: TopicFields)
    requires OutputTopic(root, a.network, a.node, a.device, a.subject)
          == OutputTopic(root, c.network, c.node, c.device, c.subject)
    ensures a == c
  {
    OutputTopicRoundTrip(root, a.network, a.node, a.device, a.subject);
    OutputTopicRoundTrip(root, c.network, c.node, c.device, c.subject);
  }

  /** The subscription `main` makes: the whole input subtree of the network. */
  function SubscriptionFilter(root: string, network: byte): string
  {
    root + "/INPUT/Network" + FormatInt(network, 3) + "/#"
  }

  /** Section 4.7.1.2 of MQTT 3.1.1: a filter `P/#` matches `P` itself and
      every topic below `P`. */
  predicate MatchesMultiLevel(prefix: string, topic: string)
  {
    topic == prefix || (|topic| > |prefix| && topic[..|prefix| + 1] == prefix + "/")
  }

  /** The filter ends in the multi-level wildcard, alone in its level after a
      separator, as section 4.7.1.2 requires; it covers the 3-digit network
      level under `<root>/INPUT`. */
  lemma SubscriptionFilterWellFormed(root: string, network: byte)
    ensures var f := SubscriptionFilter(root, network);
      && |f| == |root| + 19 && f[|f| - 1] == '#' && f[|f| - 2] == '/'
      && f[..|f| - 2] == root + "/INPUT/Network" + FormatInt(network, 3)
  {
    ThreeDigitsOfByte(network);
  }

  /** The gateway never receives its own readings: no output topic lies in
      the input subtree it subscribes to, whatever the root and numbers. */
  lemma NoEchoOfOwnPublishes(root: string, network: byte, net2: byte, node: byte, device: byte, subject: string)
    ensures !MatchesMultiLevel(root + "/INPUT/Network" + FormatInt(network, 3),
                               OutputTopic(root, net2, node, device, subject))
  {
    var p := root + "/INPUT/Network" + FormatInt(network, 3);
    var t := OutputTopic(root, net2, node, device, subject);
    var b := |root|;
    ThreeDigitsOfByte(network);
    OutputTopicLength(root, net2, node, device, subject);
    assert p[b + 1] == 'I';
    assert t[b + 1] == 'O';
    if |t| > |p| {
      assert t[..|p| + 1][b + 1] != (p + "/")[b + 1];
    }
  }

  /** A payload string; a `%+07.2f` rendering of a float is kept symbolic. */
  datatype Message = Text(text: string) | TemperatureText(value: Float32)

  /** `mosquittoPublishMessage`'s message guard. A float rendered by
      `%+07.2f` has at most 47 characters, so only plain text can fail it. */
  predicate MessageFits(m: Message)
  {
    m.TemperatureText? || |m.text| <= MaxMessageLength
  }

  /** `mosquittoPublishMessage`: the first guard that fails, if any; the
      publish happens only when both pass. */
  function PublishCheck(topic: string, message: Message): (r: Option<Fatal>)
    ensures r.None? <==> |topic| <= MaxTopicLength && MessageFits(message)
    ensures |topic| > MaxTopicLength ==> r == Some(TopicTooLargeAtPublish)
  {
    if |topic| > MaxTopicLength then Some(TopicTooLargeAtPublish)
    else if !MessageFits(message) then Some(MessageTooLarge)
    else None
  }

  /** `%+04d` of the received signal strength. */
  function RssiMessage(rssi: i16): Message { Text(FormatSignedInt(rssi, 4)) }

  /** `%03d` of a sequence number. */
  function SequenceMessage(n: byte): Message { Text(FormatInt(n, 3)) }

  /** The payloads the gateway builds never trip the message guard, and each
      reads back as the value it carries. */
  lemma GatewayMessagesFit(rssi: i16, n: byte, t: Float32)
    ensures MessageFits(RssiMessage(rssi)) && MessageFits(SequenceMessage(n))
    ensures MessageFits(TemperatureText(t))
    ensures SignedValue(RssiMessage(rssi).text) == rssi
    ensures |SequenceMessage(n).text| == 3 && DecimalValue(SequenceMessage(n).text) == n
  {
    SignedInt16Width(rssi);
    FormatSignedIntRoundTrip(rssi, 4);
    ThreeDigitsOfByte(n);
  }
}

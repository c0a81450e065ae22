/**
 * The radio wire records and the way the C code reads and writes them.
 *
 * `Packet_Data` (used by the current gateway, the C++ test tool and the
 * sensor node) is a header of four bytes -- protocol version, data type,
 * source node, target node -- followed by a union whose byte layout is
 * fixed by a header file outside this model. Its field positions are
 * therefore a `Layout` parameter: any layout in which the fields the code
 * reads do not overlap.
 *
 * `Payload` (used by the legacy gateway and the C test tool) is declared
 * in those files: two shorts, an unsigned long and two floats, 16 bytes on
 * the 32-bit little-endian targets.
 *
 * Received bytes are reinterpreted in place (`*(Packet_Data*)data`), so
 * decoding never fails once the length is right: every view of the union
 * is available and the callers choose one by the tags.
 */
module PacketCodec {
  import opened Common

  /** Where the fields of `Packet_Data` sit, and its `sizeof`. */
  datatype Layout = Layout(
    deviceOffset: nat,
    sequenceOffset: nat,
    temperatureOffset: nat,
    testSequenceOffset: nat,
    size: nat)

  /** The header occupies bytes 0-3; the union fields lie after it, inside
      the record, and the three temperature fields do not overlap. The size
      fits the radio's one-byte length field. */
  predicate ValidLayout(l: Layout)
  {
    && 4 <= l.deviceOffset < l.size
    && 4 <= l.sequenceOffset < l.size
    && 4 <= l.testSequenceOffset < l.size
    && 4 <= l.temperatureOffset && l.temperatureOffset + 4 <= l.size
    && l.deviceOffset != l.sequenceOffset
    && !(l.temperatureOffset <= l.deviceOffset < l.temperatureOffset + 4)
    && !(l.temperatureOffset <= l.sequenceOffset < l.temperatureOffset + 4)
    && l.size < 0x100
  }

  /** The enumerators `First_Protocol_Version`, `Temperature_Data_Type` and
      `Test_Packet_Data_Type`; the two data types are distinct `case` labels. */
  datatype Tags = Tags(firstProtocolVersion: byte, temperatureDataType: byte, testDataType: byte)

  predicate ValidTags(t: Tags) { t.temperatureDataType != t.testDataType }

  /** Every field of `Packet_Data`, through both views of the union. */
  datatype PacketData = PacketData(
    protocolVersion: byte,
    dataType: byte,
    sourceNodeId: byte,
    targetNodeId: byte,
    deviceId: byte,
    sequenceNumber: byte,
    temperature: Float32,
    testSequenceNumber: byte)

  /** `*(Packet_Data*)data`: the record a frame of the right length shows. */
  function View(l: Layout, frame: seq<byte>): (p: PacketData)
    requires ValidLayout(l) && |frame| == l.size
    ensures p.sourceNodeId == frame[2] && p.targetNodeId == frame[3]
  {
    var t := l.temperatureOffset;
    PacketData(frame[0], frame[1], frame[2], frame[3],
               frame[l.deviceOffset], frame[l.sequenceOffset],
               Float32(Word32(frame[t..t + 4])), frame[l.testSequenceOffset])
  }

  /** The bytes of `buf` with the four bytes of `f` stored at `off`. */
  function StoreFloat(buf: seq<byte>, off: nat, f: Float32): (r: seq<byte>)
    requires off + 4 <= |buf|
    ensures |r| == |buf|
    ensures r[off..off + 4] == LittleEndian32(f.bits)
    ensures forall i :: 0 <= i < |buf| && !(off <= i < off + 4) ==> r[i] == buf[i]
  {
    var le := LittleEndian32(f.bits);
    var r := seq(|buf|, i requires 0 <= i < |buf| => if off <= i < off + 4 then le[i - off] else buf[i]);
    assert r[off..off + 4] == le;
    r
  }

  /** The bytes of a `Packet_Data` whose header and temperature fields were
      assigned from `p` over the prior contents `background` (zeros for a
      global, indeterminate bytes for a local). */
  function EncodeTemperature(l: Layout, background: seq<byte>, p: PacketData): (frame: seq<byte>)
    requires ValidLayout(l) && |background| == l.size
    ensures |frame| == l.size
  {
    var header := background[0 := p.protocolVersion][1 := p.dataType]
                            [2 := p.sourceNodeId][3 := p.targetNodeId];
    var body := header[l.deviceOffset := p.deviceId][l.sequenceOffset := p.sequenceNumber];
    StoreFloat(body, l.temperatureOffset, p.temperature)
  }

  /** Encoding a temperature packet and viewing the frame again returns every
      header and temperature field unchanged, the float bit for bit. */
  lemma TemperatureRoundTrip(l: Layout, background: seq<byte>, p: PacketData)
    requires ValidLayout(l) && |background| == l.size
    ensures var q := View(l, EncodeTemperature(l, background, p));
      && q.protocolVersion == p.protocolVersion && q.dataType == p.dataType
      && q.sourceNodeId == p.sourceNodeId && q.targetNodeId == p.targetNodeId
      && q.deviceId == p.deviceId && q.sequenceNumber == p.sequenceNumber
      && q.temperature == p.temperature
  {
    var frame := EncodeTemperature(l, background, p);
    var t := l.temperatureOffset;
    assert frame[t..t + 4] == LittleEndian32(p.temperature.bits);
    Word32OfLittleEndian(p.temperature.bits);
  }

  // ---------------------------------------------------------------------
  // The legacy `Payload` record.

  /** `sizeof(Payload)`: short, short, unsigned long, float, float. */
  const PayloadSize: nat := 16

  datatype Payload = Payload(nodeId: i16, sensorId: i16, var1: u32, var2: Float32, var3: Float32)

  function LittleEndian16(n: i16): (bs: seq<byte>)
    ensures |bs| == 2
  {
    var u := if n < 0 then n as int + 0x1_0000 else n as int;
    [u % 0x100, u / 0x100]
  }

  function Short(bs: seq<byte>): i16
    requires |bs| == 2
  {
    var u := bs[0] as int + 0x100 * bs[1] as int;
    if u >= 0x8000 then u - 0x1_0000 else u
  }

  /** The 16 bytes of a `Payload` in memory. */
  function EncodePayload(p: Payload): (bs: seq<byte>)
    ensures |bs| == PayloadSize
  {
    LittleEndian16(p.nodeId) + LittleEndian16(p.sensorId) + LittleEndian32(p.var1)
      + LittleEndian32(p.var2.bits) + LittleEndian32(p.var3.bits)
  }

  /** `*(Payload*)data` for a frame of `sizeof(Payload)` bytes. */
  function DecodePayload(bs: seq<byte>): Payload
    requires |bs| == PayloadSize
  {
    Payload(Short(bs[0..2]), Short(bs[2..4]), Word32(bs[4..8]),
            Float32(Word32(bs[8..12])), Float32(Word32(bs[12..16])))
  }

  /** A payload sent by one tool is read back field for field by the other. */
  lemma PayloadRoundTrip(p: Payload)
    ensures DecodePayload(EncodePayload(p)) == p
  {
    var bs := EncodePayload(p);
    assert bs[0..2] == LittleEndian16(p.nodeId);
    assert bs[2..4] == LittleEndian16(p.sensorId);
    assert bs[4..8] == LittleEndian32(p.var1);
    assert bs[8..12] == LittleEndian32(p.var2.bits);
    assert bs[12..16] == LittleEndian32(p.var3.bits);
    Word32OfLittleEndian(p.var1);
    Word32OfLittleEndian(p.var2.bits);
    Word32OfLittleEndian(p.var3.bits);
  }
}

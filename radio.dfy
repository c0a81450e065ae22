/**
 * The part of the RFM69 driver the gateways and the test tool read and
 * drive: the registers of the last frame received and the acknowledgement.
 * The driver itself (its radio protocol, timing and retries) is not part
 * of this model.
 */
module RadioLink {
  import opened Common

  /** What the driver holds after `receiveDone()` returned true. */
  datatype Frame = Frame(data: seq<byte>, senderId: byte, targetId: byte, ackRequested: bool, rssi: i16)

  /** The radio's receive registers. `SendAck` waits for a free channel
      and may receive meanwhile, so the bytes it leaves behind are an
      input. */
  class Radio {
    var data: seq<byte>
    var senderId: byte
    var targetId: byte
    var ackRequested: bool
    var rssi: i16

    constructor (f: Frame)
      ensures Received() == f
    {
      data, senderId, targetId, ackRequested, rssi := f.data, f.senderId, f.targetId, f.ackRequested, f.rssi;
    }

    function Received(): Frame
      reads this
    {
      Frame(data, senderId, targetId, ackRequested, rssi)
    }

    method SendAck(incoming: seq<byte>)
      modifies this
      ensures data == incoming
      ensures senderId == old(senderId) && targetId == old(targetId)
      ensures ackRequested == old(ackRequested) && rssi == old(rssi)
    {
      data := incoming;
    }
  }
}

/** The datagrams of the transfer phase, each with what its receiver decodes. */
module Datagrams {
  import opened Bytes
  import opened Protocol

  function DataDatagram(session: uint32, s: uint32, retransmission: bool, payload: seq<uint8>): seq<uint8>
    requires |payload| < 0x1_0000
  {
    EncodePacket(MakeHeader(Data, session, s, if retransmission then RETRANSMITTED_FLAGS else 0), payload)
  }

  function AckDatagram(session: uint32, number: uint32, ack: AckPayload): seq<uint8>
    requires WellSized(ack)
  {
    EncodePacket(MakeHeader(Ack, session, number, SACK_FLAGS), EncodeAck(ack))
  }

  function CompleteDatagram(session: uint32, totalChunks: uint32): seq<uint8> {
    EncodePacket(MakeHeader(Complete, session, totalChunks, 0), [])
  }

  function CompleteAckDatagram(session: uint32, totalChunks: uint32, p: CompleteAckPayload): seq<uint8> {
    EncodePacket(MakeHeader(CompleteAck, session, totalChunks, 0), EncodeCompleteAck(p))
  }

  /** What `DecodePacket` yields, seen by a handler. */
  ghost predicate Carries(d: seq<uint8>, kind: PacketType, session: uint32, number: uint32, flags: uint16,
                          payload: seq<uint8>)
  {
    && DecodePacket(d).Decoded?
    && var p := DecodePacket(d).packet;
       p.header.kind == kind && p.header.session == session && p.header.number == number
       && p.header.flags == flags && p.payload == payload
  }

  lemma DataCarries(session: uint32, s: uint32, retransmission: bool, payload: seq<uint8>)
    requires |payload| < 0x1_0000
    ensures Carries(DataDatagram(session, s, retransmission, payload), Data, session, s,
                    if retransmission then 2 else 0, payload)
  {
    FlagBits();
    DecodeEncodePacket(MakeHeader(Data, session, s, if retransmission then RETRANSMITTED_FLAGS else 0), payload);
  }

  lemma AckCarries(session: uint32, number: uint32, ack: AckPayload)
    requires WellSized(ack)
    ensures Carries(AckDatagram(session, number, ack), Ack, session, number, 4, EncodeAck(ack))
    ensures DecodeAck(EncodeAck(ack)) == Some(ack)
  {
    FlagBits();
    DecodeEncodePacket(MakeHeader(Ack, session, number, SACK_FLAGS), EncodeAck(ack));
    DecodeEncodeAck(ack);
  }

  lemma CompleteCarries(session: uint32, totalChunks: uint32)
    ensures Carries(CompleteDatagram(session, totalChunks), Complete, session, totalChunks, 0, [])
  {
    FlagBits();
    DecodeEncodePacket(MakeHeader(Complete, session, totalChunks, 0), []);
  }

  lemma CompleteAckCarries(session: uint32, totalChunks: uint32, p: CompleteAckPayload)
    ensures Carries(CompleteAckDatagram(session, totalChunks, p), CompleteAck, session, totalChunks, 0, EncodeCompleteAck(p))
    ensures DecodeCompleteAck(EncodeCompleteAck(p)) == Some(p)
  {
    FlagBits();
    DecodeEncodePacket(MakeHeader(CompleteAck, session, totalChunks, 0), EncodeCompleteAck(p));
    DecodeEncodeCompleteAck(p);
  }
}

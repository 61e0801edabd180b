/** What the server's transfer loop makes of one datagram (src/server.cpp:146-157, 159-214, 287-450). */
module ServerModel {
  import opened Bytes
  import opened Protocol
  import opened FileLayout
  import opened Handshake
  import opened Receiver
  import opened Datagrams

  const ACK_PACKET_THRESHOLD := 32

  /** `completed` holds the COMPLETE_ACK payload once the transfer has been confirmed; from then
      on the server only repeats it. */
  datatype Server = Server(
    session: uint32, start: StartPayload, reply: StartAckPayload,
    received: seq<bool>, output: seq<uint8>,
    ackPending: bool, packetsSinceAck: nat, nextAckTime: int, ackNumber: uint32,
    completed: Option<CompleteAckPayload>)

  /** What START validation and the output file leave for the loop. */
  ghost predicate Configured(s: Server) {
    && Layout(s.start.fileSize, s.start.chunkSize, s.start.totalChunks)
    && |s.received| == s.start.totalChunks
    && |s.output| == s.start.fileSize
  }

  function AckInterval(reply: StartAckPayload): int { Max(1, reply.ackIntervalMs) * NS_PER_MS }

  function NewServer(session: uint32, start: StartPayload, reply: StartAckPayload, output: seq<uint8>, now: int): Server {
    Server(session, start, reply, seq(start.totalChunks, _ => false), output,
           false, 0, now + AckInterval(reply), 0, None)
  }

  /** send_ack, with the 32-bit ACK number going round. */
  function SendAck(s: Server): (Server, seq<uint8>)
    requires |s.received| < 0x1_0000_0000
  {
    (s.(ackNumber := (s.ackNumber + 1) % 0x1_0000_0000),
     AckDatagram(s.session, s.ackNumber, Snapshot(s.received, s.reply.bitmapBits)))
  }

  ghost predicate AllReceived(r: seq<bool>) { forall i | 0 <= i < |r| :: r[i] }

  /** Storing a chunk: in range, of the right size, and new. */
  function Store(s: Server, n: nat, payload: seq<uint8>): Server
    requires n < |s.received| && Offset(s.start.chunkSize, n) + |payload| <= |s.output|
  {
    if s.received[n] then s
    else s.(received := s.received[n := true],
            output := Splice(s.output, Offset(s.start.chunkSize, n), payload))
  }

  predicate WellFormedData(s: Server, n: nat, payload: seq<uint8>) {
    n < s.start.totalChunks && |payload| == Length(s.start.fileSize, s.start.chunkSize, n)
  }

  /** The packet is counted, and the interval starts with the first one since the last ACK. */
  function Counted(s: Server, now: int): Server {
    s.(packetsSinceAck := s.packetsSinceAck + 1,
       ackPending := true,
       nextAckTime := if s.ackPending then s.nextAckTime else now + AckInterval(s.reply))
  }

  ghost predicate AckDue(s: Server, now: int) {
    AllReceived(s.received) || s.packetsSinceAck >= ACK_PACKET_THRESHOLD || now >= s.nextAckTime
  }

  /** An ACK goes out at once for a duplicate, a retransmission or the last missing chunk, and
      otherwise after 32 packets or the interval. */
  ghost function AckOrWait(s: Server, atOnce: bool, now: int): (Server, Option<seq<uint8>>)
    requires |s.received| < 0x1_0000_0000
  {
    if atOnce || AckDue(s, now) then
      (SendAck(s).0.(ackPending := false, packetsSinceAck := 0), Some(SendAck(s).1))
    else (s, None)
  }

  ghost function ReceiveData(s: Server, n: nat, retransmitted: bool, payload: seq<uint8>, now: int)
    : (Server, Option<seq<uint8>>)
    requires Configured(s)
  {
    if !WellFormedData(s, n, payload) then (s, None)
    else
      DataFits(s, n, payload);
      AckOrWait(Counted(Store(s, n, payload), now), s.received[n] || retransmitted, now)
  }

  lemma DataFits(s: Server, n: nat, payload: seq<uint8>)
    requires Configured(s) && WellFormedData(s, n, payload)
    ensures n < |s.received| && Offset(s.start.chunkSize, n) + |payload| <= |s.output|
  {
    ChunkInBounds(s.start.fileSize, s.start.chunkSize, s.start.totalChunks, n);
  }

  /** A COMPLETE is answered with an ACK until everything is there. */
  ghost function ReceiveComplete(s: Server, transferTimeUs: uint64): (Server, Option<seq<uint8>>)
    requires Configured(s)
  {
    if !AllReceived(s.received) || FirstMissing(s.received, 0) != s.start.totalChunks then
      var (u, d) := SendAck(s);
      (u, Some(d))
    else
      CompleteIff(s.received);
      var p := CompleteAckPayload(STATUS_OK, |Accepted(s.received)|, s.start.fileSize, transferTimeUs);
      (s.(completed := Some(p)), Some(CompleteAckDatagram(s.session, s.start.totalChunks, p)))
  }

  predicate IsComplete(s: Server, p: Packet) {
    p.header.kind.Complete? && p.header.number == s.start.totalChunks && p.payload == []
  }

  /** One datagram: the state it leaves and the reply it gets.  A START of another session is told
      that the server is busy. */
  ghost function Receive(s: Server, data: seq<uint8>, now: int, transferTimeUs: uint64): (Server, Option<seq<uint8>>)
    requires Configured(s)
  {
    var decoded := DecodePacket(data);
    if decoded.Rejected? then (s, None)
    else
      var p := decoded.packet;
      var h := p.header;
      if s.completed.Some? then
        if h.session == s.session && IsComplete(s, p) then
          (s, Some(CompleteAckDatagram(s.session, s.start.totalChunks, s.completed.value)))
        else (s, None)
      else if h.kind.Start? then
        (s, Some(if h.session == s.session then StartAckDatagram(s.session, s.reply)
                 else StartAckDatagram(h.session, StartAckPayload(STATUS_BUSY, 0, 0, 0))))
      else if h.session != s.session then (s, None)
      else if h.kind.Data? then ReceiveData(s, h.number, Bit(h.flags, FLAG_RETRANSMITTED), p.payload, now)
      else if IsComplete(s, p) then ReceiveComplete(s, transferTimeUs)
      else (s, None)
  }
}

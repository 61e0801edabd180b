/** Exactly what the server makes of each datagram in its transfer loop. */
module ServerDecisions {
  import opened Bytes
  import opened Protocol
  import opened FileLayout
  import opened Handshake
  import opened Datagrams
  import opened Receiver
  import opened ServerModel
  import opened AckCadence
  import opened TransferSystem
  import opened Progress

  ghost predicate DecodesTo(data: seq<uint8>, kind: PacketType) {
    DecodePacket(data).Decoded? && DecodePacket(data).packet.header.kind == kind
  }

  /** A START that comes while the transfer is on is answered, whatever it holds: with the START_ACK of
      this transfer if it is of its session, and otherwise with BUSY under its own. */
  lemma StartAnswered(s: Server, data: seq<uint8>, now: int, time: uint64)
    requires Configured(s) && s.completed.None? && DecodesTo(data, Start)
    ensures var session := DecodePacket(data).packet.header.session;
            Receive(s, data, now, time)
            == (s, Some(if session == s.session then StartAckDatagram(s.session, s.reply)
                        else StartAckDatagram(session, StartAckPayload(1, 0, 0, 0))))
  {
    hide DecodePacket, StartAckDatagram, Configured;
  }

  /** In every reachable state in which the transfer is not confirmed, a repeated START draws a reply
      on which the client starts with the proposed window. */
  lemma StartRepeated(t: Transfer, sys: System, now: int, time: uint64)
    requires Reachable(t, sys) && sys.server.completed.None?
    ensures Configured(sys.server)
    ensures var (u, d) := Receive(sys.server, StartDatagram(t.session, t.start), now, time);
            && u == sys.server && d.Some?
            && HandleStartAck(t.session, d.value) == Started(t.start.windowChunks, 8192)
  {
    ReachableSafe(t, sys);
    hide Safe, Reachable, DecodePacket, StartDatagram, StartAckDatagram, Configured, Receive, HandleStartAck, ServerSafe;
    SafeParts(t, sys);
    SafeFields(t, sys.server);
    StartDecodes(t.session, t.start);
    StartAnswered(sys.server, StartDatagram(t.session, t.start), now, time);
    ReplyStarts(t.session, t.start);
  }

  lemma ReplyStarts(session: uint32, start: StartPayload)
    requires 0 < start.windowChunks <= 8192
    ensures HandleStartAck(session, StartAckDatagram(session, OkReply(start))) == Started(start.windowChunks, 8192)
  {
    StartAckDecodes(session, OkReply(start));
    hide StartAckDatagram, DecodePacket, DecodeStartAck;
  }

  /** The number of the last byte of chunk `n` is bounded by the file: what a DATA packet must hold. */
  predicate RightSize(s: Server, n: nat, size: nat) {
    n < s.start.totalChunks && size == Min(s.start.chunkSize, s.start.fileSize - n * s.start.chunkSize)
  }

  lemma DataReceived(s: Server, n: uint32, retransmitted: bool, payload: seq<uint8>, now: int, time: uint64)
    requires Configured(s) && s.completed.None? && |payload| < 0x1_0000
    ensures Receive(s, DataDatagram(s.session, n, retransmitted, payload), now, time)
            == ReceiveData(s, n, retransmitted, payload, now)
    ensures WellFormedData(s, n, payload) <==> RightSize(s, n, |payload|)
  {
    DataCarries(s.session, n, retransmitted, payload);
    FlagBits();
    hide DataDatagram, DecodePacket, ReceiveData, Configured, Bit;
  }

  /** What storing does to each byte. */
  lemma StoredBytes(s: Server, n: nat, payload: seq<uint8>)
    requires n < |s.received| && Offset(s.start.chunkSize, n) + |payload| <= |s.output|
    ensures var u := Store(s, n, payload); var o := n * s.start.chunkSize;
            && u.received == s.received[n := true] && |u.output| == |s.output|
            && forall p: nat | p < |s.output| ::
                 u.output[p] == if !s.received[n] && o <= p < o + |payload| then payload[p - o] else s.output[p]
  {
    assert s.received[n] ==> s.received[n := true] == s.received;
  }

  /** A DATA packet of the session.  A number out of range or a wrong size changes nothing.  Otherwise
      its chunk is received, and its bytes are stored if it was not before. */
  lemma DataStored(s: Server, n: uint32, retransmitted: bool, payload: seq<uint8>, now: int, time: uint64)
    requires Configured(s) && s.completed.None? && |payload| < 0x1_0000
    ensures var (u, d) := Receive(s, DataDatagram(s.session, n, retransmitted, payload), now, time);
            if !RightSize(s, n, |payload|) then u == s && d == None
            else
              var o := n * s.start.chunkSize;
              && n < |s.received| && u.received == s.received[n := true] && |u.output| == |s.output|
              && forall p: nat | p < |s.output| ::
                   u.output[p] == if !s.received[n] && o <= p < o + |payload| then payload[p - o] else s.output[p]
  {
    hide Receive, DataDatagram, Layout, WellFormedData, RightSize, Store, AckDue, Offset, Snapshot, AckDatagram;
    DataReceived(s, n, retransmitted, payload, now, time);
    if RightSize(s, n, |payload|) {
      DataFits(s, n, payload);
      StoredBytes(s, n, payload);
    }
  }

  /** And its ACK.  It goes out, with the snapshot of what is received by then, exactly for a duplicate,
      a retransmission, the last missing chunk, the 32nd packet that waits, or one that comes an
      interval or more after the first that waits; it starts the count afresh. */
  lemma DataAcked(s: Server, n: uint32, retransmitted: bool, payload: seq<uint8>, now: int, time: uint64)
    requires Configured(s) && s.completed.None? && RightSize(s, n, |payload|) && |payload| < 0x1_0000
    ensures n < |s.received|
    ensures var (u, d) := Receive(s, DataDatagram(s.session, n, retransmitted, payload), now, time);
            var received := s.received[n := true];
            var acked := || s.received[n] || retransmitted || AllReceived(received)
                         || s.packetsSinceAck >= 31 || (s.ackPending && now >= s.nextAckTime);
            && d == (if acked then Some(AckDatagram(s.session, s.ackNumber, Snapshot(received, s.reply.bitmapBits))) else None)
            && u.packetsSinceAck == (if acked then 0 else s.packetsSinceAck + 1)
            && u.ackPending == !acked
            && u.nextAckTime == (if s.ackPending then s.nextAckTime else now + Max(1, s.reply.ackIntervalMs) * 1_000_000)
            && u.ackNumber == (if acked then (s.ackNumber + 1) % 0x1_0000_0000 else s.ackNumber)
            && u.completed == None && u.session == s.session && u.start == s.start && u.reply == s.reply
  {
    hide Receive, DataDatagram, Layout, WellFormedData, RightSize, Offset, Snapshot, AckDatagram, AllReceived;
    DataReceived(s, n, retransmitted, payload, now, time);
    DataFits(s, n, payload);
    AckedIff(s, n, retransmitted, payload, now);
    assert s.received[n] ==> s.received[n := true] == s.received;
  }

  /** COMPLETE with the right total.  With everything received the transfer is confirmed, with OK, the
      number of chunks, the size of the file and the time; otherwise an ACK tells what is there, and
      the count of waiting packets goes on. */
  lemma CompleteExactly(s: Server, now: int, time: uint64)
    requires Configured(s) && s.completed.None?
    ensures Receive(s, CompleteDatagram(s.session, s.start.totalChunks), now, time)
            == if AllReceived(s.received) then
                 var p := CompleteAckPayload(0, s.start.totalChunks, s.start.fileSize, time);
                 (s.(completed := Some(p)), Some(CompleteAckDatagram(s.session, s.start.totalChunks, p)))
               else
                 (s.(ackNumber := (s.ackNumber + 1) % 0x1_0000_0000),
                  Some(AckDatagram(s.session, s.ackNumber, Snapshot(s.received, s.reply.bitmapBits))))
  {
    CompleteCarries(s.session, s.start.totalChunks);
    CompleteIff(s.received);
    hide CompleteDatagram, CompleteAckDatagram, DecodePacket, AckDatagram, Snapshot, Layout;
  }

  /** Once confirmed, COMPLETE gets the same answer for ever, and nothing else gets any. */
  lemma ConfirmedExactly(s: Server, data: seq<uint8>, now: int, time: uint64)
    requires Configured(s) && s.completed.Some?
    ensures Receive(s, data, now, time)
            == (s, if IsCompleteOf(s, data) then Some(CompleteAckDatagram(s.session, s.start.totalChunks, s.completed.value))
                   else None)
  {
    hide DecodePacket, CompleteAckDatagram, Configured;
  }

  predicate IsCompleteOf(s: Server, data: seq<uint8>) {
    && DecodePacket(data).Decoded?
    && var p := DecodePacket(data).packet;
       && p.header.session == s.session && p.header.kind.Complete?
       && p.header.number == s.start.totalChunks && p.payload == []
  }

  /** Everything else is dropped: what does not decode, other sessions, other types, and a COMPLETE
      with another total or a payload. */
  lemma OthersDropped(s: Server, data: seq<uint8>, now: int, time: uint64)
    requires Configured(s) && s.completed.None?
    requires !DecodesTo(data, Start) && !IsCompleteOf(s, data)
    requires !(DecodesTo(data, Data) && DecodePacket(data).packet.header.session == s.session)
    ensures Receive(s, data, now, time) == (s, None)
  {
    hide DecodePacket, Configured;
  }

  // ----- the numbers of the ACKs

  /** The numbers of the ACKs among the replies, in order. */
  ghost function AckNumbers(s: Server, inputs: seq<Input>): seq<nat>
    requires Configured(s)
    decreases |inputs|
  {
    if inputs == [] then []
    else
      ReceiveConfigured(s, inputs[0]);
      var (u, d) := Receive(s, inputs[0].data, inputs[0].now, inputs[0].transferTimeUs);
      (if d.Some? && DecodesTo(d.value, Ack) then [DecodePacket(d.value).packet.header.number] else [])
      + AckNumbers(u, inputs[1..])
  }

  /** An ACK carries the number and moves it on; any other reply leaves it. */
  ghost predicate Numbered(s: Server, u: Server, d: Option<seq<uint8>>) {
    if d.Some? && DecodesTo(d.value, Ack) then
      DecodePacket(d.value).packet.header.number == s.ackNumber && u.ackNumber == (s.ackNumber + 1) % 0x1_0000_0000
    else u.ackNumber == s.ackNumber
  }

  lemma SendAckNumbered(s: Server)
    requires |s.received| < 0x1_0000_0000
    ensures var (u, d) := SendAck(s); Numbered(s, u, Some(d)) && DecodesTo(d, Ack)
  {
    AckCarries(s.session, s.ackNumber, Snapshot(s.received, s.reply.bitmapBits));
    hide AckDatagram, Snapshot, DecodePacket;
  }

  lemma DataNumbered(s: Server, n: nat, retransmitted: bool, payload: seq<uint8>, now: int)
    requires Configured(s)
    ensures var (u, d) := ReceiveData(s, n, retransmitted, payload, now); Numbered(s, u, d)
  {
    hide SendAck, DecodesTo, DecodePacket, Layout, AckDue, Splice;
    if WellFormedData(s, n, payload) {
      DataFits(s, n, payload);
      SendAckNumbered(Counted(Store(s, n, payload), now));
    }
  }

  lemma CompleteNumbered(s: Server, time: uint64)
    requires Configured(s)
    ensures var (u, d) := ReceiveComplete(s, time); Numbered(s, u, d)
  {
    SendAckNumbered(s);
    CompleteIff(s.received);
    CompleteAckCarries(s.session, s.start.totalChunks,
                       CompleteAckPayload(0, |Accepted(s.received)|, s.start.fileSize, time));
    hide SendAck, CompleteAckDatagram, DecodePacket, Layout, FirstMissing, Accepted;
  }

  lemma ReplyNumber(s: Server, i: Input)
    requires Configured(s)
    ensures var (u, d) := Receive(s, i.data, i.now, i.transferTimeUs); Numbered(s, u, d)
  {
    hide DecodePacket, ReceiveData, ReceiveComplete, Bit, StartAckDatagram, CompleteAckDatagram, Configured;
    if DecodePacket(i.data).Decoded? {
      var p := DecodePacket(i.data).packet;
      DataNumbered(s, p.header.number, Bit(p.header.flags, FLAG_RETRANSMITTED), p.payload, i.now);
      CompleteNumbered(s, i.transferTimeUs);
      StartAckDecodes(s.session, s.reply);
      StartAckDecodes(p.header.session, StartAckPayload(STATUS_BUSY, 0, 0, 0));
      if s.completed.Some? {
        CompleteAckCarries(s.session, s.start.totalChunks, s.completed.value);
      }
    }
  }

  /** The i-th ACK of a transfer carries the number i, modulo 2^32, whatever caused it. */
  lemma {:induction false} AckNumbersCount(s: Server, inputs: seq<Input>, i: nat)
    requires Configured(s) && i < |AckNumbers(s, inputs)|
    ensures AckNumbers(s, inputs)[i] == (s.ackNumber + i) % 0x1_0000_0000
    decreases |inputs|
  {
    hide Receive, DecodesTo, DecodePacket, Configured;
    ReceiveConfigured(s, inputs[0]);
    ReplyNumber(s, inputs[0]);
    var (u, d) := Receive(s, inputs[0].data, inputs[0].now, inputs[0].transferTimeUs);
    if d.Some? && DecodesTo(d.value, Ack) {
      if i > 0 {
        AckNumbersCount(u, inputs[1..], i - 1);
      }
    } else {
      AckNumbersCount(u, inputs[1..], i);
    }
  }

  /** They start from zero. */
  lemma AckNumbersStart(session: uint32, start: StartPayload, reply: StartAckPayload, output: seq<uint8>, now: int,
                        inputs: seq<Input>, i: nat)
    requires Layout(start.fileSize, start.chunkSize, start.totalChunks) && |output| == start.fileSize
    ensures Configured(NewServer(session, start, reply, output, now))
    ensures var numbers := AckNumbers(NewServer(session, start, reply, output, now), inputs);
            i < |numbers| ==> numbers[i] == i % 0x1_0000_0000
  {
    hide AckNumbers, Layout;
    var s := NewServer(session, start, reply, output, now);
    if i < |AckNumbers(s, inputs)| {
      AckNumbersCount(s, inputs, i);
    }
  }
}

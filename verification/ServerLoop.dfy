/** The server's event loop (src/server.cpp:287-450) on mutable state: the tracker, the output
    buffer and the ACK cadence. */
module ServerLoop {
  import opened Bytes
  import opened Protocol
  import opened FileLayout
  import opened Handshake
  import opened Receiver
  import opened Datagrams
  import opened ServerModel

  class ServerLoop {
    const session: uint32
    const start: StartPayload
    const reply: StartAckPayload
    const tracker: ReceiverTracker
    const output: array<uint8>
    var ackPending: bool
    var packetsSinceAck: uint32
    var nextAckTime: int
    var ackNumber: uint32
    var completed: Option<CompleteAckPayload>

    ghost function Abs(): Server
      reads this, tracker, tracker.received, output
    {
      Server(session, start, reply, tracker.received[..], output[..],
             ackPending, packetsSinceAck, nextAckTime, ackNumber, completed)
    }

    ghost predicate Valid()
      reads this, tracker, tracker.received, output
    {
      Ready() && packetsSinceAck < ACK_PACKET_THRESHOLD
    }

    ghost predicate Ready()
      reads this, tracker, tracker.received, output
    {
      tracker.Valid() && Configured(Abs())
    }

    constructor (session: uint32, start: StartPayload, reply: StartAckPayload, output: array<uint8>, now: int)
      requires ChunkCount(start.fileSize, start.chunkSize) == Some(start.totalChunks)
      requires output.Length == start.fileSize
      ensures Valid() && this.output == output && fresh(tracker) && fresh(tracker.received)
      ensures Abs() == NewServer(session, start, reply, output[..], now)
    {
      this.session, this.start, this.reply, this.output := session, start, reply, output;
      tracker := new ReceiverTracker(start.totalChunks);
      ackPending, packetsSinceAck, ackNumber, completed := false, 0, 0, None;
      nextAckTime := now + AckInterval(reply);
      new;
      ChunkCountLayout(start.fileSize, start.chunkSize);
    }

    method SendAckSnapshot() returns (d: seq<uint8>)
      requires Ready()
      modifies this`ackNumber
      ensures Ready()
      ensures Abs() == SendAck(old(Abs())).0 && d == SendAck(old(Abs())).1
    {
      var ack := tracker.MakeAckSnapshot(reply.bitmapBits);
      d := AckDatagram(session, ackNumber, ack);
      ackNumber := (ackNumber + 1) % 0x1_0000_0000;
    }

    /** memcpy and mark_received for a chunk that is new. */
    method StoreChunk(n: uint32, payload: seq<uint8>)
      requires Valid() && n < start.totalChunks
      requires Offset(start.chunkSize, n) + |payload| <= output.Length
      modifies tracker, tracker.received, output
      ensures Valid()
      ensures Abs() == Store(old(Abs()), n, payload)
    {
      if !tracker.HasReceived(n) {
        var offset := Offset(start.chunkSize, n);
        ghost var before := output[..];
        forall k | 0 <= k < |payload| {
          output[offset + k] := payload[k];
        }
        assert output[..] == Splice(before, offset, payload);
        var accepted := tracker.Mark(n);
      }
    }

    method CountPacket(now: int)
      requires Valid()
      modifies this`packetsSinceAck, this`ackPending, this`nextAckTime
      ensures Ready() && packetsSinceAck <= ACK_PACKET_THRESHOLD
      ensures Abs() == Counted(old(Abs()), now)
    {
      packetsSinceAck := packetsSinceAck + 1;
      if !ackPending {
        ackPending := true;
        nextAckTime := now + AckInterval(reply);
      }
    }

    method AckIfDue(atOnce: bool, now: int) returns (r: Option<seq<uint8>>)
      requires Ready() && packetsSinceAck <= ACK_PACKET_THRESHOLD
      modifies this`ackNumber, this`packetsSinceAck, this`ackPending
      ensures Valid()
      ensures Abs() == AckOrWait(old(Abs()), atOnce, now).0 && r == AckOrWait(old(Abs()), atOnce, now).1
    {
      var complete := tracker.Complete();
      assert complete == AllReceived(tracker.received[..]);
      var shouldSendAck := atOnce || complete || packetsSinceAck >= ACK_PACKET_THRESHOLD || now >= nextAckTime;
      r := None;
      if shouldSendAck {
        var d := SendAckSnapshot();
        r := Some(d);
        ackPending := false;
        packetsSinceAck := 0;
      }
    }

    method OnData(n: uint32, retransmitted: bool, payload: seq<uint8>, now: int) returns (r: Option<seq<uint8>>)
      requires Valid()
      modifies this, tracker, tracker.received, output
      ensures Valid()
      ensures Abs() == ReceiveData(old(Abs()), n, retransmitted, payload, now).0
      ensures r == ReceiveData(old(Abs()), n, retransmitted, payload, now).1
    {
      ghost var s0 := Abs();
      if n >= start.totalChunks || |payload| != Length(start.fileSize, start.chunkSize, n) {
        return None;
      }
      DataFits(s0, n, payload);
      hide Store, Counted, AckOrWait;
      var duplicate := tracker.HasReceived(n);
      StoreChunk(n, payload);
      CountPacket(now);
      r := AckIfDue(duplicate || retransmitted, now);
    }

    method OnComplete(transferTimeUs: uint64) returns (r: Option<seq<uint8>>)
      requires Valid()
      modifies this
      ensures Valid()
      ensures Abs() == ReceiveComplete(old(Abs()), transferTimeUs).0
      ensures r == ReceiveComplete(old(Abs()), transferTimeUs).1
    {
      var complete := tracker.Complete();
      assert complete == AllReceived(tracker.received[..]);
      if !complete || tracker.cumulativeAck != start.totalChunks {
        var d := SendAckSnapshot();
        return Some(d);
      }
      var p := CompleteAckPayload(STATUS_OK, tracker.receivedCount, start.fileSize, transferTimeUs);
      completed := Some(p);
      return Some(CompleteAckDatagram(session, start.totalChunks, p));
    }

    /** One iteration of the loop, and of time_wait once the transfer is confirmed. */
    method OnDatagram(data: seq<uint8>, now: int, transferTimeUs: uint64) returns (r: Option<seq<uint8>>)
      requires Valid()
      modifies this, tracker, tracker.received, output
      ensures Valid()
      ensures Abs() == Receive(old(Abs()), data, now, transferTimeUs).0
      ensures r == Receive(old(Abs()), data, now, transferTimeUs).1
    {
      var decoded := DecodePacket(data);
      if decoded.Rejected? {
        return None;
      }
      var p := decoded.packet;
      var h := p.header;
      if completed.Some? {
        if h.session == session && h.kind.Complete? && h.number == start.totalChunks && p.payload == [] {
          return Some(CompleteAckDatagram(session, start.totalChunks, completed.value));
        }
        return None;
      }
      if h.kind.Start? {
        if h.session == session {
          return Some(StartAckDatagram(session, reply));
        }
        return Some(StartAckDatagram(h.session, StartAckPayload(STATUS_BUSY, 0, 0, 0)));
      }
      if h.session != session {
        return None;
      }
      if h.kind.Data? {
        r := OnData(h.number, Bit(h.flags, FLAG_RETRANSMITTED), p.payload, now);
        return r;
      }
      if !h.kind.Complete? || h.number != start.totalChunks || p.payload != [] {
        return None;
      }
      r := OnComplete(transferTimeUs);
    }
  }
}

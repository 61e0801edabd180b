/** Which DATA packets are left without an ACK, over any sequence of datagrams at any times
    (src/server.cpp:358-391).  The server has no timer: the interval is looked at only when a packet
    arrives, so the packets that wait are bounded in number and in the spread of their arrivals, and
    not in how long they wait. */
module AckCadence {
  import opened Bytes
  import opened Protocol
  import opened FileLayout
  import opened Datagrams
  import opened Receiver
  import opened ServerModel

  datatype Input = Input(data: seq<uint8>, now: int, transferTimeUs: uint64)

  /** A DATA packet that the server takes into account. */
  predicate IsData(s: Server, data: seq<uint8>) {
    && s.completed.None?
    && DecodePacket(data).Decoded?
    && var p := DecodePacket(data).packet;
       p.header.kind.Data? && p.header.session == s.session && WellFormedData(s, p.header.number, p.payload)
  }

  /** The arrival times of the DATA packets since the last ACK that one of them caused. */
  ghost function Waiting(s: Server, waiting: seq<int>, i: Input): seq<int>
    requires Configured(s)
  {
    if !IsData(s, i.data) then waiting
    else if Receive(s, i.data, i.now, i.transferTimeUs).1.Some? then []
    else waiting + [i.now]
  }

  /** Fewer than 32 packets wait, all within one interval of the first, and none of them
      completed the file. */
  ghost predicate Cadence(s: Server, waiting: seq<int>) {
    && |waiting| == s.packetsSinceAck < ACK_PACKET_THRESHOLD
    && (s.ackPending <==> waiting != [])
    && (waiting != [] ==> s.nextAckTime == waiting[0] + AckInterval(s.reply) && !AllReceived(s.received))
    && (forall k | 0 <= k < |waiting| :: waiting[k] < waiting[0] + AckInterval(s.reply))
  }

  lemma ReceiveConfigured(s: Server, i: Input)
    requires Configured(s)
    ensures var u := Receive(s, i.data, i.now, i.transferTimeUs).0;
            Configured(u) && u.start == s.start && u.reply == s.reply && u.session == s.session
  {
    hide DecodePacket, Bit, Layout, FirstMissing;
  }

  /** What one datagram does to the fields that decide the cadence. */
  lemma CadenceKept(s: Server, waiting: seq<int>, i: Input)
    requires Configured(s) && Cadence(s, waiting)
    ensures Cadence(Receive(s, i.data, i.now, i.transferTimeUs).0, Waiting(s, waiting, i))
  {
    hide DecodePacket, Bit, Layout, FirstMissing;
  }

  ghost function Serve(s: Server, waiting: seq<int>, inputs: seq<Input>): (r: (Server, seq<int>))
    requires Configured(s)
    ensures Configured(r.0) && r.0.start == s.start && r.0.reply == s.reply
    decreases |inputs|
  {
    if inputs == [] then (s, waiting)
    else
      ReceiveConfigured(s, inputs[0]);
      Serve(Receive(s, inputs[0].data, inputs[0].now, inputs[0].transferTimeUs).0,
            Waiting(s, waiting, inputs[0]), inputs[1..])
  }

  lemma {:induction false} ServeKeeps(s: Server, waiting: seq<int>, inputs: seq<Input>)
    requires Configured(s) && Cadence(s, waiting)
    ensures var (u, w) := Serve(s, waiting, inputs); Cadence(u, w)
    decreases |inputs|
  {
    hide Receive, Waiting, Cadence, Configured;
    if inputs != [] {
      ReceiveConfigured(s, inputs[0]);
      CadenceKept(s, waiting, inputs[0]);
      ServeKeeps(Receive(s, inputs[0].data, inputs[0].now, inputs[0].transferTimeUs).0,
                 Waiting(s, waiting, inputs[0]), inputs[1..]);
    }
  }

  /** After any datagrams at any times, at most 31 DATA packets have arrived since the last ACK that
      a DATA packet caused, each of them less than one interval after the first, and if there is
      one the file is not complete. */
  lemma WaitingBounded(session: uint32, start: StartPayload, reply: StartAckPayload, output: seq<uint8>, now: int,
                       inputs: seq<Input>)
    requires Layout(start.fileSize, start.chunkSize, start.totalChunks) && |output| == start.fileSize
    ensures Configured(NewServer(session, start, reply, output, now))
    ensures var (u, waiting) := Serve(NewServer(session, start, reply, output, now), [], inputs);
            && |waiting| <= 31
            && (forall k | 0 <= k < |waiting| :: waiting[k] < waiting[0] + Max(1, reply.ackIntervalMs) * 1_000_000)
            && (waiting != [] ==> !AllReceived(u.received))
  {
    ServeKeeps(NewServer(session, start, reply, output, now), [], inputs);
  }

  /** A DATA packet is ACKed exactly when it is a duplicate, a retransmission, the last one missing,
      the 32nd that waits, or comes an interval after one that is still waiting. */
  lemma AckedIff(s: Server, n: nat, retransmitted: bool, payload: seq<uint8>, now: int)
    requires Configured(s) && WellFormedData(s, n, payload)
    ensures n < |s.received|
    ensures ReceiveData(s, n, retransmitted, payload, now).1.Some?
            <==> || s.received[n] || retransmitted || AllReceived(s.received[n := true])
                 || s.packetsSinceAck >= 31 || (s.ackPending && now >= s.nextAckTime)
  {
    DataFits(s, n, payload);
    hide Layout, WellFormedData;
    assert s.received[n] ==> s.received[n := true] == s.received;
  }

  /** So a single packet of a longer file waits until some other datagram comes, however late. */
  lemma LonePacketWaits(session: uint32, start: StartPayload, reply: StartAckPayload, output: seq<uint8>, began: int,
                        n: uint32, payload: seq<uint8>, now: int)
    requires Layout(start.fileSize, start.chunkSize, start.totalChunks) && |output| == start.fileSize
    requires n < start.totalChunks && 1 < start.totalChunks && |payload| == Length(start.fileSize, start.chunkSize, n) < 0x1_0000
    ensures Configured(NewServer(session, start, reply, output, began))
    ensures var s := NewServer(session, start, reply, output, began);
            Serve(s, [], [Input(DataDatagram(session, n, false, payload), now, 0)]).1 == [now]
  {
    var s := NewServer(session, start, reply, output, began);
    var i := Input(DataDatagram(session, n, false, payload), now, 0);
    DataCarries(session, n, false, payload);
    FlagBits();
    AckedIff(s, n, false, payload, now);
    var other: nat := if n == 0 then 1 else 0;
    assert !s.received[n := true][other];
    hide DataDatagram, DecodePacket, ReceiveData, Layout, Bit;
    assert Waiting(s, [], i) == [now];
    assert [i][1..] == [];
  }

  /** At any point of any history, in terms of the arrivals that wait: the packet is ACKed exactly when
      it is a duplicate, a retransmission, the last one missing, comes after 31 others, or comes an
      interval or more after the first of them. */
  lemma AckedInRuns(session: uint32, start: StartPayload, reply: StartAckPayload, output: seq<uint8>, began: int,
                    inputs: seq<Input>, n: uint32, retransmitted: bool, payload: seq<uint8>, now: int)
    requires Layout(start.fileSize, start.chunkSize, start.totalChunks) && |output| == start.fileSize
    requires n < start.totalChunks && |payload| == Length(start.fileSize, start.chunkSize, n)
    ensures Configured(NewServer(session, start, reply, output, began))
    ensures var (s, waiting) := Serve(NewServer(session, start, reply, output, began), [], inputs);
            && n < |s.received|
            && (ReceiveData(s, n, retransmitted, payload, now).1.Some?
                <==> || s.received[n] || retransmitted || AllReceived(s.received[n := true])
                     || |waiting| == 31
                     || (waiting != [] && now >= waiting[0] + Max(1, reply.ackIntervalMs) * 1_000_000))
  {
    hide Serve, Layout, Length, ReceiveData, AllReceived;
    ServeKeeps(NewServer(session, start, reply, output, began), [], inputs);
    var (s, waiting) := Serve(NewServer(session, start, reply, output, began), [], inputs);
    AckedIff(s, n, retransmitted, payload, now);
  }
}

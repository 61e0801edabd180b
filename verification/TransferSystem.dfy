/** Client, server and a network that may lose, delay, reorder and duplicate: the datagrams ever
    sent stay in two sets, and any of them may be delivered at any time, any number of times, or
    never.  Safety holds in every reachable state. */
module TransferSystem {
  import opened Bytes
  import opened Protocol
  import opened FileLayout
  import opened Handshake
  import opened Datagrams
  import opened SenderModel
  import opened SenderInvariant
  import opened SenderRuns
  import opened Receiver
  import opened ServerModel
  import Sending = ClientModel

  datatype Transfer = Transfer(session: uint32, file: seq<uint8>, start: StartPayload)

  /** What START and START_ACK leave behind (Beginnings.TransferBegins). */
  ghost predicate Fits(t: Transfer) {
    && t.session != 0
    && |t.file| == t.start.fileSize
    && Layout(|t.file|, t.start.chunkSize, t.start.totalChunks)
    && t.start.chunkSize < 0x1_0000
    && 0 < t.start.windowChunks <= DEFAULT_ACK_BITMAP_BITS
  }

  datatype System = System(
    client: Sending.Client, server: Server, toServer: set<seq<uint8>>, toClient: set<seq<uint8>>)

  /** Both loops at their start, with nothing but the handshake's datagrams in the network, at any
      clocks and with whatever bytes the output file had. */
  ghost predicate Begins(t: Transfer, sys: System) {
    && sys.client == Sending.Client(
         t.session, t.file, t.start.chunkSize,
         NewHistory(t.start.totalChunks, t.start.windowChunks, DEFAULT_ACK_BITMAP_BITS, sys.client.history.clock),
         Sending.Phase.Sending)
    && |sys.server.output| == |t.file|
    && (exists now: int :: sys.server == NewServer(t.session, t.start, OkReply(t.start), sys.server.output, now))
    && (forall d | d in sys.toServer :: d == StartDatagram(t.session, t.start))
    && (forall d | d in sys.toClient :: d == StartAckDatagram(t.session, OkReply(t.start)))
  }

  datatype Action =
    | ClientSends(at: int)
    | ClientTimesOut(at: int)
    | ClientGets(data: seq<uint8>, at: int)
    | ClientStaysInLoop
    | ClientLeavesLoop
    | ClientSendsComplete
    | ServerGets(data: seq<uint8>, now: int, transferTimeUs: uint64)

  /** The client's clock is monotone; only datagrams that have been sent are delivered. */
  ghost predicate Enabled(sys: System, a: Action) {
    match a
    case ClientSends(at) => sys.client.phase.Sending? && sys.client.history.clock <= at
    case ClientTimesOut(at) => sys.client.phase.Sending? && sys.client.history.clock <= at
    case ClientGets(data, at) => data in sys.toClient && sys.client.history.clock <= at
    case ClientStaysInLoop => sys.client.phase.Sending? && sys.client.history.w.base != sys.client.history.w.total
    case ClientLeavesLoop => sys.client.phase.Sending? && sys.client.history.w.base == sys.client.history.w.total
    case ClientSendsComplete => sys.client.phase.Completing?
    case ServerGets(data, _, _) => data in sys.toServer
  }

  function Post(net: set<seq<uint8>>, d: Option<seq<uint8>>): set<seq<uint8>> {
    if d.Some? then net + {d.value} else net
  }

  ghost function Next(sys: System, a: Action): System
    requires Sending.Ready(sys.client) && Configured(sys.server)
  {
    match a
    case ClientSends(at) =>
      var (c, d) := Sending.SendNext(sys.client, at);
      sys.(client := c, toServer := Post(sys.toServer, d))
    case ClientTimesOut(at) => sys.(client := Sending.TimeoutPass(sys.client, at))
    case ClientGets(data, at) => sys.(client := Sending.Receive(sys.client, data, at))
    case ClientStaysInLoop => sys
    case ClientLeavesLoop => sys.(client := sys.client.(phase := Sending.Completing))
    case ClientSendsComplete =>
      sys.(toServer := sys.toServer + {CompleteDatagram(sys.client.session, sys.client.history.w.total)})
    case ServerGets(data, now, transferTimeUs) =>
      var (s, d) := Receive(sys.server, data, now, transferTimeUs);
      sys.(server := s, toClient := Post(sys.toClient, d))
  }

  // ----- the invariant

  ghost predicate ClientSafe(t: Transfer, c: Sending.Client) {
    && c.session == t.session && c.file == t.file && c.chunkSize == t.start.chunkSize
    && HistoryInv(c.history)
    && c.history.w.total == t.start.totalChunks
    && c.history.w.coverage == DEFAULT_ACK_BITMAP_BITS
    && !c.phase.Failed?
    && (!c.phase.Sending? ==> c.history.w.base == c.history.w.total)
  }

  ghost predicate GoodReport(t: Transfer, p: CompleteAckPayload) {
    p.status == STATUS_OK && p.receivedChunks == t.start.totalChunks && p.receivedBytes == |t.file|
  }

  /** Every received chunk is in the output as it is in the file. */
  ghost predicate Faithful(t: Transfer, s: Server)
    requires Fits(t)
  {
    && |s.output| == |t.file| && |s.received| == t.start.totalChunks
    && forall n: nat | n < t.start.totalChunks && s.received[n] ::
         Holds(s.output, t.file, t.start.chunkSize, t.start.totalChunks, n)
  }

  ghost predicate ServerSafe(t: Transfer, s: Server)
    requires Fits(t)
  {
    && s.session == t.session && s.start == t.start && s.reply == OkReply(t.start)
    && Configured(s)
    && Faithful(t, s)
    && (s.completed.Some? ==> AllReceived(s.received) && GoodReport(t, s.completed.value))
  }

  /** ACKED is received, and received is selected. */
  ghost predicate Between(w: Window, r: seq<bool>) {
    && |r| == w.total == |w.chunks|
    && (forall i | 0 <= i < w.total && w.chunks[i].state.Acked? :: r[i])
    && (forall i | 0 <= i < w.total && r[i] :: i < w.next)
  }

  /** What the client can have sent when `next` chunks are selected. */
  ghost predicate FromClient(t: Transfer, next: nat, sending: bool, d: seq<uint8>)
    requires Fits(t)
  {
    || d == StartDatagram(t.session, t.start)
    || (exists s: nat, r: bool :: IsChunk(t, next, s, r, d))
    || (!sending && d == CompleteDatagram(t.session, t.start.totalChunks))
  }

  ghost predicate IsChunk(t: Transfer, next: nat, s: nat, retransmission: bool, d: seq<uint8>)
    requires Fits(t)
  {
    && s < next && s < t.start.totalChunks
    && d == Sending.ChunkDatagram(t.session, t.file, t.start.chunkSize, t.start.totalChunks, s, retransmission)
  }

  /** An ACK that claims received chunks only. */
  ghost predicate IsHonestAck(t: Transfer, r: seq<bool>, number: uint32, ack: AckPayload, d: seq<uint8>) {
    && WellSized(ack) && ack.bitmapBits == DEFAULT_ACK_BITMAP_BITS
    && (forall i: nat | Claims(ack, i) :: i < |r| && r[i])
    && d == AckDatagram(t.session, number, ack)
  }

  ghost predicate IsReport(t: Transfer, p: CompleteAckPayload, d: seq<uint8>) {
    GoodReport(t, p) && d == CompleteAckDatagram(t.session, t.start.totalChunks, p)
  }

  /** What the server can have sent when the chunks in `r` have been received. */
  ghost predicate FromServer(t: Transfer, r: seq<bool>, d: seq<uint8>) {
    || d == StartAckDatagram(t.session, OkReply(t.start))
    || (exists number: uint32, ack: AckPayload :: IsHonestAck(t, r, number, ack, d))
    || (AllReceived(r) && exists p: CompleteAckPayload :: IsReport(t, p, d))
  }

  ghost predicate Safe(t: Transfer, sys: System) {
    && Fits(t)
    && ClientSafe(t, sys.client)
    && ServerSafe(t, sys.server)
    && Between(sys.client.history.w, sys.server.received)
    && (sys.server.completed.Some? ==> !sys.client.phase.Sending?)
    && (forall d | d in sys.toServer :: FromClient(t, sys.client.history.w.next, sys.client.phase.Sending?, d))
    && (forall d | d in sys.toClient :: FromServer(t, sys.server.received, d))
  }

  lemma SafeReady(t: Transfer, sys: System)
    requires Safe(t, sys)
    ensures Sending.Ready(sys.client) && Configured(sys.server)
  {
  }

  lemma BeginsSafe(t: Transfer, sys: System)
    requires Fits(t) && Begins(t, sys)
    ensures Safe(t, sys)
  {
    NewHistoryInv(t.start.totalChunks, t.start.windowChunks, DEFAULT_ACK_BITMAP_BITS, sys.client.history.clock);
    hide StartDatagram, StartAckDatagram;
  }

  // ----- the client's steps

  lemma MoreFromClient(t: Transfer, next: nat, next': nat, sending: bool, sending': bool, d: seq<uint8>)
    requires Fits(t) && FromClient(t, next, sending, d)
    requires next <= next' && (!sending ==> !sending')
    ensures FromClient(t, next', sending', d)
  {
    if s: nat, r: bool :| IsChunk(t, next, s, r, d) {
      assert IsChunk(t, next', s, r, d);
    }
  }

  /** A transmission ACKs nothing and selects at most one chunk more. */
  lemma TransmitKeepsStates(w: Window, at: int)
    requires Inv(w)
    ensures var u := Transmit(w, at).0;
            && u.total == w.total == |u.chunks| && u.coverage == w.coverage && u.base == w.base && w.next <= u.next
            && forall i | 0 <= i < w.total :: u.chunks[i].state.Acked? == w.chunks[i].state.Acked?
  {
    TransmitDecision(w);
  }

  lemma SendsFromClient(t: Transfer, c: Sending.Client, at: int)
    requires Fits(t) && ClientSafe(t, c) && c.history.clock <= at
    ensures var (c', d) := Sending.SendNext(c, at);
            d.Some? ==> FromClient(t, c'.history.w.next, true, d.value)
  {
    var w := c.history.w;
    TransmitDecision(w);
    var (c', d) := Sending.SendNext(c, at);
    if d.Some? {
      var x := Select(w).1.value;
      assert x.sequence < c'.history.w.next;
      assert IsChunk(t, c'.history.w.next, x.sequence, x.retransmission, d.value);
    }
  }

  lemma SendsClientSafe(t: Transfer, c: Sending.Client, r: seq<bool>, at: int)
    requires Fits(t) && ClientSafe(t, c) && c.phase.Sending? && c.history.clock <= at && Between(c.history.w, r)
    ensures var c' := Sending.SendNext(c, at).0;
            && ClientSafe(t, c') && c'.phase.Sending? && Between(c'.history.w, r)
            && c.history.w.next <= c'.history.w.next
  {
    var w := c.history.w;
    StepKeeps(c.history, Transmission(at));
    TransmitKeepsStates(w, at);
    var c' := Sending.SendNext(c, at).0;
    assert c' == c.(history := Step(c.history, Transmission(at)));
    assert c'.history.w == Transmit(w, at).0;
    hide HistoryInv, Step, Transmit, Sending.SendNext;
  }

  lemma SendsSafe(t: Transfer, sys: System, at: int)
    requires Safe(t, sys) && Enabled(sys, ClientSends(at))
    ensures Safe(t, Next(sys, ClientSends(at)))
  {
    var c := sys.client;
    SendsClientSafe(t, c, sys.server.received, at);
    SendsFromClient(t, c, at);
    var (c', d) := Sending.SendNext(c, at);
    assert Next(sys, ClientSends(at)) == sys.(client := c', toServer := Post(sys.toServer, d));
    hide Sending.SendNext, FromClient, FromServer, ClientSafe, ServerSafe, Between, Next, Fits;
    forall m | m in Post(sys.toServer, d) ensures FromClient(t, c'.history.w.next, true, m) {
      if m in sys.toServer {
        MoreFromClient(t, c.history.w.next, c'.history.w.next, true, true, m);
      }
    }
  }

  lemma TimesOutSafe(t: Transfer, sys: System, at: int)
    requires Safe(t, sys) && Enabled(sys, ClientTimesOut(at))
    ensures Safe(t, Next(sys, ClientTimesOut(at)))
  {
    StepKeeps(sys.client.history, TimeoutCheck(at));
  }

  /** What a delivered datagram can be to the client. */
  lemma DecodedFromServer(t: Transfer, r: seq<bool>, d: seq<uint8>)
    requires FromServer(t, r, d)
    ensures DecodePacket(d).Decoded? && DecodePacket(d).packet.header.session == t.session
    ensures var p := DecodePacket(d).packet;
            && (p.header.kind.Ack? ==>
                  && Bit(p.header.flags, FLAG_SACK) && DecodeAck(p.payload).Some?
                  && var ack := DecodeAck(p.payload).value;
                     ack.bitmapBits == DEFAULT_ACK_BITMAP_BITS && forall i: nat | Claims(ack, i) :: i < |r| && r[i])
            && (p.header.kind.CompleteAck? ==>
                  AllReceived(r) && DecodeCompleteAck(p.payload).Some? && GoodReport(t, DecodeCompleteAck(p.payload).value))
  {
    FlagBits();
    if d == StartAckDatagram(t.session, OkReply(t.start)) {
      StartAckDecodes(t.session, OkReply(t.start));
    } else if number: uint32, ack: AckPayload :| IsHonestAck(t, r, number, ack, d) {
      AckCarries(t.session, number, ack);
    } else {
      var p: CompleteAckPayload :| IsReport(t, p, d);
      CompleteAckCarries(t.session, t.start.totalChunks, p);
    }
  }

  lemma AckSafe(t: Transfer, sys: System, ack: AckPayload, at: int)
    requires Safe(t, sys) && sys.client.phase.Sending? && sys.client.history.clock <= at
    requires forall i: nat | Claims(ack, i) :: i < |sys.server.received| && sys.server.received[i]
    ensures Safe(t, sys.(client := sys.client.(history := Step(sys.client.history, AckArrival(ack, at)))))
  {
    var h := sys.client.history;
    StepKeeps(h, AckArrival(ack, at));
    ProcessAckStates(h.w, ack, at);
    var u := ProcessAck(h.w, ack, at);
    assert Between(u, sys.server.received);
    assert u.next == h.w.next;
  }

  lemma ClientGetsSafe(t: Transfer, sys: System, data: seq<uint8>, at: int)
    requires Safe(t, sys) && Enabled(sys, ClientGets(data, at))
    ensures Safe(t, Next(sys, ClientGets(data, at)))
  {
    DecodedFromServer(t, sys.server.received, data);
    var p := DecodePacket(data).packet;
    assert Next(sys, ClientGets(data, at)) == sys.(client := Sending.Receive(sys.client, data, at));
    hide FromServer, FromClient, DecodePacket, DecodeAck, DecodeCompleteAck, Claims, Bit, Next, Step, HistoryInv;
    if sys.client.phase.Sending? && p.header.kind.Ack? {
      AckSafe(t, sys, DecodeAck(p.payload).value, at);
      assert Sending.Receive(sys.client, data, at)
             == sys.client.(history := Step(sys.client.history, AckArrival(DecodeAck(p.payload).value, at)));
    } else if sys.client.phase.Completing? && p.header.kind.CompleteAck? {
      ReportSafe(t, sys, p);
      assert Sending.Receive(sys.client, data, at) == Sending.ApplyCompleteAck(sys.client, p);
    }
  }

  /** The statistics check after COMPLETE_ACK cannot fail. */
  lemma ReportSafe(t: Transfer, sys: System, p: Packet)
    requires Safe(t, sys) && sys.client.phase.Completing?
    requires DecodeCompleteAck(p.payload).Some? && GoodReport(t, DecodeCompleteAck(p.payload).value)
    ensures Sending.ApplyCompleteAck(sys.client, p) == sys.client.(phase := Sending.Finished)
    ensures Safe(t, sys.(client := sys.client.(phase := Sending.Finished)))
  {
    hide FromServer, FromClient, HistoryInv, DecodeCompleteAck;
  }

  lemma LeavesSafe(t: Transfer, sys: System)
    requires Safe(t, sys) && Enabled(sys, ClientLeavesLoop)
    ensures Safe(t, Next(sys, ClientLeavesLoop))
  {
    forall m | m in sys.toServer ensures FromClient(t, sys.client.history.w.next, false, m) {
      MoreFromClient(t, sys.client.history.w.next, sys.client.history.w.next, true, false, m);
    }
  }

  // ----- the server's step

  lemma MoreFromServer(t: Transfer, r: seq<bool>, r': seq<bool>, d: seq<uint8>)
    requires FromServer(t, r, d) && |r| == |r'| && forall i | 0 <= i < |r| && r[i] :: r'[i]
    ensures FromServer(t, r', d)
  {
    if number: uint32, ack: AckPayload :| IsHonestAck(t, r, number, ack, d) {
      assert IsHonestAck(t, r', number, ack, d);
    }
  }

  /** The snapshot that the server sends is honest. */
  lemma SentAckHonest(t: Transfer, s: Server)
    requires Fits(t) && s.session == t.session && s.reply == OkReply(t.start) && |s.received| < 0x1_0000_0000
    ensures FromServer(t, s.received, SendAck(s).1)
  {
    SnapshotLossless(s.received, DEFAULT_ACK_BITMAP_BITS);
    assert IsHonestAck(t, s.received, s.ackNumber, Snapshot(s.received, DEFAULT_ACK_BITMAP_BITS), SendAck(s).1);
  }

  lemma StoreFaithful(t: Transfer, s: Server, n: nat)
    requires Fits(t) && ServerSafe(t, s) && n < t.start.totalChunks
    ensures Offset(t.start.chunkSize, n) + |ChunkBytes(t.file, t.start.chunkSize, t.start.totalChunks, n)| <= |s.output|
    ensures var u := Store(s, n, ChunkBytes(t.file, t.start.chunkSize, t.start.totalChunks, n));
            && Faithful(t, u)
            && u.received == s.received[n := true]
  {
    var c, total := t.start.chunkSize, t.start.totalChunks;
    CopyHolds(s.output, t.file, c, total, n);
    if s.received[n] {
      assert s.received[n := true] == s.received;
    } else {
      var u := Store(s, n, ChunkBytes(t.file, c, total, n));
      forall m: nat | m < total && u.received[m] ensures Holds(u.output, t.file, c, total, m) {
        if m != n {
          CopyKeeps(s.output, t.file, c, total, n, m);
        }
      }
    }
  }

  lemma DataSafe(t: Transfer, s: Server, n: nat, retransmitted: bool, now: int)
    requires Fits(t) && ServerSafe(t, s) && s.completed.None? && n < t.start.totalChunks
    ensures var payload := ChunkBytes(t.file, t.start.chunkSize, t.start.totalChunks, n);
            var (u, d) := ReceiveData(s, n, retransmitted, payload, now);
            && ServerSafe(t, u) && u.completed.None?
            && u.received == s.received[n := true]
            && (d.Some? ==> FromServer(t, u.received, d.value))
            && (retransmitted || s.received[n] ==>
                  d == Some(AckDatagram(t.session, s.ackNumber, Snapshot(u.received, DEFAULT_ACK_BITMAP_BITS))))
  {
    var payload := ChunkBytes(t.file, t.start.chunkSize, t.start.totalChunks, n);
    StoreFaithful(t, s, n);
    var v := Counted(Store(s, n, payload), now);
    SentAckHonest(t, v);
    hide FromServer, Store, Holds, AckDatagram, Snapshot;
  }

  lemma CompleteSafe(t: Transfer, s: Server, transferTimeUs: uint64)
    requires Fits(t) && ServerSafe(t, s) && s.completed.None?
    ensures var (u, d) := ReceiveComplete(s, transferTimeUs);
            && ServerSafe(t, u) && u.received == s.received
            && (d.Some? ==> FromServer(t, u.received, d.value))
  {
    SentAckHonest(t, s);
    CompleteIff(s.received);
    var (u, d) := ReceiveComplete(s, transferTimeUs);
    if u.completed.Some? {
      assert IsReport(t, u.completed.value, d.value);
    }
  }

  /** What any datagram of this session may do to the server. */
  ghost predicate ServerStep(t: Transfer, s: Server, next: nat, sending: bool, u: Server, d: Option<seq<uint8>>)
    requires Fits(t)
  {
    && ServerSafe(t, u)
    && (u.completed.Some? ==> !sending)
    && |u.received| == |s.received|
    && (forall i | 0 <= i < |s.received| && u.received[i] :: s.received[i] || i < next)
    && (forall i | 0 <= i < |s.received| && s.received[i] :: u.received[i])
    && (d.Some? ==> FromServer(t, u.received, d.value))
  }

  lemma StartReceived(t: Transfer, s: Server, next: nat, sending: bool, now: int, time: uint64)
    requires Fits(t) && ServerSafe(t, s) && (s.completed.Some? ==> !sending)
    ensures var (u, d) := Receive(s, StartDatagram(t.session, t.start), now, time); ServerStep(t, s, next, sending, u, d)
  {
    StartDecodes(t.session, t.start);
    assert FromServer(t, s.received, StartAckDatagram(t.session, OkReply(t.start)));
    hide ServerSafe, FromServer, DecodePacket, StartDatagram, StartAckDatagram;
    assert s.session == t.session && s.reply == OkReply(t.start) by { SafeFields(t, s); }
  }

  lemma SafeFields(t: Transfer, s: Server)
    requires Fits(t) && ServerSafe(t, s)
    ensures s.session == t.session && s.start == t.start && s.reply == OkReply(t.start) && Configured(s)
  {
  }

  /** A chunk that is delivered is the right one, stored where it belongs. */
  lemma ChunkReceived(t: Transfer, s: Server, next: nat, sending: bool, n: nat, r: bool, data: seq<uint8>, now: int,
                      time: uint64)
    requires Fits(t) && ServerSafe(t, s) && (s.completed.Some? ==> !sending) && IsChunk(t, next, n, r, data)
    ensures var (u, d) := Receive(s, data, now, time); ServerStep(t, s, next, sending, u, d)
    ensures var (u, d) := Receive(s, data, now, time);
            s.completed.None? ==>
              && u.received == s.received[n := true]
              && u.completed.None?
              && (r || s.received[n] ==>
                    d == Some(AckDatagram(t.session, s.ackNumber, Snapshot(u.received, DEFAULT_ACK_BITMAP_BITS))))
  {
    SafeFields(t, s);
    ReceiveIsData(t, s, next, n, r, data, now, time);
    if s.completed.None? {
      DataSafe(t, s, n, r, now);
    } else {
      ServerStays(t, s, next, sending);
    }
    hide ServerSafe, ServerStep, ReceiveData, Receive, AckDatagram, Snapshot, IsChunk, Fits, Configured, ChunkBytes;
  }

  lemma ServerStays(t: Transfer, s: Server, next: nat, sending: bool)
    requires Fits(t) && ServerSafe(t, s) && (s.completed.Some? ==> !sending)
    ensures ServerStep(t, s, next, sending, s, None)
  {
    hide ServerSafe, FromServer;
  }

  lemma ReceiveIsData(t: Transfer, s: Server, next: nat, n: nat, r: bool, data: seq<uint8>, now: int, time: uint64)
    requires Fits(t) && Configured(s) && s.session == t.session && IsChunk(t, next, n, r, data)
    ensures n < next && n < t.start.totalChunks
    ensures Receive(s, data, now, time)
            == if s.completed.Some? then (s, None)
               else ReceiveData(s, n, r, ChunkBytes(t.file, t.start.chunkSize, t.start.totalChunks, n), now)
  {
    ChunkInBounds(|t.file|, t.start.chunkSize, t.start.totalChunks, n);
    DataCarries(t.session, n, r, ChunkBytes(t.file, t.start.chunkSize, t.start.totalChunks, n));
    FlagBits();
    hide ReceiveData, DataDatagram, DecodePacket, Bit, Configured;
  }

  lemma CompleteReceived(t: Transfer, s: Server, next: nat, now: int, time: uint64)
    requires Fits(t) && ServerSafe(t, s)
    ensures var (u, d) := Receive(s, CompleteDatagram(t.session, t.start.totalChunks), now, time);
            ServerStep(t, s, next, false, u, d)
  {
    SafeFields(t, s);
    ReceiveIsComplete(t, s, now, time);
    if s.completed.None? {
      CompleteSafe(t, s, time);
    } else {
      assert IsReport(t, s.completed.value, CompleteAckDatagram(t.session, t.start.totalChunks, s.completed.value));
    }
    hide ServerSafe, ReceiveComplete, FromServer, Receive, IsReport;
  }

  lemma ReceiveIsComplete(t: Transfer, s: Server, now: int, time: uint64)
    requires Fits(t) && Configured(s) && s.session == t.session && s.start == t.start
    ensures Receive(s, CompleteDatagram(t.session, t.start.totalChunks), now, time)
            == if s.completed.Some? then (s, Some(CompleteAckDatagram(t.session, t.start.totalChunks, s.completed.value)))
               else ReceiveComplete(s, time)
  {
    CompleteCarries(t.session, t.start.totalChunks);
    hide ReceiveComplete, CompleteDatagram, DecodePacket, CompleteAckDatagram, Configured;
  }

  lemma ServerReceives(t: Transfer, s: Server, next: nat, sending: bool, data: seq<uint8>, now: int, time: uint64)
    requires Fits(t) && ServerSafe(t, s) && FromClient(t, next, sending, data)
    requires s.completed.Some? ==> !sending
    ensures var (u, d) := Receive(s, data, now, time); ServerStep(t, s, next, sending, u, d)
  {
    hide Receive, ServerSafe, ServerStep, IsChunk;
    if data == StartDatagram(t.session, t.start) {
      StartReceived(t, s, next, sending, now, time);
    } else if n: nat, r: bool :| IsChunk(t, next, n, r, data) {
      ChunkReceived(t, s, next, sending, n, r, data, now, time);
    } else {
      CompleteReceived(t, s, next, now, time);
    }
  }

  lemma ServerGetsSafe(t: Transfer, sys: System, data: seq<uint8>, now: int, transferTimeUs: uint64)
    requires Safe(t, sys) && Enabled(sys, ServerGets(data, now, transferTimeUs))
    ensures Safe(t, Next(sys, ServerGets(data, now, transferTimeUs)))
  {
    var (u, d) := Receive(sys.server, data, now, transferTimeUs);
    ServerReceives(t, sys.server, sys.client.history.w.next, sys.client.phase.Sending?, data, now, transferTimeUs);
    assert Next(sys, ServerGets(data, now, transferTimeUs)) == sys.(server := u, toClient := Post(sys.toClient, d));
    hide Receive, Safe, ServerStep;
    ServerStepSafe(t, sys, u, d);
  }

  lemma ServerStepSafe(t: Transfer, sys: System, u: Server, d: Option<seq<uint8>>)
    requires Safe(t, sys)
    requires ServerStep(t, sys.server, sys.client.history.w.next, sys.client.phase.Sending?, u, d)
    ensures Safe(t, sys.(server := u, toClient := Post(sys.toClient, d)))
  {
    assert |u.received| == |sys.server.received|;
    hide FromServer, ServerSafe, ClientSafe, FromClient, Fits;
    forall m | m in Post(sys.toClient, d) ensures FromServer(t, u.received, m) {
      if m in sys.toClient {
        MoreFromServer(t, sys.server.received, u.received, m);
      }
    }
  }

  // ----- every run

  lemma NextSafe(t: Transfer, sys: System, a: Action)
    requires Safe(t, sys) && Enabled(sys, a)
    ensures Safe(t, Next(sys, a))
  {
    match a
    case ClientSends(at) => SendsSafe(t, sys, at);
    case ClientTimesOut(at) => TimesOutSafe(t, sys, at);
    case ClientGets(data, at) => ClientGetsSafe(t, sys, data, at);
    case ClientStaysInLoop =>
    case ClientLeavesLoop => LeavesSafe(t, sys);
    case ClientSendsComplete => SendsCompleteSafe(t, sys);
    case ServerGets(data, now, transferTimeUs) => ServerGetsSafe(t, sys, data, now, transferTimeUs);
  }

  lemma SendsCompleteSafe(t: Transfer, sys: System)
    requires Safe(t, sys) && Enabled(sys, ClientSendsComplete)
    ensures Safe(t, Next(sys, ClientSendsComplete))
  {
  }

  /** A sequence of actions, each enabled where it is taken. */
  ghost predicate ValidRun(t: Transfer, sys: System, actions: seq<Action>)
    requires Safe(t, sys)
    decreases |actions|
  {
    actions == [] ||
    (&& Enabled(sys, actions[0])
     && (NextSafe(t, sys, actions[0]); ValidRun(t, Next(sys, actions[0]), actions[1..])))
  }

  /** The state a run ends in, which is safe like every state before it. */
  ghost function Final(t: Transfer, sys: System, actions: seq<Action>): (r: System)
    requires Safe(t, sys) && ValidRun(t, sys, actions)
    ensures Safe(t, r)
    decreases |actions|
  {
    if actions == [] then sys
    else
      NextSafe(t, sys, actions[0]);
      Final(t, Next(sys, actions[0]), actions[1..])
  }

  ghost predicate IsRun(t: Transfer, start: System, actions: seq<Action>, sys: System)
    requires Fits(t)
  {
    && Begins(t, start)
    && (BeginsSafe(t, start); ValidRun(t, start, actions) && Final(t, start, actions) == sys)
  }

  /** `sys` is reached by some run from an accepted handshake on. */
  ghost predicate Reachable(t: Transfer, sys: System) {
    Fits(t) && exists start: System, actions: seq<Action> :: IsRun(t, start, actions, sys)
  }

  lemma ReachableSafe(t: Transfer, sys: System)
    requires Reachable(t, sys)
    ensures Safe(t, sys)
  {
    var start: System, actions: seq<Action> :| IsRun(t, start, actions, sys);
    BeginsSafe(t, start);
    hide Safe;
  }
}

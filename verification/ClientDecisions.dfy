/** Exactly what the client puts into a DATA packet and what it makes of what it is given. */
module ClientDecisions {
  import opened Bytes
  import opened Protocol
  import opened FileLayout
  import opened Handshake
  import opened Datagrams
  import opened SenderModel
  import opened SenderWindow
  import opened SenderInvariant
  import opened SenderRuns
  import opened SenderDecisions
  import opened ServerModel
  import opened TransferSystem
  import opened Progress
  import Sending = ClientModel

  /** A chunk has been selected exactly when it has been sent before. */
  lemma SelectedIsSent(h: History, s: nat)
    requires HistoryInv(h) && s < h.w.total
    ensures s < |h.sent| && (s < h.w.next <==> h.sent[s] != [])
  {
    assert ChunkHistory(h.w.chunks[s], h.sent[s], h.fast[s], h.clock, h.w.coverage);
  }

  /** The packet of a transmission, as its receiver decodes it: DATA of this session with the number
      of the chunk, the bytes of the file from there on, and the retransmission flag, which is set
      exactly when the chunk was sent before. */
  lemma SentExactly(c: Sending.Client, at: int)
    requires Sending.Ready(c) && HistoryInv(c.history) && c.history.clock <= at
    ensures Shape(c.history.w)
    ensures var (u, d) := Sending.SendNext(c, at); var chosen := Select(c.history.w).1;
            && (d.Some? <==> chosen.Some?)
            && (d.Some? ==>
                  var s := chosen.value.sequence; var offset := s * c.chunkSize;
                  && s < |c.history.sent| && offset < |c.file|
                  && Carries(d.value, Data, c.session, s, if c.history.sent[s] != [] then 2 else 0,
                             c.file[offset..offset + Min(c.chunkSize, |c.file| - offset)])
                  && (s < c.history.w.next <==> c.history.sent[s] != [])
                  && u.history.sent == c.history.sent[s := c.history.sent[s] + [at]])
  {
    hide Carries, HistoryInv, Select, Inv, Sending.ChunkDatagram, Sending.Ready, Shape;
    InvOfHistory(c.history);
    ChosenIs(c.history.w);
    if Select(c.history.w).1.Some? {
      SentPacket(c, Select(c.history.w).1.value.sequence, Select(c.history.w).1.value.retransmission);
      SelectedIsSent(c.history, Select(c.history.w).1.value.sequence);
    }
  }

  /** And what the client remembers of it: the chunk is in flight with the time of the send, and one
      more transmission of it is on record, as a fast one if SACK evidence caused it. */
  lemma SentRecorded(c: Sending.Client, at: int)
    requires Sending.Ready(c)
    ensures Shape(c.history.w)
    ensures var (u, d) := Sending.SendNext(c, at); var (v, chosen) := Select(c.history.w); var h := c.history;
            if chosen.None? then u == c.(history := h.(w := v, clock := at))
            else
              var s := chosen.value.sequence;
              && s < |v.chunks| && s < |h.sent| == |h.fast|
              && u == c.(history := History(
                           v.(chunks := v.chunks[s := v.chunks[s].(state := InFlight, lastSent := at)]), at,
                           h.sent[s := h.sent[s] + [at]],
                           h.fast[s := h.fast[s] + (if chosen.value.fast then 1 else 0)]))
  {
    SelectShape(c.history.w);
    hide Select, CountAcked, Layout, Sending.ChunkDatagram;
  }

  lemma ChosenIs(w: Window)
    requires Inv(w)
    ensures Shape(w) && Below(w.queue, |w.chunks|)
    ensures var d := Select(w).1;
            d.Some? ==> d.value.sequence < w.total && (d.value.retransmission <==> d.value.sequence < w.next)
  {
    TransmitDecision(w);
    SelectShape(w);
  }

  lemma InvOfHistory(h: History)
    requires HistoryInv(h)
    ensures Inv(h.w) && Shape(h.w) && Sized(h)
  {
  }

  lemma SentPacket(c: Sending.Client, s: nat, retransmission: bool)
    requires Sending.Ready(c) && s < c.history.w.total
    ensures s * c.chunkSize < |c.file| && s < 0x1_0000_0000
    ensures Carries(Sending.ChunkDatagram(c.session, c.file, c.chunkSize, c.history.w.total, s, retransmission),
                    Data, c.session, s, if retransmission then 2 else 0,
                    c.file[s * c.chunkSize..s * c.chunkSize + Min(c.chunkSize, |c.file| - s * c.chunkSize)])
  {
    ChunkInBounds(|c.file|, c.chunkSize, c.history.w.total, s);
    DataCarries(c.session, s, retransmission, ChunkBytes(c.file, c.chunkSize, c.history.w.total, s));
    hide DataDatagram, Carries;
  }

  // ----- marked packets in the network

  /** A DATA packet with the retransmission flag. */
  predicate IsMarked(d: seq<uint8>) {
    && DecodePacket(d).Decoded?
    && DecodePacket(d).packet.header.kind.Data?
    && Bit(DecodePacket(d).packet.header.flags, 1)
  }

  /** Whatever chunk a marked packet carries was sent at least twice. */
  ghost predicate MarkedTwice(h: History, d: seq<uint8>) {
    IsMarked(d) ==>
      var s := DecodePacket(d).packet.header.number; s < |h.sent| && |h.sent[s]| >= 2
  }

  ghost predicate MarksTrue(sys: System) {
    forall d | d in sys.toServer :: MarkedTwice(sys.client.history, d)
  }

  ghost predicate SentMore(h: History, g: History) {
    |g.sent| == |h.sent| && forall s | 0 <= s < |h.sent| :: |h.sent[s]| <= |g.sent[s]|
  }

  lemma StepSentMore(h: History, e: Event)
    requires Sized(h)
    ensures SentMore(h, Step(h, e))
  {
    if e.Transmission? {
      SelectShape(h.w);
    }
    hide Shape, ProcessAck, CheckTimeouts, Select;
  }

  lemma NewPacketMarked(c: Sending.Client, at: int)
    requires Sending.Ready(c) && HistoryInv(c.history) && c.history.clock <= at
    ensures var (u, d) := Sending.SendNext(c, at); d.Some? ==> MarkedTwice(u.history, d.value)
  {
    SentExactly(c, at);
    FlagBits();
    hide HistoryInv, Sending.Ready, Select, Sending.SendNext, Layout;
  }

  lemma ActionMarks(t: Transfer, sys: System, a: Action)
    requires Safe(t, sys) && Enabled(sys, a)
    ensures Sending.Ready(sys.client) && Configured(sys.server)
    ensures var u := Next(sys, a);
            && SentMore(sys.client.history, u.client.history)
            && forall d | d in u.toServer && d !in sys.toServer :: MarkedTwice(u.client.history, d)
  {
    hide Safe, Fits, ServerSafe, Configured, HistoryInv, Inv, MarkedTwice, ServerModel.Receive;
    hide DecodePacket, DecodeAck, DecodeCompleteAck, CompleteDatagram, Step, Sending.Ready;
    SafeParts(t, sys);
    var c := sys.client;
    match a
    case ClientSends(at) =>
      StepSentMoreOf(c, Transmission(at));
      NewPacketMarked(c, at);
    case ClientTimesOut(at) => StepSentMoreOf(c, TimeoutCheck(at));
    case ClientGets(data, at) =>
      if DecodePacket(data).Decoded? && DecodeAck(DecodePacket(data).packet.payload).Some? {
        StepSentMoreOf(c, AckArrival(DecodeAck(DecodePacket(data).packet.payload).value, at));
      }
    case ClientSendsComplete =>
      ReadyTotal(c);
      CompleteNotMarked(c.session, c.history.w.total, c.history);
    case _ =>
  }

  lemma ReadyTotal(c: Sending.Client)
    requires Sending.Ready(c)
    ensures c.history.w.total < 0x1_0000_0000
  {
  }

  lemma StepSentMoreOf(c: Sending.Client, e: Event)
    requires Sending.Ready(c)
    ensures SentMore(c.history, Step(c.history, e))
  {
    StepSentMore(c.history, e);
  }

  lemma CompleteNotMarked(session: uint32, total: uint32, h: History)
    ensures MarkedTwice(h, CompleteDatagram(session, total))
  {
    CompleteCarries(session, total);
    hide CompleteDatagram, DecodePacket;
  }

  lemma MarksKept(t: Transfer, sys: System, a: Action)
    requires Safe(t, sys) && Enabled(sys, a) && MarksTrue(sys)
    ensures Sending.Ready(sys.client) && Configured(sys.server) && MarksTrue(Next(sys, a))
  {
    hide Safe, Enabled, Next, DecodePacket, Bit;
    ActionMarks(t, sys, a);
  }

  lemma {:induction false} RunMarks(t: Transfer, sys: System, actions: seq<Action>, to: System)
    requires Safe(t, sys) && Via(t, sys, actions, to) && MarksTrue(sys)
    ensures MarksTrue(to)
    decreases |actions|
  {
    hide Safe, Enabled, Next, MarksTrue;
    if actions != [] {
      MarksKept(t, sys, actions[0]);
      NextSafe(t, sys, actions[0]);
      RunMarks(t, Next(sys, actions[0]), actions[1..], to);
    }
  }

  /** In every reachable state a marked DATA packet in the network carries a chunk that was sent at
      least twice. */
  lemma MarkedMeansResent(t: Transfer, sys: System, d: seq<uint8>)
    requires Reachable(t, sys) && d in sys.toServer && IsMarked(d)
    ensures var s := DecodePacket(d).packet.header.number;
            s < |sys.client.history.sent| && |sys.client.history.sent[s]| >= 2
  {
    hide Safe, ValidRun, Final, DecodePacket, Bit, StartDatagram;
    var start: System, actions: seq<Action> :| IsRun(t, start, actions, sys);
    BeginsSafe(t, start);
    StartDecodes(t.session, t.start);
    assert MarksTrue(start);
    RunMarks(t, start, actions, sys);
    assert MarkedTwice(sys.client.history, d);
  }

  // ----- what the client reads

  lemma AckDecodes(session: uint32, flags: uint16, number: uint32, ack: AckPayload)
    requires WellSized(ack) && !Bit(flags, 0)
    ensures Carries(EncodePacket(MakeHeader(Ack, session, number, flags), EncodeAck(ack)), Ack, session, number, flags,
                    EncodeAck(ack))
  {
    DecodeEncodePacket(MakeHeader(Ack, session, number, flags), EncodeAck(ack));
    hide EncodePacket, DecodePacket, EncodeAck, Bit;
  }

  /** An ACK of the session with any flags, number and width: while sending it reaches the window
      exactly when it has the SACK flag and the agreed width, and otherwise changes nothing. */
  lemma AckExactly(c: Sending.Client, flags: uint16, number: uint32, ack: AckPayload, at: int)
    requires Sending.Ready(c) && WellSized(ack) && !Bit(flags, 0)
    ensures Sending.Receive(c, EncodePacket(MakeHeader(Ack, c.session, number, flags), EncodeAck(ack)), at)
            == if c.phase.Sending? && Bit(flags, 2) && ack.bitmapBits == 8192
               then c.(history := c.history.(w := SenderModel.ProcessAck(c.history.w, ack, at), clock := at))
               else c
  {
    var d := EncodePacket(MakeHeader(Ack, c.session, number, flags), EncodeAck(ack));
    AckDecodes(c.session, flags, number, ack);
    AckApplied(c, DecodePacket(d).packet, ack, at);
    hide EncodePacket, DecodePacket, EncodeAck, Bit, Sending.Ready, Sending.ApplyAck, Sending.ApplyCompleteAck, ProcessAck;
    hide WellSized;
  }

  lemma AckApplied(c: Sending.Client, p: Packet, ack: AckPayload, at: int)
    requires Sending.Ready(c) && WellSized(ack) && p.payload == EncodeAck(ack)
    ensures Sending.ApplyAck(c, p, at)
            == if Bit(p.header.flags, 2) && ack.bitmapBits == 8192
               then c.(history := c.history.(w := SenderModel.ProcessAck(c.history.w, ack, at), clock := at))
               else c
  {
    DecodeEncodeAck(ack);
    hide DecodeAck, EncodeAck, Bit, ProcessAck, CheckTimeouts, Transmit, Layout, Shape;
  }

  /** Everything else is dropped: what does not decode, other sessions, and other types than the one
      the phase waits for. */
  lemma OthersIgnored(c: Sending.Client, data: seq<uint8>, at: int)
    requires Sending.Ready(c)
    requires !IsExpectedHere(c, data)
    ensures Sending.Receive(c, data, at) == c
  {
    hide DecodePacket, DecodeAck, Sending.Ready;
  }

  predicate IsExpectedHere(c: Sending.Client, data: seq<uint8>) {
    && DecodePacket(data).Decoded?
    && DecodePacket(data).packet.header.session == c.session
    && (if c.phase.Sending? then DecodePacket(data).packet.header.kind.Ack?
        else c.phase.Completing? && DecodePacket(data).packet.header.kind.CompleteAck?)
  }

  /** A payload of the wrong length: an ACK is dropped, a COMPLETE_ACK ends the client. */
  lemma MalformedPayload(c: Sending.Client, data: seq<uint8>, at: int)
    requires Sending.Ready(c) && IsExpectedHere(c, data)
    ensures var payload := DecodePacket(data).packet.payload;
            && (c.phase.Sending? && |payload| < 16 ==> Sending.Receive(c, data, at) == c)
            && (c.phase.Completing? && |payload| != 24 ==> Sending.Receive(c, data, at) == c.(phase := Sending.Failed))
  {
    hide DecodePacket, Sending.Ready;
  }

  /** The client's timeout is 500 ms. */
  lemma TimeoutIsHalfASecond(c: Sending.Client, at: int)
    requires Sending.Ready(c)
    ensures Sending.TimeoutPass(c, at)
            == c.(history := c.history.(w := CheckTimeouts(c.history.w, at, 500_000_000), clock := at))
  {
    hide CheckTimeouts;
  }

  /** In every reachable state the next retransmission keeps its distance from the last transmission
      of its chunk: 500 ms without SACK evidence, and 250 ms with it after the first. */
  lemma RetransmissionsApart(t: Transfer, sys: System, at: int)
    requires Reachable(t, sys) && sys.client.history.clock <= at
    ensures Shape(sys.client.history.w)
    ensures Apart(sys.client.history, Transmit(sys.client.history.w, at).1, at)
  {
    ReachableSafe(t, sys);
    hide Safe, Reachable, HistoryInv, Transmit, Fits, ServerSafe, Configured, Inv, Sending.Ready;
    SafeParts(t, sys);
    InvOfHistory(sys.client.history);
    RetransmissionTimes(sys.client.history, at);
  }
}

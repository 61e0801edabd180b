/** The transfer never gets stuck: a blocked sender is unblocked by its timeout, the retransmission
    that follows is ACKed at once, and every COMPLETE is confirmed. */
module Progress {
  import opened Bytes
  import opened Protocol
  import opened FileLayout
  import opened Handshake
  import opened Datagrams
  import opened SenderModel
  import opened SenderWindow
  import opened SenderInvariant
  import opened SenderProperties
  import opened SenderRuns
  import opened Receiver
  import opened ServerModel
  import opened TransferSystem
  import opened TransferTheorems
  import Sending = ClientModel

  // ----- the sender

  /** When nothing can be sent, the least unACKed chunk is in flight and not queued. */
  lemma BlockedOnBase(w: Window)
    requires Inv(w) && w.base < w.total && Select(w).1.None?
    ensures w.base < w.next && w.chunks[w.base].state.InFlight? && !w.chunks[w.base].pending
    ensures Select(w).0.queue == []
  {
    FreshInv(w);
    var v := Fresh(w);
    if w.base == w.next {
      CountFull(w.chunks, 0, w.base);
    }
    assert w.chunks[w.base].pending ==> w.base in v.queue;
  }

  /** Once its timeout has passed, that chunk is the next one to be retransmitted. */
  lemma TimeoutUnblocks(w: Window, now: int)
    requires Inv(w) && w.base < w.total && Select(w).1.None?
    requires now - w.chunks[w.base].lastSent >= DEFAULT_RTO
    ensures var u := CheckTimeouts(Select(w).0, now, DEFAULT_RTO);
            Inv(u) && Select(u).1 == Some(Decision(w.base, true, false))
  {
    hide Inv, DropStale, CanSendNew, CheckTimeouts;
    InvShape(w);
    BlockedOnBase(w);
    FreshInv(w);
    BaseExpires(Select(w).0, now);
  }

  /** With nothing queued, an expired base is queued first. */
  lemma BaseExpires(v: Window, now: int)
    requires Inv(v) && v.queue == [] && v.base < v.next && TimedOut(v.chunks[v.base], now, DEFAULT_RTO)
    ensures var u := CheckTimeouts(v, now, DEFAULT_RTO); Inv(u) && Select(u).1 == Some(Decision(v.base, true, false))
  {
    hide Limits, Regions, EvidenceExact, QueueAgrees, CountAcked;
    CheckTimeoutsInv(v, now, DEFAULT_RTO);
    var u := CheckTimeouts(v, now, DEFAULT_RTO);
    assert TimeoutQueue(v.chunks, v.base, v.next, now, DEFAULT_RTO)[0] == v.base;
    assert u.queue[0] == v.base;
    assert u.chunks[v.base] == v.chunks[v.base].(pending := true, fastPending := false);
  }

  ghost predicate Retransmits(w: Window, s: nat)
    requires Below(w.queue, |w.chunks|)
  {
    Select(w).1.Some? && Select(w).1.value.retransmission && Select(w).1.value.sequence == s
  }

  // ----- runs from one state to another

  ghost predicate Via(t: Transfer, from: System, actions: seq<Action>, to: System)
    requires Safe(t, from)
  {
    ValidRun(t, from, actions) && Final(t, from, actions) == to
  }

  lemma ViaNothing(t: Transfer, sys: System)
    requires Safe(t, sys)
    ensures Via(t, sys, [], sys)
  {
    hide Safe;
  }

  lemma ViaStep(t: Transfer, sys: System, a: Action, actions: seq<Action>, to: System)
    requires Safe(t, sys) && Enabled(sys, a)
    requires (NextSafe(t, sys, a); Via(t, Next(sys, a), actions, to))
    ensures Via(t, sys, [a] + actions, to)
  {
    hide Safe, Enabled, Next;
    NextSafe(t, sys, a);
    assert ([a] + actions)[0] == a && ([a] + actions)[1..] == actions;
  }

  lemma {:induction false} ViaJoin(t: Transfer, sys: System, actions: seq<Action>, mid: System, rest: seq<Action>,
                                   to: System)
    requires Safe(t, sys) && Via(t, sys, actions, mid) && Safe(t, mid) && Via(t, mid, rest, to)
    ensures Via(t, sys, actions + rest, to)
    decreases |actions|
  {
    hide Safe, Enabled, Next;
    if actions == [] {
      assert actions + rest == rest;
    } else {
      SafeReady(t, sys);
      NextSafe(t, sys, actions[0]);
      ViaJoin(t, Next(sys, actions[0]), actions[1..], mid, rest, to);
      assert (actions + rest)[0] == actions[0] && (actions + rest)[1..] == actions[1..] + rest;
    }
  }

  // ----- one round

  lemma SafeParts(t: Transfer, sys: System)
    requires Safe(t, sys)
    ensures Fits(t) && ServerSafe(t, sys.server) && Sending.Ready(sys.client) && Configured(sys.server)
    ensures sys.client.session == t.session && HistoryInv(sys.client.history) && Inv(sys.client.history.w)
    ensures |sys.client.history.w.chunks| == |sys.server.received| == t.start.totalChunks
    ensures sys.client.phase.Sending? ==> sys.server.completed.None?
  {
  }

  function ChunkPacket(t: Transfer, s: nat): seq<uint8>
    requires Fits(t) && s < t.start.totalChunks
  {
    Sending.ChunkDatagram(t.session, t.file, t.start.chunkSize, t.start.totalChunks, s, true)
  }

  /** A chunk that the window retransmits leaves as a marked DATA packet. */
  lemma RetransmissionSent(t: Transfer, sys: System, s: nat, at: int)
    requires Safe(t, sys) && sys.client.phase.Sending? && sys.client.history.clock <= at
    requires Retransmits(sys.client.history.w, s)
    ensures var after := Next(sys, ClientSends(at));
            && s < t.start.totalChunks && s !in AckedSet(sys.client.history.w)
            && ChunkPacket(t, s) in after.toServer && IsChunk(t, after.client.history.w.next, s, true, ChunkPacket(t, s))
            && after.client.phase.Sending? && after.client.history.clock == at && after.server == sys.server
            && AckedSet(after.client.history.w) == AckedSet(sys.client.history.w)
  {
    var w := sys.client.history.w;
    TransmitDecision(w);
    TransmitKeepsStates(w, at);
  }

  /** The current snapshot as the datagram that the server makes of it. */
  function CurrentAck(t: Transfer, number: uint32, r: seq<bool>): seq<uint8>
    requires |r| < 0x1_0000_0000
  {
    AckDatagram(t.session, number, Snapshot(r, DEFAULT_ACK_BITMAP_BITS))
  }

  /** The server answers a retransmission at once, whenever it arrives and however often. */
  lemma RetransmissionAnswered(t: Transfer, sys: System, s: nat, data: seq<uint8>, now: int, time: uint64)
    requires Safe(t, sys) && sys.server.completed.None? && data in sys.toServer
    requires IsChunk(t, sys.client.history.w.next, s, true, data)
    ensures var after := Next(sys, ServerGets(data, now, time));
            && Safe(t, after) && after.client == sys.client && after.server.completed.None?
            && after.server.received == sys.server.received[s := true]
            && CurrentAck(t, sys.server.ackNumber, after.server.received) in after.toClient
  {
    hide Receive, AckDatagram, Snapshot, IsChunk, ServerStep, Safe, ServerSafe, Fits, Configured, Sending.Ready, Inv;
    SafeParts(t, sys);
    ServerGetsSafe(t, sys, data, now, time);
    ChunkReceived(t, sys.server, sys.client.history.w.next, sys.client.phase.Sending?, s, true, data, now, time);
  }

  lemma AckApplied(c: Sending.Client, number: uint32, ack: AckPayload, at: int)
    requires Sending.Ready(c) && c.phase.Sending? && WellSized(ack) && ack.bitmapBits == DEFAULT_ACK_BITMAP_BITS
    ensures Sending.Receive(c, AckDatagram(c.session, number, ack), at) == c.(history := Step(c.history, AckArrival(ack, at)))
  {
    AckCarries(c.session, number, ack);
    FlagBits();
    hide AckDatagram, DecodePacket, DecodeAck, Bit, Step, Sending.Ready;
  }

  /** Once the latest ACK is delivered, exactly the received chunks are ACKED. */
  lemma AckDelivered(t: Transfer, sys: System, number: uint32, at: int)
    requires Safe(t, sys) && sys.client.phase.Sending? && sys.client.history.clock <= at
    requires CurrentAck(t, number, sys.server.received) in sys.toClient
    ensures var after := Next(sys, ClientGets(CurrentAck(t, number, sys.server.received), at));
            && Safe(t, after) && after.client.phase.Sending? && after.client.history.clock == at
            && after.server == sys.server
            && AckedSet(after.client.history.w) == Accepted(sys.server.received)
  {
    hide Snapshot, AckDatagram, ProcessAck, AckedSet, Accepted, Safe, Sending.Receive, Claims, WellSized;
    hide ServerSafe, Fits, Configured, Sending.Ready, Inv;
    SafeParts(t, sys);
    var ack := Snapshot(sys.server.received, DEFAULT_ACK_BITMAP_BITS);
    SnapshotSized(sys.server.received, DEFAULT_ACK_BITMAP_BITS);
    AckApplied(sys.client, number, ack, at);
    ClientGetsSafe(t, sys, CurrentAck(t, number, sys.server.received), at);
    AckedNow(t, sys, at);
  }

  lemma SnapshotSized(r: seq<bool>, bits: uint16)
    requires |r| < 0x1_0000_0000
    ensures WellSized(Snapshot(r, bits)) && Snapshot(r, bits).bitmapBits == bits
  {
  }

  lemma AckedNow(t: Transfer, sys: System, at: int)
    requires Safe(t, sys)
    ensures Sized(sys.client.history) && |sys.server.received| < 0x1_0000_0000
    ensures var h := Step(sys.client.history, AckArrival(Snapshot(sys.server.received, DEFAULT_ACK_BITMAP_BITS), at));
            h.clock == at && AckedSet(h.w) == Accepted(sys.server.received)
  {
    SafeParts(t, sys);
    SnapshotExact(t, sys, at);
    hide Snapshot, ProcessAck, AckedSet, Accepted, Safe;
  }

  /** The chunks the sender still waits for. */
  ghost function Unacked(w: Window): set<nat> {
    set i: nat | i < |w.chunks| && !w.chunks[i].state.Acked?
  }

  lemma SameUnacked(w: Window, u: Window)
    requires |w.chunks| == |u.chunks| && AckedSet(w) == AckedSet(u)
    ensures Unacked(w) == Unacked(u)
  {
    forall i: nat | i < |w.chunks| ensures i in Unacked(w) <==> i in Unacked(u) {
      assert i in AckedSet(w) <==> i in AckedSet(u);
    }
  }

  /** More ACKED chunks leave fewer to wait for. */
  lemma UnackedShrinks(w: Window, u: Window)
    requires |w.chunks| == |u.chunks| && AckedSet(w) < AckedSet(u)
    ensures |Unacked(u)| < |Unacked(w)|
  {
    var i :| i in AckedSet(u) && i !in AckedSet(w);
    assert i in Unacked(w) && i !in Unacked(u);
    forall k | k in Unacked(u) ensures k in Unacked(w) {
      assert k !in AckedSet(w);
    }
    assert Unacked(w) == Unacked(u) + (Unacked(w) - Unacked(u));
  }

  /** The retransmission of chunk `s`, its delivery, and the delivery of the ACK it provokes. */
  function RoundActions(t: Transfer, s: nat, answering: Server, sent: int, now: int, time: uint64, got: int): seq<Action>
    requires Fits(t) && s < t.start.totalChunks == |answering.received|
  {
    [ClientSends(sent),
     ServerGets(ChunkPacket(t, s), now, time),
     ClientGets(CurrentAck(t, answering.ackNumber, answering.received[s := true]), got)]
  }

  lemma RoundStates(t: Transfer, sys: System, s: nat, sent: int, now: int, time: uint64, got: int)
    returns (a: System, b: System, after: System)
    requires Safe(t, sys) && sys.client.phase.Sending? && sys.client.history.clock <= sent <= got
    requires Retransmits(sys.client.history.w, s)
    ensures s < t.start.totalChunks == |sys.server.received|
    ensures var actions := RoundActions(t, s, sys.server, sent, now, time, got);
            && Follows(t, sys, actions[0], a) && Follows(t, a, actions[1], b) && Follows(t, b, actions[2], after)
    ensures Safe(t, after) && after.client.phase.Sending? && after.client.history.clock == got
    ensures AckedSet(sys.client.history.w) <= AckedSet(after.client.history.w)
    ensures s in AckedSet(after.client.history.w) && s !in AckedSet(sys.client.history.w)
  {
    hide Safe, AckedSet, Snapshot, AckDatagram, ChunkPacket, Accepted, IsChunk, Retransmits;
    hide ServerSafe, Fits, Configured, Sending.Ready, Inv, Next;
    SafeParts(t, sys);
    RetransmissionSent(t, sys, s, sent);
    a := Next(sys, ClientSends(sent));
    SendsSafe(t, sys, sent);
    RetransmissionAnswered(t, a, s, ChunkPacket(t, s), now, time);
    SafeParts(t, a);
    b := Next(a, ServerGets(ChunkPacket(t, s), now, time));
    AckDelivered(t, b, sys.server.ackNumber, got);
    AckedIsReceived(t, b);
    SafeParts(t, b);
    after := Next(b, ClientGets(CurrentAck(t, sys.server.ackNumber, b.server.received), got));
    assert s in Accepted(b.server.received) by { StillReceived(a.server.received, s); }
  }

  lemma StillReceived(r: seq<bool>, s: nat)
    requires s < |r|
    ensures s in Accepted(r[s := true])
  {
  }

  /** `to` is what `a` makes of `sys`. */
  ghost predicate Follows(t: Transfer, sys: System, a: Action, to: System) {
    Safe(t, sys) && Enabled(sys, a) && (SafeReady(t, sys); Next(sys, a) == to)
  }

  lemma ViaFollows(t: Transfer, sys: System, a: Action, mid: System, actions: seq<Action>, to: System)
    requires Follows(t, sys, a, mid)
    ensures Safe(t, mid)
    ensures Via(t, mid, actions, to) ==> Via(t, sys, [a] + actions, to)
  {
    hide Safe, Enabled, Next, Via;
    NextSafe(t, sys, a);
    if Via(t, mid, actions, to) {
      ViaStep(t, sys, a, actions, to);
    }
  }

  lemma RoundRuns(t: Transfer, sys: System, s: nat, sent: int, now: int, time: uint64, got: int) returns (after: System)
    requires Safe(t, sys) && sys.client.phase.Sending? && sys.client.history.clock <= sent <= got
    requires Retransmits(sys.client.history.w, s)
    ensures s < t.start.totalChunks == |sys.server.received|
    ensures Via(t, sys, RoundActions(t, s, sys.server, sent, now, time, got), after)
    ensures Safe(t, after) && after.client.phase.Sending? && after.client.history.clock == got
    ensures AckedSet(sys.client.history.w) < AckedSet(after.client.history.w)
  {
    hide Safe, Follows, Via, ChunkPacket, CurrentAck, Retransmits;
    hide ServerSafe, Fits, Configured, Sending.Ready, Inv;
    SafeParts(t, sys);
    var a: System, b: System;
    a, b, after := RoundStates(t, sys, s, sent, now, time, got);
    var actions := RoundActions(t, s, sys.server, sent, now, time, got);
    ViaNothing(t, after);
    ViaFollows(t, b, actions[2], after, [], after);
    ViaFollows(t, a, actions[1], b, [actions[2]] + [], after);
    ViaFollows(t, sys, actions[0], a, [actions[1]] + ([actions[2]] + []), after);
    assert actions == [actions[0]] + ([actions[1]] + ([actions[2]] + []));
  }

  // ----- no deadlock

  /** When the sender is blocked, it waits for the base's timeout and then runs a round for it. */
  function BlockedActions(t: Transfer, base: nat, answering: Server, tried: int, expired: int, sent: int, now: int,
                          time: uint64, got: int): seq<Action>
    requires Fits(t) && base < t.start.totalChunks == |answering.received|
  {
    [ClientSends(tried), ClientTimesOut(expired)] + RoundActions(t, base, answering, sent, now, time, got)
  }

  lemma BlockedWindow(w: Window, tried: int, expired: int)
    requires Inv(w) && w.base < w.total && Select(w).1.None?
    requires expired - w.chunks[w.base].lastSent >= DEFAULT_RTO
    ensures Shape(Transmit(w, tried).0) && Transmit(w, tried).1.None?
    ensures var u := CheckTimeouts(Transmit(w, tried).0, expired, DEFAULT_RTO);
            Inv(u) && Retransmits(u, w.base) && AckedSet(u) == AckedSet(w)
  {
    hide Inv, DropStale, CountAcked, AckedSet, CheckTimeouts, CanSendNew;
    InvShape(w);
    TimeoutUnblocks(w, expired);
    TimeoutKeepsAcked(w, Select(w).0, expired);
  }

  lemma InvShape(w: Window)
    requires Inv(w)
    ensures Shape(w) && Below(w.queue, |w.chunks|) && Shape(Select(w).0)
  {
    SelectShape(w);
  }

  lemma TimeoutKeepsAcked(w: Window, v: Window, at: int)
    requires v.base <= v.next <= |v.chunks| && v.chunks == w.chunks
    ensures AckedSet(CheckTimeouts(v, at, DEFAULT_RTO)) == AckedSet(w)
  {
    hide TimeoutQueue;
  }

  lemma BlockedHistory(h: History, tried: int, expired: int)
    requires HistoryInv(h) && h.clock <= tried <= expired
    requires h.w.base < h.w.total && Select(h.w).1.None? && expired - h.w.chunks[h.w.base].lastSent >= DEFAULT_RTO
    ensures HistoryInv(Step(h, Transmission(tried))) && Step(h, Transmission(tried)).clock == tried
    ensures var g := Step(Step(h, Transmission(tried)), TimeoutCheck(expired));
            && HistoryInv(g) && g.clock == expired
            && Retransmits(g.w, h.w.base) && AckedSet(g.w) == AckedSet(h.w)
  {
    hide Transmit, Retransmits, AckedSet, Select, ChunkHistory;
    BlockedWindow(h.w, tried, expired);
    StepKeeps(h, Transmission(tried));
    StepKeeps(Step(h, Transmission(tried)), TimeoutCheck(expired));
  }

  lemma BlockedStates(t: Transfer, sys: System, tried: int, expired: int) returns (a: System, b: System)
    requires Safe(t, sys) && sys.client.phase.Sending? && sys.client.history.clock <= tried <= expired
    requires var w := sys.client.history.w;
             w.base < w.total && Select(w).1.None? && expired - w.chunks[w.base].lastSent >= DEFAULT_RTO
    ensures Follows(t, sys, ClientSends(tried), a) && Follows(t, a, ClientTimesOut(expired), b)
    ensures Safe(t, b) && b.client.phase.Sending? && b.client.history.clock == expired && b.server == sys.server
    ensures Retransmits(b.client.history.w, sys.client.history.w.base)
    ensures AckedSet(b.client.history.w) == AckedSet(sys.client.history.w)
  {
    hide Retransmits, AckedSet, Safe, HistoryInv, Step, Inv, ServerSafe, Configured, Fits;
    SafeParts(t, sys);
    BlockedHistory(sys.client.history, tried, expired);
    SendsSafe(t, sys, tried);
    a := Next(sys, ClientSends(tried));
    SafeParts(t, a);
    TimesOutSafe(t, a, expired);
    b := Next(a, ClientTimesOut(expired));
  }

  lemma BlockedRuns(t: Transfer, sys: System, tried: int, expired: int, sent: int, now: int, time: uint64, got: int)
    returns (after: System)
    requires Safe(t, sys) && sys.client.phase.Sending? && sys.client.history.clock <= tried <= expired <= sent <= got
    requires var w := sys.client.history.w;
             w.base < w.total && Select(w).1.None? && expired - w.chunks[w.base].lastSent >= DEFAULT_RTO
    ensures var base := sys.client.history.w.base;
            && base < t.start.totalChunks == |sys.server.received|
            && Via(t, sys, BlockedActions(t, base, sys.server, tried, expired, sent, now, time, got), after)
    ensures Safe(t, after) && after.client.phase.Sending?
    ensures AckedSet(sys.client.history.w) < AckedSet(after.client.history.w)
  {
    hide Safe, Follows, Via, Retransmits, RoundActions, Select, AckedSet;
    hide ServerSafe, Fits, Configured, Sending.Ready, Inv, HistoryInv;
    SafeParts(t, sys);
    var a, b := BlockedStates(t, sys, tried, expired);
    after := RoundRuns(t, b, sys.client.history.w.base, sent, now, time, got);
    var round := RoundActions(t, sys.client.history.w.base, sys.server, sent, now, time, got);
    ViaFollows(t, a, ClientTimesOut(expired), b, round, after);
    ViaFollows(t, sys, ClientSends(tried), a, [ClientTimesOut(expired)] + round, after);
    assert [ClientSends(tried), ClientTimesOut(expired)] + round
           == [ClientSends(tried)] + ([ClientTimesOut(expired)] + round);
  }

  /** In every reachable state in which the sender has chunks to wait for but nothing to send, the
      base is in flight; once 500 ms have passed since it was sent, a timeout check and the next
      selection retransmit it, the server ACKs that packet at once, and when the ACK arrives fewer
      chunks are missing.  No times or clocks are assumed beyond the client's being monotone. */
  lemma BlockedProgress(t: Transfer, sys: System, tried: int, expired: int, sent: int, now: int, time: uint64, got: int)
    requires Reachable(t, sys) && sys.client.phase.Sending?
    requires sys.client.history.clock <= tried <= expired <= sent <= got
    requires (ReachableSafe(t, sys); var w := sys.client.history.w; w.base < w.total && Select(w).1.None?)
    ensures Safe(t, sys)
    ensures var w := sys.client.history.w;
            && w.base < w.next <= t.start.totalChunks == |sys.server.received| == |w.chunks|
            && w.chunks[w.base].state.InFlight?
            && (expired - w.chunks[w.base].lastSent >= DEFAULT_RTO ==>
                  var actions := BlockedActions(t, w.base, sys.server, tried, expired, sent, now, time, got);
                  && ValidRun(t, sys, actions)
                  && |Unacked(Final(t, sys, actions).client.history.w)| < |Unacked(w)|)
  {
    ReachableSafe(t, sys);
    hide Safe, Reachable, ServerSafe, Fits, Configured, Sending.Ready, HistoryInv, Select, BlockedActions, ValidRun, Final;
    SafeParts(t, sys);
    var w := sys.client.history.w;
    BlockedOnBase(w);
    if expired - w.chunks[w.base].lastSent >= DEFAULT_RTO {
      var after := BlockedRuns(t, sys, tried, expired, sent, now, time, got);
      SafeParts(t, after);
      UnackedShrinks(w, after.client.history.w);
    }
  }

  // ----- completion

  /** A server that has everything answers COMPLETE with OK, however often it is asked. */
  lemma CompleteConfirmed(t: Transfer, s: Server, now: int, time: uint64)
    requires Fits(t) && ServerSafe(t, s) && AllReceived(s.received)
    ensures var (u, d) := Receive(s, CompleteDatagram(t.session, t.start.totalChunks), now, time);
            && u.completed.Some? && GoodReport(t, u.completed.value)
            && d == Some(CompleteAckDatagram(t.session, t.start.totalChunks, u.completed.value))
            && u.output == s.output
  {
    SafeFields(t, s);
    ReceiveIsComplete(t, s, now, time);
    CompleteIff(s.received);
    hide Receive, CompleteDatagram, CompleteAckDatagram, Faithful;
  }

  /** A completing client that is given the confirmation finishes. */
  lemma ConfirmationFinishes(t: Transfer, sys: System, p: CompleteAckPayload, at: int)
    requires Safe(t, sys) && sys.client.phase.Completing? && GoodReport(t, p)
    ensures Sending.Ready(sys.client)
    ensures Sending.Receive(sys.client, CompleteAckDatagram(t.session, t.start.totalChunks, p), at)
            == sys.client.(phase := Sending.Finished)
  {
    hide Safe, CompleteAckDatagram, DecodePacket, DecodeCompleteAck, ServerSafe, Fits, Configured, HistoryInv, Inv;
    SafeParts(t, sys);
    CompleteAckCarries(t.session, t.start.totalChunks, p);
    ReportSafe(t, sys, DecodePacket(CompleteAckDatagram(t.session, t.start.totalChunks, p)).packet);
  }

  /** A COMPLETE is in the network only when the client has left its sending loop. */
  lemma CompleteMeansDone(t: Transfer, next: nat, sending: bool)
    requires Fits(t) && FromClient(t, next, sending, CompleteDatagram(t.session, t.start.totalChunks))
    ensures !sending
  {
    hide DecodePacket, CompleteDatagram, StartDatagram, DataDatagram, ChunkBytes;
    CompleteCarries(t.session, t.start.totalChunks);
    StartDecodes(t.session, t.start);
    if s: nat, r: bool :| IsChunk(t, next, s, r, CompleteDatagram(t.session, t.start.totalChunks)) {
      DataCarries(t.session, s, r, ChunkBytes(t.file, t.start.chunkSize, t.start.totalChunks, s));
    }
  }

  /** Every COMPLETE that is ever delivered is answered with OK, the number of chunks and the size
      of the file, which the output then equals. */
  lemma CompleteAlwaysConfirmed(t: Transfer, sys: System, now: int, time: uint64)
    requires Reachable(t, sys) && CompleteDatagram(t.session, t.start.totalChunks) in sys.toServer
    ensures Configured(sys.server) && sys.server.output == t.file
    ensures var (u, d) := Receive(sys.server, CompleteDatagram(t.session, t.start.totalChunks), now, time);
            && u.completed.Some? && GoodReport(t, u.completed.value)
            && d == Some(CompleteAckDatagram(t.session, t.start.totalChunks, u.completed.value))
  {
    ReachableSafe(t, sys);
    SafeParts(t, sys);
    CompleteMeansDone(t, sys.client.history.w.next, sys.client.phase.Sending?);
    DoneIsReceived(t, sys);
    AllReceivedIsFile(t, sys.server);
    hide Receive, CompleteDatagram, CompleteAckDatagram, Safe, Fits, Configured, ServerSafe, HistoryInv, Inv, Reachable;
    CompleteConfirmed(t, sys.server, now, time);
  }
}

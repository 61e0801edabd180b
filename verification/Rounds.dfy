/** A retransmission counts however much happens between it, its delivery and the delivery of its
    ACK: nothing that was ACKED is ever forgotten, and no ACK is too old to count. */
module Rounds {
  import opened Bytes
  import opened Protocol
  import opened Datagrams
  import opened SenderModel
  import opened SenderInvariant
  import opened SenderProperties
  import opened SenderRuns
  import opened Receiver
  import opened ServerModel
  import opened TransferSystem
  import opened TransferTheorems
  import opened Progress
  import Sending = ClientModel

  /** No action takes a chunk back. */
  lemma AckedGrows(t: Transfer, sys: System, a: Action)
    requires Safe(t, sys) && Enabled(sys, a)
    ensures Sending.Ready(sys.client) && Configured(sys.server)
    ensures AckedSet(sys.client.history.w) <= AckedSet(Next(sys, a).client.history.w)
  {
    hide Safe, ServerSafe, Fits, Configured, HistoryInv, Inv, Sending.Ready, Receive;
    SafeParts(t, sys);
    var h := sys.client.history;
    InvShape(h.w);
    match a
    case ClientSends(at) => SendGrows(h, at);
    case ClientTimesOut(at) => TimeoutKeepsAcked(h.w, h.w, at);
    case ClientGets(data, at) => ReceiveGrows(sys.client, data, at);
    case _ =>
  }

  lemma SendGrows(h: History, at: int)
    requires Sized(h) && Inv(h.w)
    ensures AckedSet(h.w) <= AckedSet(Step(h, Transmission(at)).w)
  {
    TransmitKeepsStates(h.w, at);
    hide Transmit;
  }

  lemma ReceiveGrows(c: Sending.Client, data: seq<uint8>, at: int)
    requires Sending.Ready(c)
    ensures AckedSet(c.history.w) <= AckedSet(Sending.Receive(c, data, at).history.w)
  {
    hide DecodePacket, DecodeAck, DecodeCompleteAck, Bit, ProcessAck, AckedSet, Shape;
    if DecodePacket(data).Decoded? && DecodeAck(DecodePacket(data).packet.payload).Some? {
      AckIsUnion(c.history.w, DecodeAck(DecodePacket(data).packet.payload).value, at);
    }
  }

  lemma {:induction false} AckedGrowsVia(t: Transfer, sys: System, actions: seq<Action>, to: System)
    requires Safe(t, sys) && Via(t, sys, actions, to)
    ensures AckedSet(sys.client.history.w) <= AckedSet(to.client.history.w) && Safe(t, to)
    decreases |actions|
  {
    hide Safe, Enabled, Next, AckedSet;
    if actions != [] {
      AckedGrows(t, sys, actions[0]);
      NextSafe(t, sys, actions[0]);
      AckedGrowsVia(t, Next(sys, actions[0]), actions[1..], to);
    }
  }

  /** Whatever an ACK in the network claims is ACKED once it is delivered, however old it is and
      whatever the client does by then. */
  lemma AnyAckCounts(t: Transfer, sys: System, number: uint32, ack: AckPayload, s: nat, at: int)
    requires Safe(t, sys) && sys.client.history.clock <= at
    requires WellSized(ack) && ack.bitmapBits == DEFAULT_ACK_BITMAP_BITS && Claims(ack, s)
    requires AckDatagram(t.session, number, ack) in sys.toClient
    ensures s in AckedSet(Next(sys, ClientGets(AckDatagram(t.session, number, ack), at)).client.history.w)
  {
    hide AckDatagram, DecodePacket, DecodeAck, Claims, Safe, AckedSet, ServerSafe, Fits, Configured, HistoryInv, Inv;
    hide FromServer, Sending.Receive;
    var data := AckDatagram(t.session, number, ack);
    ClaimedIsReceived(t, sys, number, ack, s);
    ReceivedIsSelected(t, sys, s);
    AckedGrows(t, sys, ClientGets(data, at));
    if sys.client.phase.Sending? {
      SafeParts(t, sys);
      AckApplied(sys.client, number, ack, at);
      AckIsUnion(sys.client.history.w, ack, at);
      assert s in Claimed(sys.client.history.w, ack);
    }
  }

  lemma ClaimedIsReceived(t: Transfer, sys: System, number: uint32, ack: AckPayload, s: nat)
    requires Safe(t, sys) && WellSized(ack) && Claims(ack, s)
    requires AckDatagram(t.session, number, ack) in sys.toClient
    ensures s < |sys.server.received| && sys.server.received[s]
  {
    hide AckDatagram, DecodePacket, DecodeAck, Claims, FromServer, ServerSafe, ClientSafe, Fits, FromClient, WellSized;
    AckCarries(t.session, number, ack);
    DecodedFromServer(t, sys.server.received, AckDatagram(t.session, number, ack));
  }

  lemma ReceivedIsSelected(t: Transfer, sys: System, s: nat)
    requires Safe(t, sys) && s < |sys.server.received| && sys.server.received[s]
    ensures s < sys.client.history.w.next
    ensures !sys.client.phase.Sending? ==> s in AckedSet(sys.client.history.w)
    ensures Sending.Ready(sys.client) && Shape(sys.client.history.w)
  {
  }

  /** The reply to a retransmission claims its chunk. */
  lemma ReplyClaims(t: Transfer, sys: System, s: nat, now: int, time: uint64, reply: seq<uint8>, u: System)
    requires Fits(t) && s < t.start.totalChunks
    requires Follows(t, sys, ServerGets(ChunkPacket(t, s), now, time), u)
    requires (SafeReady(t, sys); Receive(sys.server, ChunkPacket(t, s), now, time).1 == Some(reply))
    ensures Safe(t, u) && |u.server.received| < 0x1_0000_0000
    ensures var ack := Snapshot(u.server.received, DEFAULT_ACK_BITMAP_BITS);
            Claims(ack, s) && WellSized(ack) && reply == AckDatagram(t.session, sys.server.ackNumber, ack)
  {
    hide Safe, Receive, AckDatagram, Snapshot, Claims, WellSized, ServerStep, ReceiveData, ChunkPacket;
    hide ServerSafe, Fits, Configured, HistoryInv, Inv;
    var packet := ChunkPacket(t, s);
    SafeParts(t, sys);
    FollowsIsSafe(t, sys, ServerGets(packet, now, time), u);
    SafeParts(t, u);
    assert IsChunk(t, t.start.totalChunks, s, true, packet) by { PacketIsChunk(t, s); }
    hide IsChunk;
    ReceiveIsData(t, sys.server, t.start.totalChunks, s, true, packet, now, time);
    ChunkReceived(t, sys.server, t.start.totalChunks, sys.client.phase.Sending?, s, true, packet, now, time);
    ReceivedWithinCoverage(t, u);
    SnapshotLossless(u.server.received, DEFAULT_ACK_BITMAP_BITS);
    SnapshotSized(u.server.received, DEFAULT_ACK_BITMAP_BITS);
  }

  lemma PacketIsChunk(t: Transfer, s: nat)
    requires Fits(t) && s < t.start.totalChunks
    ensures IsChunk(t, t.start.totalChunks, s, true, ChunkPacket(t, s))
  {
  }

  lemma FollowsIsSafe(t: Transfer, sys: System, a: Action, to: System)
    requires Follows(t, sys, a, to)
    ensures Safe(t, sys) && Safe(t, to)
  {
    hide Safe, Enabled, Next;
    NextSafe(t, sys, a);
  }

  /** A run in which chunk `s` is retransmitted, the packet delivered and the reply delivered, in this
      order, with anything in between and after, ends with fewer chunks to wait for. */
  lemma SpreadRound(t: Transfer, s: nat, x0: System, sent: int, x1: System, p1: seq<Action>,
                    x2: System, now: int, time: uint64, x3: System, p2: seq<Action>,
                    x4: System, reply: seq<uint8>, got: int, x5: System, p3: seq<Action>, x6: System)
    requires Fits(t) && s < t.start.totalChunks
    requires Follows(t, x0, ClientSends(sent), x1)
    requires (SafeShape(t, x0); x0.client.phase.Sending? && Retransmits(x0.client.history.w, s))
    requires Safe(t, x1) && Via(t, x1, p1, x2)
    requires Follows(t, x2, ServerGets(ChunkPacket(t, s), now, time), x3)
    requires (SafeReady(t, x2); Receive(x2.server, ChunkPacket(t, s), now, time).1 == Some(reply))
    requires Safe(t, x3) && Via(t, x3, p2, x4)
    requires Follows(t, x4, ClientGets(reply, got), x5)
    requires Safe(t, x5) && Via(t, x5, p3, x6)
    ensures s in AckedSet(x6.client.history.w) && s !in AckedSet(x0.client.history.w)
    ensures |Unacked(x6.client.history.w)| < |Unacked(x0.client.history.w)|
  {
    hide Safe, Receive, AckDatagram, Snapshot, Claims, WellSized, ChunkPacket, Via, AckedSet, Unacked, Retransmits;
    hide ServerSafe, Fits, Configured, HistoryInv, Inv;
    NotAckedYet(t, x0, s, sent);
    Grows(t, x0, ClientSends(sent), x1);
    AckedGrowsVia(t, x1, p1, x2);
    Grows(t, x2, ServerGets(ChunkPacket(t, s), now, time), x3);
    AckedGrowsVia(t, x3, p2, x4);
    ReplyClaims(t, x2, s, now, time, reply, x3);
    var ack := Snapshot(x3.server.received, DEFAULT_ACK_BITMAP_BITS);
    SnapshotSized(x3.server.received, DEFAULT_ACK_BITMAP_BITS);
    Grows(t, x4, ClientGets(reply, got), x5);
    AckCounts(t, x4, x2.server.ackNumber, ack, s, got, x5);
    AckedGrowsVia(t, x5, p3, x6);
    SafeParts(t, x0);
    SafeParts(t, x6);
    UnackedShrinks(x0.client.history.w, x6.client.history.w);
  }

  /** A blocked sender recovers however the rest is spread out: once the base's 500 ms are over, the
      next selection after the check retransmits it, and when that packet and its reply have been
      delivered, with anything in between, fewer chunks are missing. */
  lemma BlockedRecovers(t: Transfer, sys: System, tried: int, a: System, expired: int, x0: System, sent: int, x1: System,
                        p1: seq<Action>, x2: System, now: int, time: uint64, x3: System, p2: seq<Action>,
                        x4: System, reply: seq<uint8>, got: int, x5: System, p3: seq<Action>, x6: System)
    requires Reachable(t, sys) && sys.client.phase.Sending?
    requires (ReachableSafe(t, sys); SafeParts(t, sys); var w := sys.client.history.w;
              w.base < w.total && Select(w).1.None? && expired - w.chunks[w.base].lastSent >= DEFAULT_RTO)
    requires Follows(t, sys, ClientSends(tried), a) && Follows(t, a, ClientTimesOut(expired), x0)
    requires Follows(t, x0, ClientSends(sent), x1) && Safe(t, x1) && Via(t, x1, p1, x2)
    requires sys.client.history.w.base < t.start.totalChunks
    requires Follows(t, x2, ServerGets(ChunkPacket(t, sys.client.history.w.base), now, time), x3)
    requires (SafeReady(t, x2);
              Receive(x2.server, ChunkPacket(t, sys.client.history.w.base), now, time).1 == Some(reply))
    requires Safe(t, x3) && Via(t, x3, p2, x4)
    requires Follows(t, x4, ClientGets(reply, got), x5) && Safe(t, x5) && Via(t, x5, p3, x6)
    ensures |Unacked(x6.client.history.w)| < |Unacked(sys.client.history.w)|
  {
    hide Safe, Receive, ChunkPacket, Via, AckedSet, Retransmits, Reachable, Select, Next;
    hide ServerSafe, Configured, HistoryInv, Inv;
    ReachableSafe(t, sys);
    SafeParts(t, sys);
    FollowsIsSafe(t, sys, ClientSends(tried), a);
    StepTimes(t, sys, tried, a, expired);
    var c, d := BlockedStates(t, sys, tried, expired);
    assert c == a && d == x0;
    SafeShape(t, x0);
    SpreadRound(t, sys.client.history.w.base, x0, sent, x1, p1, x2, now, time, x3, p2, x4, reply, got, x5, p3, x6);
    SafeParts(t, x0);
    SameUnacked(sys.client.history.w, x0.client.history.w);
  }

  lemma StepTimes(t: Transfer, sys: System, tried: int, a: System, expired: int)
    requires Follows(t, sys, ClientSends(tried), a) && Enabled(a, ClientTimesOut(expired))
    ensures sys.client.history.clock <= tried <= expired
  {
    hide Safe, Select, Transmit, Receive;
    SafeReady(t, sys);
  }

  lemma SafeShape(t: Transfer, sys: System)
    requires Safe(t, sys)
    ensures Below(sys.client.history.w.queue, |sys.client.history.w.chunks|)
  {
  }

  lemma NotAckedYet(t: Transfer, sys: System, s: nat, at: int)
    requires Safe(t, sys) && sys.client.phase.Sending? && sys.client.history.clock <= at
    requires (SafeShape(t, sys); Retransmits(sys.client.history.w, s))
    ensures s !in AckedSet(sys.client.history.w)
  {
    hide Safe, AckedSet;
    SafeShape(t, sys);
    RetransmissionSent(t, sys, s, at);
  }

  lemma Grows(t: Transfer, sys: System, a: Action, to: System)
    requires Follows(t, sys, a, to)
    ensures AckedSet(sys.client.history.w) <= AckedSet(to.client.history.w) && Enabled(sys, a)
  {
    hide Safe, Enabled, Next, AckedSet;
    AckedGrows(t, sys, a);
  }

  lemma AckCounts(t: Transfer, sys: System, number: uint32, ack: AckPayload, s: nat, at: int, to: System)
    requires WellSized(ack) && ack.bitmapBits == DEFAULT_ACK_BITMAP_BITS && Claims(ack, s)
    requires Follows(t, sys, ClientGets(AckDatagram(t.session, number, ack), at), to)
    ensures s in AckedSet(to.client.history.w)
  {
    hide Safe, Next, AckedSet, Claims, WellSized, AckDatagram;
    AnyAckCounts(t, sys, number, ack, s, at);
  }
}

/** What the reachable states of the transfer guarantee: the file arrives intact, the ACKs lose
    nothing, and retransmissions are bounded. */
module TransferTheorems {
  import opened Bytes
  import opened Protocol
  import opened FileLayout
  import opened SenderModel
  import opened SenderProperties
  import opened SenderRuns
  import opened Receiver
  import opened ServerModel
  import opened TransferSystem
  import Sending = ClientModel

  // ----- integrity

  lemma AckedIsReceived(t: Transfer, sys: System)
    requires Safe(t, sys)
    ensures AckedSet(sys.client.history.w) <= Accepted(sys.server.received)
    ensures forall n | n in Accepted(sys.server.received) :: n < sys.client.history.w.next
  {
  }

  lemma DoneIsReceived(t: Transfer, sys: System)
    requires Safe(t, sys) && sys.client.history.w.base == sys.client.history.w.total
    ensures AllReceived(sys.server.received)
  {
  }

  lemma AllReceivedIsFile(t: Transfer, s: Server)
    requires Fits(t) && ServerSafe(t, s) && AllReceived(s.received)
    ensures s.output == t.file
  {
    AllHoldIsFile(s.output, t.file, t.start.chunkSize, t.start.totalChunks);
  }

  /** In every reachable state ACKED chunks are received, received chunks have been selected and
      their bytes are in place; once the client has left its loop or the server has confirmed, the
      output is the file; and the client never fails on the statistics. */
  lemma EndToEndIntegrity(t: Transfer, sys: System)
    requires Reachable(t, sys)
    ensures var received := Accepted(sys.server.received);
            && AckedSet(sys.client.history.w) <= received
            && (forall n | n in received :: n < sys.client.history.w.next)
            && |sys.server.output| == |t.file| && t.start.chunkSize > 0
            && (forall p: nat | p < |t.file| && p / t.start.chunkSize in received :: sys.server.output[p] == t.file[p])
            && (!sys.client.phase.Sending? || sys.server.completed.Some? ==> sys.server.output == t.file)
            && !sys.client.phase.Failed?
  {
    ReachableSafe(t, sys);
    AckedIsReceived(t, sys);
    var c, total := t.start.chunkSize, t.start.totalChunks;
    forall p: nat | p < |t.file| && p / c in Accepted(sys.server.received) ensures sys.server.output[p] == t.file[p] {
      ChunkOfByte(|t.file|, c, total, p, p / c);
      ByteHeld(sys.server.output, t.file, c, total, p / c, p);
    }
    if !sys.client.phase.Sending? || sys.server.completed.Some? {
      DoneIsReceived(t, sys);
      AllReceivedIsFile(t, sys.server);
    }
  }

  /** In every reachable state each chunk has been retransmitted fast at most 2730 times, and any
      two transmissions of a chunk after its first retransmission are at least 250 ms apart per
      transmission between them. */
  lemma RetransmissionsBounded(t: Transfer, sys: System, s: nat)
    requires Reachable(t, sys) && s < t.start.totalChunks
    ensures s < |sys.client.history.fast| && sys.client.history.fast[s] <= 2730
    ensures s < |sys.client.history.sent|
    ensures var times := sys.client.history.sent[s];
            forall i, j | 1 <= i <= j < |times| :: times[j] - times[i] >= (j - i) * REPEATED_FAST_RETRANSMIT_DELAY
  {
    ReachableSafe(t, sys);
    var h := sys.client.history;
    assert ChunkHistory(h.w.chunks[s], h.sent[s], h.fast[s], h.clock, h.w.coverage);
    forall i, j | 1 <= i <= j < |h.sent[s]| ensures h.sent[s][j] - h.sent[s][i] >= (j - i) * REPEATED_FAST_RETRANSMIT_DELAY {
      SpacedGap(h.sent[s], i, j);
    }
  }

  // ----- snapshots lose nothing

  /** A snapshot of any receiver state at any width, sent as bytes and decoded again, adds to any
      sender's ACKED set exactly the selected chunks below the first missing one, and those beyond
      it that are received and within the width. */
  lemma SackThroughBytes(w: Window, r: seq<bool>, bits: uint16, at: int)
    requires Shape(w) && |r| < 0x1_0000_0000
    ensures DecodeAck(EncodeAck(Snapshot(r, bits))) == Some(Snapshot(r, bits))
    ensures AckedSet(ProcessAck(w, DecodeAck(EncodeAck(Snapshot(r, bits))).value, at))
            == AckedSet(w)
               + (set s: nat | s < w.next && (s < FirstMissing(r, 0) || (s < |r| && r[s] && s < FirstMissing(r, 0) + bits)))
  {
    hide Snapshot, Claims, ProcessAck, AckedSet, DecodeAck, EncodeAck, FirstMissing, Shape;
    var ack := Snapshot(r, bits);
    DecodeEncodeAck(ack);
    AckIsUnion(w, ack, at);
    ClaimedBySnapshot(w, r, bits);
  }

  lemma ClaimedBySnapshot(w: Window, r: seq<bool>, bits: uint16)
    requires |r| < 0x1_0000_0000
    ensures Claimed(w, Snapshot(r, bits))
            == set s: nat | s < w.next && (s < FirstMissing(r, 0) || (s < |r| && r[s] && s < FirstMissing(r, 0) + bits))
  {
    hide Snapshot, Claims, FirstMissing;
    forall s: nat
      ensures Claims(Snapshot(r, bits), s)
              <==> s < FirstMissing(r, 0) || (s < |r| && r[s] && s < FirstMissing(r, 0) + bits)
    {
      SnapshotClaims(r, bits, s);
    }
  }

  /** Everything received lies within the bitmap of the next snapshot. */
  lemma ReceivedWithinCoverage(t: Transfer, sys: System)
    requires Safe(t, sys)
    ensures LargestPlusOne(sys.server.received) <= FirstMissing(sys.server.received, 0) + DEFAULT_ACK_BITMAP_BITS
  {
    var r := sys.server.received;
    var w := sys.client.history.w;
    assert forall i | 0 <= i < w.base :: r[i];
    assert LargestPlusOne(r) > 0 ==> LargestPlusOne(r) - 1 < w.next;
  }

  /** In every reachable state a snapshot denotes exactly the received set, and processing it makes
      the sender's ACKED set equal to that set. */
  lemma SnapshotExact(t: Transfer, sys: System, at: int)
    requires Safe(t, sys)
    ensures var r := sys.server.received; var ack := Snapshot(r, DEFAULT_ACK_BITMAP_BITS); var w := sys.client.history.w;
            && (forall i: nat :: Claims(ack, i) <==> i in Accepted(r))
            && AckedSet(ProcessAck(w, ack, at)) == Accepted(r)
  {
    var r := sys.server.received;
    ReceivedWithinCoverage(t, sys);
    SnapshotLossless(r, DEFAULT_ACK_BITMAP_BITS);
    AckIsUnion(sys.client.history.w, Snapshot(r, DEFAULT_ACK_BITMAP_BITS), at);
    AckedIsReceived(t, sys);
    hide Safe, Claims, Snapshot, ProcessAck;
  }

  /** In every reachable state the base is at most the cumulative ACK, everything received and
      selected lies within the coverage above it, the snapshot claims exactly the received set, and
      processing it makes exactly that set ACKED. */
  lemma SnapshotsLoseNothing(t: Transfer, sys: System, at: int)
    requires Reachable(t, sys)
    ensures Safe(t, sys)
    ensures var r := sys.server.received; var w := sys.client.history.w; var ack := Snapshot(r, DEFAULT_ACK_BITMAP_BITS);
            && w.base <= ack.cumulativeAck && w.next <= w.base + DEFAULT_ACK_BITMAP_BITS
            && (forall n | n in Accepted(r) :: n < ack.cumulativeAck + DEFAULT_ACK_BITMAP_BITS)
            && (forall n: nat :: Claims(ack, n) <==> n in Accepted(r))
            && AckedSet(ProcessAck(w, ack, at)) == Accepted(r)
  {
    ReachableSafe(t, sys);
    SnapshotExact(t, sys, at);
    BaseBelowCumulative(t, sys);
    AckedIsReceived(t, sys);
    hide Safe, Reachable, Claims, ProcessAck, AckedSet, Accepted;
  }

  lemma BaseBelowCumulative(t: Transfer, sys: System)
    requires Safe(t, sys)
    ensures var r := sys.server.received; var w := sys.client.history.w;
            && |r| < 0x1_0000_0000
            && w.base <= Snapshot(r, DEFAULT_ACK_BITMAP_BITS).cumulativeAck
            && w.next <= w.base + DEFAULT_ACK_BITMAP_BITS
  {
    var r := sys.server.received;
    assert forall i | 0 <= i < sys.client.history.w.base :: r[i];
  }
}

/** What holds of the sender between any two passes of the client's loop, and that each of its
    operations keeps it.  The client always calls mark_sent right after select_next_packet
    (src/client.cpp:517-570), so the two form one step here. */
module SenderInvariant {
  import opened Bytes
  import opened Protocol
  import opened SenderModel
  import opened SenderWindow

  ghost predicate NoDuplicates(q: seq<nat>) {
    forall j, k | 0 <= j < k < |q| :: q[j] != q[k]
  }

  /** The queue represents exactly the pending retransmissions; its other entries are ACKED. */
  ghost predicate QueueAgrees(cs: seq<Chunk>, queue: seq<nat>) {
    && NoDuplicates(queue)
    && (forall k | 0 <= k < |queue| ::
          queue[k] < |cs| && !cs[queue[k]].state.Unsent? && (cs[queue[k]].state.InFlight? ==> cs[queue[k]].pending))
    && (forall i | 0 <= i < |cs| && cs[i].pending :: cs[i].state.InFlight? && i in queue)
    && (forall i | 0 <= i < |cs| && cs[i].fastPending :: cs[i].pending)
  }

  /** Each chunk in flight knows exactly how many chunks above it are ACKED. */
  ghost predicate EvidenceExact(cs: seq<Chunk>, next: nat)
    requires next <= |cs|
  {
    forall i | 0 <= i < next && cs[i].state.InFlight? ::
      cs[i].evidence <= cs[i].laterAcked == CountAcked(cs, i + 1, next)
  }

  ghost predicate Limits(w: Window) {
    && 0 < w.logical <= w.coverage
    && w.next <= w.base + w.coverage
    && w.outstanding <= w.logical
  }

  /** Every selected chunk has been sent, every other one is untouched, and the base is a hole. */
  ghost predicate Regions(w: Window) {
    && w.base <= w.next <= w.total == |w.chunks|
    && (w.base < w.total ==> !w.chunks[w.base].state.Acked?)
    && (forall i | 0 <= i < w.next :: !w.chunks[i].state.Unsent?)
    && (forall i | w.next <= i < w.total :: w.chunks[i] == FRESH_CHUNK)
  }

  ghost predicate Inv(w: Window) {
    && Shape(w)
    && Limits(w)
    && Regions(w)
    && QueueAgrees(w.chunks, w.queue)
    && EvidenceExact(w.chunks, w.next)
  }

  lemma NewWindowInv(total: uint32, logical: uint32, coverage: uint32)
    requires logical > 0 && coverage > 0 && logical <= coverage
    ensures Inv(NewWindow(total, logical, coverage))
  {
  }

  // ----- transmission

  /** select_next_packet followed by mark_sent on what it returned. */
  function Transmit(w: Window, at: int): (Window, Option<Decision>)
    requires Shape(w)
  {
    SelectShape(w);
    var (v, d) := Select(w);
    if d.None? then (v, d) else (MarkSent(v, d.value.sequence, at), d)
  }

  lemma {:induction false} DropStaleAgrees(cs: seq<Chunk>, queue: seq<nat>)
    requires Below(queue, |cs|) && QueueAgrees(cs, queue)
    ensures QueueAgrees(cs, DropStale(cs, queue))
  {
    if queue == [] || (cs[queue[0]].state.InFlight? && cs[queue[0]].pending) {
    } else {
      TailAgrees(cs, queue);
      DropStaleAgrees(cs, queue[1..]);
    }
  }

  lemma TailAgrees(cs: seq<Chunk>, queue: seq<nat>)
    requires QueueAgrees(cs, queue) && queue != [] && !cs[queue[0]].pending
    ensures QueueAgrees(cs, queue[1..])
  {
    var q := queue[1..];
    forall i | 0 <= i < |cs| && cs[i].pending ensures i in q {
      var k :| 0 <= k < |queue| && queue[k] == i;
      assert q[k - 1] == i;
    }
  }

  lemma TakeAgrees(cs: seq<Chunk>, q: seq<nat>, c: Chunk)
    requires QueueAgrees(cs, q) && q != [] && c.state.InFlight? && !c.pending && !c.fastPending
    ensures QueueAgrees(cs[q[0] := c], q[1..])
  {
    var ds := cs[q[0] := c];
    forall i | 0 <= i < |ds| && ds[i].pending ensures i in q[1..] {
      var k :| 0 <= k < |q| && q[k] == i;
      assert q[1..][k - 1] == i;
    }
  }

  lemma EvidenceSame(cs: seq<Chunk>, ds: seq<Chunk>, next: nat)
    requires next <= |cs| == |ds| && EvidenceExact(cs, next)
    requires forall i | 0 <= i < next :: ds[i].state == cs[i].state
    requires forall i | 0 <= i < next && ds[i].state.InFlight? ::
               ds[i].laterAcked == cs[i].laterAcked && ds[i].evidence <= ds[i].laterAcked
    ensures EvidenceExact(ds, next)
  {
    forall i | 0 <= i < next && ds[i].state.InFlight?
      ensures ds[i].evidence <= ds[i].laterAcked == CountAcked(ds, i + 1, next)
    {
      CountSame(cs, ds, i + 1, next);
    }
  }

  lemma FreshInv(w: Window)
    requires Inv(w)
    ensures Inv(Fresh(w))
  {
    DropStaleAgrees(w.chunks, w.queue);
    FreshShape(w);
  }

  lemma FreshShape(w: Window)
    requires Shape(w)
    ensures Shape(Fresh(w))
  {
  }

  /** A transmission picks a chunk that is selected and not ACKED, so mark_sent never throws;
      a new chunk is the next one in order and keeps within both limits. */
  lemma TransmitDecision(w: Window)
    requires Inv(w)
    ensures var (v, d) := Select(w);
            d.Some? ==>
              && d.value.sequence < v.next
              && !v.chunks[d.value.sequence].state.Acked?
              && (d.value.retransmission <==> d.value.sequence < w.next)
              && (d.value.retransmission ==> w.chunks[d.value.sequence].state.InFlight?
                                             && w.chunks[d.value.sequence].pending)
              && (!d.value.retransmission ==> d.value.sequence == w.next && w.next < w.base + w.coverage)
  {
    FreshInv(w);
  }

  lemma TransmitInv(w: Window, at: int)
    requires Inv(w)
    ensures Inv(Transmit(w, at).0)
  {
    var v := Fresh(w);
    FreshInv(w);
    if v.queue != [] {
      ResendInv(v, at);
    } else if CanSendNew(v) {
      SendNewInv(v, at);
    }
  }

  lemma ResendInv(w: Window, at: int)
    requires Inv(w) && w.queue != [] && w.chunks[w.queue[0]].state.InFlight?
    ensures Inv(MarkSent(TakeHead(w), w.queue[0], at))
  {
    var u := MarkSent(TakeHead(w), w.queue[0], at);
    var c := Taken(w.chunks[w.queue[0]]).(lastSent := at);
    assert u.chunks == w.chunks[w.queue[0] := c];
    TakeAgrees(w.chunks, w.queue, c);
    CountSame(w.chunks, u.chunks, 0, w.next);
    EvidenceSame(w.chunks, u.chunks, w.next);
  }

  lemma SendNewInv(w: Window, at: int)
    requires Inv(w) && w.queue == [] && CanSendNew(w)
    ensures Inv(MarkSent(Extend(w), w.next, at))
  {
    var u := MarkSent(Extend(w), w.next, at);
    SendNewShape(w, at);
    SendNewEvidence(w, u.chunks);
    hide Shape, EvidenceExact;
  }

  lemma SendNewShape(w: Window, at: int)
    requires Shape(w) && w.next < w.total
    ensures Shape(MarkSent(Extend(w), w.next, at))
  {
    var u := MarkSent(Extend(w), w.next, at);
    CountSame(w.chunks, u.chunks, 0, w.next);
    CountSplit(u.chunks, 0, w.next, w.next + 1);
  }

  lemma SendNewEvidence(w: Window, ds: seq<Chunk>)
    requires w.next < |w.chunks| == |ds| && EvidenceExact(w.chunks, w.next)
    requires ds == w.chunks[w.next := ds[w.next]]
    requires ds[w.next].state.InFlight? && ds[w.next].laterAcked == ds[w.next].evidence == 0
    ensures EvidenceExact(ds, w.next + 1)
  {
    var n := w.next;
    forall i | 0 <= i < n + 1 && ds[i].state.InFlight?
      ensures ds[i].evidence <= ds[i].laterAcked == CountAcked(ds, i + 1, n + 1)
    {
      if i < n {
        CountSplit(ds, i + 1, n, n + 1);
        CountSame(w.chunks, ds, i + 1, n);
      }
    }
  }

  // ----- acknowledgement

  lemma {:induction false} FastQueueMembers(cs: seq<Chunk>, lo: nat, hi: nat, now: int)
    requires lo <= hi <= |cs|
    ensures NoDuplicates(FastQueue(cs, lo, hi, now))
    ensures forall i | lo <= i < hi ::
              i in FastQueue(cs, lo, hi, now)
              <==> cs[i].state.InFlight? && !cs[i].pending && FastDue(cs[i], CountAcked(cs, i + 1, hi), now)
    decreases hi - lo
  {
    if lo < hi {
      FastQueueMembers(cs, lo + 1, hi, now);
    }
  }

  lemma AckAgrees(w: Window, s: iset<nat>)
    requires Shape(w) && QueueAgrees(w.chunks, w.queue)
    ensures QueueAgrees(AckAll(w, s).chunks, w.queue)
  {
  }

  lemma AppendAgrees(cs: seq<Chunk>, ds: seq<Chunk>, q: seq<nat>, added: seq<nat>)
    requires QueueAgrees(cs, q) && NoDuplicates(added) && |cs| == |ds|
    requires forall i | 0 <= i < |cs| :: ds[i].state == cs[i].state
    requires forall k | 0 <= k < |added| ::
               added[k] < |cs| && cs[added[k]].state.InFlight? && !cs[added[k]].pending && ds[added[k]].pending
    requires forall i | 0 <= i < |cs| && i !in added ::
               ds[i].pending == cs[i].pending && ds[i].fastPending == cs[i].fastPending
    ensures QueueAgrees(ds, q + added)
  {
    var r := q + added;
    forall j, k | 0 <= j < |q| && 0 <= k < |added| ensures q[j] != added[k] {
      assert cs[q[j]].state.InFlight? ==> cs[q[j]].pending;
    }
    forall i | 0 <= i < |ds| && ds[i].pending ensures i in r {
      assert cs[i].pending ==> i in q;
    }
  }

  /** CountAcked only grows when more chunks are ACKED. */
  lemma {:induction false} CountGrows(cs: seq<Chunk>, ds: seq<Chunk>, lo: nat, hi: nat)
    requires hi <= |cs| && hi <= |ds|
    requires forall i | lo <= i < hi && cs[i].state.Acked? :: ds[i].state.Acked?
    ensures CountAcked(cs, lo, hi) <= CountAcked(ds, lo, hi)
    decreases hi - lo
  {
    if lo < hi {
      CountGrows(cs, ds, lo + 1, hi);
    }
  }

  /** The middle of process_ack: claimed chunks marked, base advanced, evidence not yet scanned. */
  ghost function Marked(w: Window, ack: AckPayload): (v: Window)
    requires Shape(w)
    ensures v.next == w.next && |v.chunks| == |w.chunks| && v.base <= v.next
  {
    AdvanceWithin(w, ClaimedSet(ack));
    AdvanceBase(AckAll(w, ClaimedSet(ack)))
  }

  lemma MarkedStates(w: Window, ack: AckPayload)
    requires Shape(w)
    ensures var v := Marked(w, ack);
            && Shape(v)
            && w.base <= v.base
            && (v.base < w.total ==> !v.chunks[v.base].state.Acked?)
            && (forall i: nat | i < w.total ::
                  v.chunks[i] == if i < w.next && Claims(ack, i) then AckChunk(w.chunks[i]) else w.chunks[i])
  {
    var v := Marked(w, ack);
    assert forall i: nat | i < w.total ::
        v.chunks[i] == if i < w.next && Claims(ack, i) then AckChunk(w.chunks[i]) else w.chunks[i];
    assert forall i | 0 <= i < w.base :: v.chunks[i].state.Acked?;
  }

  lemma ScannedStates(v: Window, now: int)
    requires Shape(v)
    ensures var u := ScanEvidence(v, now);
            && Shape(u)
            && (forall i | 0 <= i < v.total :: u.chunks[i].state == v.chunks[i].state)
  {
    CountSame(v.chunks, ScanEvidence(v, now).chunks, 0, v.next);
    hide CountAcked, FastDue;
  }

  /** An ACK changes states by a set union: the selected chunks that it claims become ACKED. */
  lemma ProcessAckStates(w: Window, ack: AckPayload, now: int)
    requires Shape(w)
    ensures var u := ProcessAck(w, ack, now);
            && Shape(u)
            && (forall i: nat | i < w.total :: u.chunks[i].state
                  == if i < w.next && Claims(ack, i) then Acked else w.chunks[i].state)
  {
    MarkedStates(w, ack);
    ScannedStates(Marked(w, ack), now);
  }

  lemma ProcessAckInv(w: Window, ack: AckPayload, now: int)
    requires Inv(w)
    ensures Inv(ProcessAck(w, ack, now))
  {
    MarkedInv(w, ack);
    ScanExact(w, Marked(w, ack), now);
    ScanInv(Marked(w, ack), now);
  }

  /** After the marking everything but the evidence is in order. */
  lemma MarkedInv(w: Window, ack: AckPayload)
    requires Inv(w)
    ensures var v := Marked(w, ack);
            && Shape(v) && Limits(v) && Regions(v) && QueueAgrees(v.chunks, v.queue)
            && EvidenceBelow(w)
            && (forall i | 0 <= i < |w.chunks| :: v.chunks[i] == AckChunk(w.chunks[i]) || v.chunks[i] == w.chunks[i])
  {
    var v := Marked(w, ack);
    MarkedStates(w, ack);
    MarkedLimits(w, v);
    MarkedRegions(w, v);
    AckAgrees(w, ClaimedSet(ack));
  }

  lemma ScanInv(v: Window, now: int)
    requires Shape(v) && Limits(v) && Regions(v) && QueueAgrees(v.chunks, v.queue)
    requires EvidenceExact(ScanEvidence(v, now).chunks, v.next)
    ensures Inv(ScanEvidence(v, now))
  {
    ScannedStates(v, now);
    ScanRegions(v, now);
    ScanAgrees(v, now);
    hide Shape, Regions, QueueAgrees, EvidenceExact;
  }

  lemma MarkedRegions(w: Window, v: Window)
    requires Regions(w) && Shape(v) && v.total == w.total && v.next == w.next
    requires v.base < v.total ==> !v.chunks[v.base].state.Acked?
    requires forall i | 0 <= i < w.total ::
               v.chunks[i] == w.chunks[i] || (i < w.next && v.chunks[i] == AckChunk(w.chunks[i]))
    ensures Regions(v)
  {
  }

  lemma ScanRegions(v: Window, now: int)
    requires Regions(v)
    ensures Regions(ScanEvidence(v, now))
  {
    hide CountAcked, FastQueue, FastDue;
  }

  lemma MarkedLimits(w: Window, v: Window)
    requires Shape(w) && Shape(v) && Limits(w)
    requires v.total == w.total && v.logical == w.logical && v.coverage == w.coverage && v.next == w.next
    requires w.base <= v.base
    requires forall i | 0 <= i < w.next && w.chunks[i].state.Acked? :: v.chunks[i].state.Acked?
    ensures Limits(v)
  {
    CountGrows(w.chunks, v.chunks, 0, w.next);
  }

  lemma ScanExact(w: Window, v: Window, now: int)
    requires EvidenceBelow(w) && Shape(v) && v.next == w.next && |v.chunks| == |w.chunks|
    requires forall i | 0 <= i < |w.chunks| ::
               v.chunks[i] == AckChunk(w.chunks[i]) || v.chunks[i] == w.chunks[i]
    ensures EvidenceExact(ScanEvidence(v, now).chunks, v.next)
  {
    var ds := ScanEvidence(v, now).chunks;
    forall i | 0 <= i < v.next && ds[i].state.InFlight?
      ensures ds[i].evidence <= ds[i].laterAcked == CountAcked(ds, i + 1, v.next)
    {
      ScanExactAt(w.chunks, v.chunks, v.base, v.next, now, i);
    }
  }

  lemma ScanExactAt(cs: seq<Chunk>, vs: seq<Chunk>, base: nat, next: nat, now: int, i: nat)
    requires base <= i < next <= |cs| == |vs|
    requires cs[i].evidence <= cs[i].laterAcked == CountAcked(cs, i + 1, next)
    requires vs[i].state.InFlight? && vs[i] == cs[i]
    requires forall j | 0 <= j < |cs| && cs[j].state.Acked? :: vs[j].state.Acked?
    ensures var d := Witnessed(vs, base, next, now)[i];
            d.evidence <= d.laterAcked == CountAcked(Witnessed(vs, base, next, now), i + 1, next)
  {
    var ws := Witnessed(vs, base, next, now);
    assert ws[i] == Witness(vs[i], CountAcked(vs, i + 1, next), now);
    assert forall j | 0 <= j < |vs| :: ws[j].state == vs[j].state;
    hide Witnessed, CountAcked;
    CountSame(vs, ws, i + 1, next);
    CountGrows(cs, vs, i + 1, next);
  }

  ghost predicate EvidenceBelow(w: Window) {
    w.next <= |w.chunks| && EvidenceExact(w.chunks, w.next)
  }

  lemma ScanAgrees(v: Window, now: int)
    requires v.base <= v.next <= |v.chunks| && QueueAgrees(v.chunks, v.queue)
    ensures QueueAgrees(ScanEvidence(v, now).chunks, ScanEvidence(v, now).queue)
  {
    var added := FastQueue(v.chunks, v.base, v.next, now);
    FastQueueMembers(v.chunks, v.base, v.next, now);
    forall k | 0 <= k < |added|
      ensures v.chunks[added[k]].state.InFlight? && !v.chunks[added[k]].pending
      ensures ScanEvidence(v, now).chunks[added[k]].pending
    {
      assert added[k] in added;
    }
    AppendAgrees(v.chunks, ScanEvidence(v, now).chunks, v.queue, added);
    assert ScanEvidence(v, now).queue == v.queue + added;
  }

  // ----- timeouts

  lemma {:induction false} TimeoutQueueMembers(cs: seq<Chunk>, lo: nat, hi: nat, now: int, rto: int)
    requires lo <= hi <= |cs|
    ensures NoDuplicates(TimeoutQueue(cs, lo, hi, now, rto))
    ensures forall i | lo <= i < hi :: i in TimeoutQueue(cs, lo, hi, now, rto) <==> TimedOut(cs[i], now, rto)
    decreases hi - lo
  {
    if lo < hi {
      TimeoutQueueMembers(cs, lo + 1, hi, now, rto);
    }
  }

  lemma CheckTimeoutsInv(w: Window, now: int, rto: int)
    requires Inv(w)
    ensures Inv(CheckTimeouts(w, now, rto))
  {
    var u := CheckTimeouts(w, now, rto);
    TimeoutAgrees(w, now, rto);
    CountSame(w.chunks, u.chunks, 0, w.next);
    EvidenceSame(w.chunks, u.chunks, w.next);
    hide CountAcked, QueueAgrees, EvidenceExact, TimeoutQueue;
  }

  lemma TimeoutAgrees(w: Window, now: int, rto: int)
    requires w.base <= w.next <= |w.chunks| && QueueAgrees(w.chunks, w.queue)
    ensures QueueAgrees(CheckTimeouts(w, now, rto).chunks, CheckTimeouts(w, now, rto).queue)
  {
    var added := TimeoutQueue(w.chunks, w.base, w.next, now, rto);
    TimeoutQueueMembers(w.chunks, w.base, w.next, now, rto);
    forall k | 0 <= k < |added| ensures TimedOut(w.chunks[added[k]], now, rto) {
      assert added[k] in added;
    }
    hide TimeoutQueue, QueueAgrees;
    AppendAgrees(w.chunks, CheckTimeouts(w, now, rto).chunks, w.queue, added);
  }
}

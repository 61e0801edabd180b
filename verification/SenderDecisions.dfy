/** Exactly what the sender decides: which chunk is selected, which chunks an ACK queues for a fast
    retransmission, and which a timeout check queues.  Counts are cardinalities of sets, times and
    thresholds are numbers. */
module SenderDecisions {
  import opened Bytes
  import opened Protocol
  import opened SenderModel
  import opened SenderWindow
  import opened SenderInvariant
  import opened SenderProperties
  import opened SenderRuns

  // ----- counting

  ghost function AckedIn(cs: seq<Chunk>, lo: nat, hi: nat): set<nat>
    requires hi <= |cs|
  {
    set i: nat | lo <= i < hi && cs[i].state.Acked?
  }

  lemma AckedInStep(cs: seq<Chunk>, lo: nat, hi: nat)
    requires lo < hi <= |cs|
    ensures lo !in AckedIn(cs, lo + 1, hi)
    ensures AckedIn(cs, lo, hi) == if cs[lo].state.Acked? then {lo} + AckedIn(cs, lo + 1, hi) else AckedIn(cs, lo + 1, hi)
  {
  }

  lemma {:induction false} CountIsCardinality(cs: seq<Chunk>, lo: nat, hi: nat)
    requires lo <= hi <= |cs|
    ensures |AckedIn(cs, lo, hi)| == CountAcked(cs, lo, hi)
    decreases hi - lo
  {
    if lo == hi {
      assert AckedIn(cs, lo, hi) == {};
    } else {
      hide AckedIn;
      CountIsCardinality(cs, lo + 1, hi);
      AckedInStep(cs, lo, hi);
    }
  }

  /** The selected chunks that are not ACKED. */
  ghost function Open(w: Window): set<nat>
    requires w.next <= |w.chunks|
  {
    set i: nat | i < w.next && !w.chunks[i].state.Acked?
  }

  /** The ACKED chunks above `s`. */
  ghost function Above(w: Window, s: nat): set<nat> {
    set k: nat | k in AckedSet(w) && k > s
  }

  lemma {:induction false} UnackedIsCardinality(cs: seq<Chunk>, hi: nat)
    requires hi <= |cs|
    ensures |set i: nat | i < hi && !cs[i].state.Acked?| == hi - CountAcked(cs, 0, hi)
  {
    var all := set i: nat | i < hi && !cs[i].state.Acked?;
    if hi == 0 {
      assert all == {};
    } else {
      UnackedIsCardinality(cs, hi - 1);
      CountSplit(cs, 0, hi - 1, hi);
      var rest := set i: nat | i < hi - 1 && !cs[i].state.Acked?;
      assert all == if cs[hi - 1].state.Acked? then rest else rest + {hi - 1};
    }
  }

  lemma OutstandingIsOpen(w: Window)
    requires Shape(w)
    ensures |Open(w)| == w.outstanding
  {
    UnackedIsCardinality(w.chunks, w.next);
  }

  lemma AboveIsCount(w: Window, s: nat)
    requires Shape(w) && s < w.next
    ensures |Above(w, s)| == CountAcked(w.chunks, s + 1, w.next)
  {
    CountIsCardinality(w.chunks, s + 1, w.next);
    assert Above(w, s) == AckedIn(w.chunks, s + 1, w.next);
  }

  // ----- selection

  /** A retransmission of the chunk is asked for. */
  ghost predicate Asked(w: Window, s: nat) {
    s < |w.chunks| && w.chunks[s].state.InFlight? && w.chunks[s].pending
  }

  lemma {:induction false} DropStaleIsSuffix(cs: seq<Chunk>, queue: seq<nat>) returns (k: nat)
    requires Below(queue, |cs|)
    ensures k <= |queue| && DropStale(cs, queue) == queue[k..]
    ensures forall j | 0 <= j < k :: !(cs[queue[j]].state.InFlight? && cs[queue[j]].pending)
    ensures k < |queue| ==> cs[queue[k]].state.InFlight? && cs[queue[k]].pending
  {
    k := 0;
    if queue != [] && !(cs[queue[0]].state.InFlight? && cs[queue[0]].pending) {
      var m := DropStaleIsSuffix(cs, queue[1..]);
      k := m + 1;
      assert forall j | 1 <= j < k :: queue[j] == queue[1..][j - 1];
    }
  }

  /** Some chunk is asked for exactly when a live entry is left in the queue. */
  lemma AskedIsQueued(w: Window)
    requires Inv(w)
    ensures Shape(w) && (DropStale(w.chunks, w.queue) == [] <==> forall s: nat :: !Asked(w, s))
  {
    hide CountAcked;
    var k := DropStaleIsSuffix(w.chunks, w.queue);
    if k < |w.queue| {
      assert Asked(w, w.queue[k]);
    }
    forall s: nat | Asked(w, s) ensures DropStale(w.chunks, w.queue) != [] {
      var j :| 0 <= j < |w.queue| && w.queue[j] == s;
      assert k <= j;
    }
  }

  /** What is selected: a retransmission exactly when one is asked for; otherwise a new chunk exactly
      when one is left, fewer than the window's are unACKed and the span is short of the coverage; and
      nothing exactly when none of this holds. */
  lemma SelectionExactly(w: Window)
    requires Inv(w)
    ensures Shape(w)
    ensures var d := Select(w).1; var asked := exists s: nat :: Asked(w, s);
            var room := w.next < w.total && |Open(w)| < w.logical && w.next - w.base < w.coverage;
            && ((d.Some? && d.value.retransmission) <==> asked)
            && (d == Some(Decision(w.next, false, false)) <==> !asked && room)
            && (d == None <==> !asked && !room)
  {
    AskedIsQueued(w);
    OutstandingIsOpen(w);
    hide Inv, CountAcked, Asked, Open, DropStale;
  }

  /** Which chunk is retransmitted, and all that this changes: the first in the queue that is asked
      for, reported as fast if SACK evidence queued it; everything before it leaves the queue, and the
      evidence known now is what the next fast retransmission has to exceed. */
  lemma RetransmissionExactly(w: Window) returns (k: nat)
    requires Inv(w) && exists s: nat :: Asked(w, s)
    ensures Shape(w) && k < |w.queue| && w.queue[k] < |w.chunks|
    ensures forall j | 0 <= j < k :: !Asked(w, w.queue[j])
    ensures var s := w.queue[k]; var c := w.chunks[s];
            && Asked(w, s)
            && Select(w) == (w.(queue := w.queue[k + 1..],
                                chunks := w.chunks[s := Chunk(InFlight, c.lastSent, false, false, true, c.laterAcked, c.laterAcked)]),
                             Some(Decision(s, true, c.fastPending)))
  {
    AskedIsQueued(w);
    k := DropStaleIsSuffix(w.chunks, w.queue);
    hide CountAcked, DropStale, EvidenceExact, QueueAgrees, Limits, Regions;
  }

  /** Otherwise the queue is left empty, and a new chunk moves the counters alone. */
  lemma NewChunkExactly(w: Window)
    requires Inv(w) && forall s: nat :: !Asked(w, s)
    ensures Shape(w)
    ensures var (v, d) := Select(w);
            v == if d.Some? then w.(queue := [], next := w.next + 1, outstanding := w.outstanding + 1) else w.(queue := [])
  {
    AskedIsQueued(w);
    hide CountAcked, DropStale, EvidenceExact, QueueAgrees, Limits, Regions;
  }

  // ----- acknowledgement

  /** The chunks that an ACK claims, read off its fields. */
  lemma ClaimsExactly(ack: AckPayload, s: nat)
    ensures var k := s - ack.bitmapBase;
            Claims(ack, s) <==>
              || s < ack.cumulativeAck
              || (&& 0 <= k < ack.bitmapBits && k < 8 * |ack.bitmap| && s < ack.largestPlusOne
                  && (ack.bitmap[k / 8] / Pow2(k % 8)) % 2 == 1)
  {
    var k := s - ack.bitmapBase;
    if 0 <= k < 8 * |ack.bitmap| {
      BitIs(ack.bitmap[k / 8], k % 8);
    }
    hide Bit, Pow2;
  }

  // ----- fast retransmission

  /** SACK evidence calls for a fast retransmission of a chunk in state `c` above which `n` chunks are
      ACKED now and `m` were before: something is new, at least three are new since its last
      retransmission, and it was never retransmitted or not within the last 250 ms. */
  predicate EvidenceDue(c: Chunk, m: nat, n: nat, at: int) {
    n > m && n - c.evidence >= 3 && (!c.fastRetransmitted || at - c.lastSent >= 250_000_000)
  }

  /** What an ACK makes of each chunk that is in flight and not ACKED by it: it records how many are
      ACKED above, and the chunk is queued for a fast retransmission exactly when that is due and it
      is not queued yet. */
  lemma FastExactly(w: Window, ack: AckPayload, at: int, s: nat)
    requires Inv(w) && s < w.next && w.chunks[s].state.InFlight?
    requires s !in AckedSet(ProcessAck(w, ack, at))
    ensures var u := ProcessAck(w, ack, at); var c := w.chunks[s];
            var n := |Above(u, s)|; var due := !c.pending && EvidenceDue(c, |Above(w, s)|, n, at);
            && s < |u.chunks|
            && u.chunks[s] == Chunk(InFlight, c.lastSent, c.pending || due, c.fastPending || due, c.fastRetransmitted || due,
                                    n, c.evidence)
            && (!c.pending ==> (s in u.queue <==> due))
  {
    var u := ProcessAck(w, ack, at);
    ProcessAckInv(w, ack, at);
    ProcessAckStates(w, ack, at);
    AckedOrWitnessed(w, ack, at, s);
    AboveIsCount(w, s);
    AboveIsCount(u, s);
    KnowsAbove(w, s);
    KnowsAbove(u, s);
    hide ProcessAck, AckedSet, Above, CountAcked, Claims, Shape, Limits, Regions, EvidenceExact;
  }

  lemma KnowsAbove(w: Window, s: nat)
    requires Inv(w) && s < w.next && w.chunks[s].state.InFlight?
    ensures w.chunks[s].laterAcked == CountAcked(w.chunks, s + 1, w.next)
    ensures w.chunks[s].evidence <= w.chunks[s].laterAcked
  {
  }

  predicate Descends(q: seq<nat>) { forall i, j | 0 <= i < j < |q| :: q[i] > q[j] }

  predicate Ascends(q: seq<nat>) { forall i, j | 0 <= i < j < |q| :: q[i] < q[j] }

  lemma {:induction false} FastQueueDescends(cs: seq<Chunk>, lo: nat, hi: nat, now: int)
    requires lo <= hi <= |cs|
    ensures Descends(FastQueue(cs, lo, hi, now))
    decreases hi - lo
  {
    if lo < hi {
      FastQueueDescends(cs, lo + 1, hi, now);
    }
  }

  /** An ACK appends to the queue, highest chunk first, and takes nothing out; apart from it the base,
      the counter and the chunks are all that changes. */
  lemma FastOrder(w: Window, ack: AckPayload, at: int)
    requires Inv(w)
    ensures var u := ProcessAck(w, ack, at); var q := u.queue; var n := |w.queue|;
            && n <= |q| && q[..n] == w.queue && Descends(q[n..])
            && u == w.(base := u.base, outstanding := u.outstanding, chunks := u.chunks, queue := u.queue)
  {
    MarkedStates(w, ack);
    var v := Marked(w, ack);
    FastQueueDescends(v.chunks, v.base, v.next, at);
    hide FastQueue, CountAcked, Claims, Inv, Descends;
    var added := FastQueue(v.chunks, v.base, v.next, at);
    assert (w.queue + added)[|w.queue|..] == added;
  }

  // ----- timeouts

  /** What a timeout check makes of each chunk: it is queued exactly when it has been selected, is in
      flight, not queued yet, and was sent the timeout ago or earlier; the client's is 500 ms. */
  lemma TimeoutExactly(w: Window, at: int, rto: int, s: nat)
    requires Inv(w) && s < |w.chunks|
    ensures DEFAULT_RTO == 500_000_000
    ensures var u := CheckTimeouts(w, at, rto); var c := w.chunks[s];
            var late := w.base <= s < w.next && c.state.InFlight? && at - c.lastSent >= rto;
            && |u.chunks| == |w.chunks|
            && (u.chunks[s].pending <==> c.pending || late)
            && u.chunks[s] == (if late && !c.pending then c.(pending := true, fastPending := false) else c)
            && (c.state.InFlight? ==> (s in u.queue <==> c.pending || late))
            && u == w.(chunks := u.chunks, queue := u.queue)
  {
    CheckTimeoutsInv(w, at, rto);
    hide CountAcked, TimeoutQueue, Limits, EvidenceExact;
  }

  lemma AscendsFrom(x: nat, q: seq<nat>)
    requires Ascends(q) && forall j | 0 <= j < |q| :: x < q[j]
    ensures Ascends([x] + q)
  {
    forall i, j | 0 <= i < j < |[x] + q| ensures ([x] + q)[i] < ([x] + q)[j] {
      assert ([x] + q)[j] == q[j - 1];
    }
  }

  lemma {:induction false} TimeoutQueueAscends(cs: seq<Chunk>, lo: nat, hi: nat, now: int, rto: int)
    requires lo <= hi <= |cs|
    ensures Ascends(TimeoutQueue(cs, lo, hi, now, rto))
    decreases hi - lo
  {
    if lo < hi {
      TimeoutQueueAscends(cs, lo + 1, hi, now, rto);
      var rest := TimeoutQueue(cs, lo + 1, hi, now, rto);
      hide Ascends;
      AscendsFrom(lo, rest);
      assert [] + rest == rest;
    }
  }

  /** A check appends to the queue, lowest chunk first, and takes nothing out. */
  lemma TimeoutOrder(w: Window, at: int, rto: int)
    requires Inv(w)
    ensures var q := CheckTimeouts(w, at, rto).queue; var n := |w.queue|;
            n <= |q| && q[..n] == w.queue && Ascends(q[n..])
  {
    TimeoutQueueAscends(w.chunks, w.base, w.next, at, rto);
    hide TimeoutQueue, CountAcked, Ascends, Inv;
    SelectedWithin(w);
    var added := TimeoutQueue(w.chunks, w.base, w.next, at, rto);
    assert (w.queue + added)[|w.queue|..] == added;
  }

  lemma SelectedWithin(w: Window)
    requires Inv(w)
    ensures w.base <= w.next <= |w.chunks|
  {
  }

  // ----- over runs

  /** A retransmission at this time keeps its distance from the last transmission of its chunk. */
  ghost predicate Apart(h: History, d: Option<Decision>, at: int) {
    d.Some? && d.value.retransmission ==>
      && d.value.sequence < |h.sent| && h.sent[d.value.sequence] != []
      && var times := h.sent[d.value.sequence];
         && (!d.value.fast ==> at - times[|times| - 1] >= 500_000_000)
         && (d.value.fast && |times| > 1 ==> at - times[|times| - 1] >= 250_000_000)
  }

  /** A retransmission without SACK evidence comes at least 500 ms after the last transmission of its
      chunk, and one with it at least 250 ms after the last unless that was the first. */
  lemma RetransmissionTimes(h: History, at: int)
    requires HistoryInv(h) && h.clock <= at
    ensures Sized(h)
    ensures Apart(h, Transmit(h.w, at).1, at)
  {
    if Transmit(h.w, at).1.Some? && Transmit(h.w, at).1.value.retransmission {
      TransmitTaken(h.w, at);
      TransmitDecision(h.w);
      var s := Transmit(h.w, at).1.value.sequence;
      assert ChunkHistory(h.w.chunks[s], h.sent[s], h.fast[s], h.clock, h.w.coverage);
    }
  }

  lemma RetransmissionTimesInRuns(total: uint32, logical: uint32, coverage: uint32, now: int, events: seq<Event>, at: int)
    requires logical > 0 && coverage > 0 && logical <= coverage && Timed(now, events)
    ensures HistoryInv(NewHistory(total, logical, coverage, now))
    ensures var h := Run(NewHistory(total, logical, coverage, now), events);
            h.clock <= at ==> Sized(h) && Apart(h, Transmit(h.w, at).1, at)
  {
    NewHistoryInv(total, logical, coverage, now);
    var h := Run(NewHistory(total, logical, coverage, now), events);
    if h.clock <= at {
      hide HistoryInv, Transmit;
      RetransmissionTimes(h, at);
    }
  }

  /** Along runs `fastRetransmitted` and the recorded evidence mean what they say: a chunk in flight
      that is not queued was retransmitted exactly when the flag is set, and until then three ACKED
      chunks above it are enough. */
  lemma NeverRetransmitted(h: History, s: nat)
    requires HistoryInv(h) && s < h.w.next && h.w.chunks[s].state.InFlight? && !h.w.chunks[s].pending
    ensures s < |h.sent| && h.sent[s] != []
    ensures |h.sent[s]| == 1 <==> !h.w.chunks[s].fastRetransmitted
    ensures |h.sent[s]| == 1 ==> h.w.chunks[s].evidence == 0
    ensures h.w.chunks[s].lastSent == h.sent[s][|h.sent[s]| - 1]
  {
    assert ChunkHistory(h.w.chunks[s], h.sent[s], h.fast[s], h.clock, h.w.coverage);
  }

  // ----- construction

  /** A new window has the limits it was given, and nothing selected, queued or ACKED. */
  lemma NewWindowExactly(total: uint32, logical: uint32, coverage: uint32)
    ensures var w := NewWindow(total, logical, coverage);
            && w.total == |w.chunks| == total && w.logical == logical && w.coverage == coverage
            && w.base == w.next == w.outstanding == 0 && w.queue == []
            && forall i | 0 <= i < total :: w.chunks[i] == Chunk(Unsent, 0, false, false, false, 0, 0)
  {
  }
}

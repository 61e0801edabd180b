/** Whole runs of the sender under a monotone clock, with any ACK payloads at any times: how often
    and how closely a chunk can be transmitted. */
module SenderRuns {
  import opened Bytes
  import opened Protocol
  import opened SenderModel
  import opened SenderWindow
  import opened SenderInvariant

  datatype Event =
    | Transmission(at: int)
    | AckArrival(ack: AckPayload, at: int)
    | TimeoutCheck(at: int)

  /** The window, the time of the last event, when each chunk was transmitted, and how many of
      those transmissions were fast retransmissions. */
  datatype History = History(w: Window, clock: int, sent: seq<seq<int>>, fast: seq<nat>)

  function NewHistory(total: uint32, logical: uint32, coverage: uint32, now: int): History {
    History(NewWindow(total, logical, coverage), now, seq(total, _ => []), seq(total, _ => 0))
  }

  ghost predicate Sized(h: History) {
    Shape(h.w) && |h.sent| == |h.fast| == h.w.total
  }

  function Record(h: History, d: Decision, at: int): History
    requires d.sequence < |h.sent| == |h.fast|
  {
    h.(sent := h.sent[d.sequence := h.sent[d.sequence] + [at]],
       fast := h.fast[d.sequence := h.fast[d.sequence] + (if d.fast then 1 else 0)])
  }

  ghost function Step(h: History, e: Event): History
    requires Sized(h)
  {
    match e
    case Transmission(at) =>
      var (u, d) := Transmit(h.w, at);
      var h' := h.(w := u, clock := at);
      if d.None? then h'
      else
        SelectShape(h.w);
        Record(h', d.value, at)
    case AckArrival(ack, at) => h.(w := ProcessAck(h.w, ack, at), clock := at)
    case TimeoutCheck(at) => h.(w := CheckTimeouts(h.w, at, DEFAULT_RTO), clock := at)
  }

  // ----- the invariant of one chunk's history

  ghost predicate Spaced(times: seq<int>) {
    && (forall k | 0 <= k < |times| - 1 :: times[k] <= times[k + 1])
    && (forall k | 1 <= k < |times| - 1 :: times[k + 1] - times[k] >= REPEATED_FAST_RETRANSMIT_DELAY)
  }

  /** Three more chunks must be ACKED for each fast retransmission; from the first retransmission on a
      chunk is queued only when the delay has passed, and without evidence only when the timeout has. */
  ghost predicate ChunkHistory(c: Chunk, times: seq<int>, fast: nat, clock: int, coverage: nat) {
    && Spaced(times)
    && (c.state.Unsent? <==> times == [])
    && (times != [] ==> times[|times| - 1] <= clock)
    && (c.state.Unsent? ==> fast == 0)
    && 3 * fast <= coverage - 1
    && (c.state.InFlight? ==>
          && times[|times| - 1] == c.lastSent
          && 3 * fast <= c.evidence
          && (c.fastPending ==> c.laterAcked >= c.evidence + FAST_RETRANSMIT_THRESHOLD)
          && (|times| == 1 ==> c.evidence == 0)
          && (|times| >= 2 ==> c.fastRetransmitted)
          && (c.fastRetransmitted && !c.fastPending ==> |times| >= 2)
          && (c.pending && !c.fastPending ==> clock - c.lastSent >= DEFAULT_RTO)
          && (|times| >= 2 && c.pending ==> clock - c.lastSent >= REPEATED_FAST_RETRANSMIT_DELAY))
  }

  ghost predicate HistoryInv(h: History) {
    && Sized(h) && Inv(h.w)
    && forall i | 0 <= i < h.w.total :: ChunkHistory(h.w.chunks[i], h.sent[i], h.fast[i], h.clock, h.w.coverage)
  }

  lemma NewHistoryInv(total: uint32, logical: uint32, coverage: uint32, now: int)
    requires logical > 0 && coverage > 0 && logical <= coverage
    ensures HistoryInv(NewHistory(total, logical, coverage, now))
  {
    NewWindowInv(total, logical, coverage);
  }

  // ----- one step

  /** A retransmission: the evidence it leaves behind covers one more fast retransmission. */
  lemma ResentChunk(c: Chunk, times: seq<int>, fast: nat, clock: int, coverage: nat, at: int)
    requires ChunkHistory(c, times, fast, clock, coverage)
    requires c.state.InFlight? && c.pending && clock <= at
    requires c.evidence <= c.laterAcked <= coverage - 1
    ensures ChunkHistory(Taken(c).(state := InFlight, lastSent := at), times + [at],
                         fast + (if c.fastPending then 1 else 0), at, coverage)
  {
    var t := times + [at];
    assert forall k | 0 <= k < |times| :: t[k] == times[k];
  }

  lemma LaterClock(c: Chunk, times: seq<int>, fast: nat, clock: int, coverage: nat, at: int)
    requires ChunkHistory(c, times, fast, clock, coverage) && clock <= at
    ensures ChunkHistory(c, times, fast, at, coverage)
  {
  }

  lemma AckedChunk(c: Chunk, times: seq<int>, fast: nat, clock: int, coverage: nat, at: int)
    requires ChunkHistory(c, times, fast, clock, coverage) && clock <= at && !c.state.Unsent?
    ensures ChunkHistory(AckChunk(c), times, fast, at, coverage)
  {
  }

  lemma WitnessedChunk(c: Chunk, times: seq<int>, fast: nat, clock: int, coverage: nat, later: nat, at: int)
    requires ChunkHistory(c, times, fast, clock, coverage) && clock <= at
    requires c.state.InFlight? && c.laterAcked <= later
    requires c.fastPending ==> c.pending
    ensures ChunkHistory(Witness(c, later, at), times, fast, at, coverage)
  {
  }

  lemma TransmissionKeeps(h: History, at: int)
    requires HistoryInv(h) && h.clock <= at
    ensures HistoryInv(Step(h, Transmission(at)))
  {
    TransmitInv(h.w, at);
    SelectShape(h.w);
    TransmitDecision(h.w);
    var h' := Step(h, Transmission(at));
    assert Sized(h') && h'.w.total == h.w.total && h'.w.coverage == h.w.coverage && h'.clock == at;
    forall i: nat | i < h.w.total
      ensures ChunkHistory(h'.w.chunks[i], h'.sent[i], h'.fast[i], at, h.w.coverage)
    {
      TransmissionKeepsChunk(h, at, i);
    }
  }

  lemma TransmissionKeepsChunk(h: History, at: int, i: nat)
    requires HistoryInv(h) && h.clock <= at && i < h.w.total
    requires Sized(Step(h, Transmission(at)))
    ensures var h' := Step(h, Transmission(at));
            i < h'.w.total ==> ChunkHistory(h'.w.chunks[i], h'.sent[i], h'.fast[i], at, h.w.coverage)
  {
    var w := h.w;
    var d := Transmit(w, at).1;
    TransmitDecision(w);
    assert ChunkHistory(w.chunks[i], h.sent[i], h.fast[i], h.clock, w.coverage);
    if d.None? || i != d.value.sequence {
      TransmitOthers(w, at, i);
      LaterClock(w.chunks[i], h.sent[i], h.fast[i], h.clock, w.coverage, at);
    } else if d.value.retransmission {
      TransmitTaken(w, at);
      LaterWithinCoverage(w, i);
      ResentChunk(w.chunks[i], h.sent[i], h.fast[i], h.clock, w.coverage, at);
    } else {
      TransmitNew(w, at);
      assert h.sent[i] + [at] == [at];
    }
  }

  lemma TransmitNew(w: Window, at: int)
    requires Inv(w) && Transmit(w, at).1.Some? && !Transmit(w, at).1.value.retransmission
    ensures var d := Transmit(w, at).1.value;
            && d.sequence == w.next < w.total && !d.fast
            && w.chunks[w.next] == FRESH_CHUNK
            && Transmit(w, at).0.chunks[w.next] == FRESH_CHUNK.(state := InFlight, lastSent := at)
  {
    TransmitDecision(w);
  }

  lemma TransmitOthers(w: Window, at: int, i: nat)
    requires Inv(w) && i < w.total
    requires var d := Transmit(w, at).1; d.None? || i != d.value.sequence
    ensures Transmit(w, at).0.chunks[i] == w.chunks[i]
  {
  }

  lemma TransmitTaken(w: Window, at: int)
    requires Inv(w) && Transmit(w, at).1.Some? && Transmit(w, at).1.value.retransmission
    ensures var d := Transmit(w, at).1.value;
            && d.sequence < w.next
            && d.fast == w.chunks[d.sequence].fastPending
            && Transmit(w, at).0.chunks[d.sequence] == Taken(w.chunks[d.sequence]).(state := InFlight, lastSent := at)
  {
    TransmitDecision(w);
  }

  /** Everything ACKED above a chunk in flight lies within the SACK coverage. */
  lemma LaterWithinCoverage(w: Window, i: nat)
    requires Inv(w) && i < w.next && w.chunks[i].state.InFlight?
    ensures w.chunks[i].evidence <= w.chunks[i].laterAcked <= w.coverage - 1
  {
    assert w.base <= i;
  }

  lemma AckKeeps(h: History, ack: AckPayload, at: int)
    requires HistoryInv(h) && h.clock <= at
    ensures HistoryInv(Step(h, AckArrival(ack, at)))
  {
    var w := h.w;
    var u := ProcessAck(w, ack, at);
    ProcessAckInv(w, ack, at);
    forall i: nat | i < w.total ensures ChunkHistory(u.chunks[i], h.sent[i], h.fast[i], at, w.coverage) {
      AckedOrWitnessed(w, ack, at, i);
      LaterClock(w.chunks[i], h.sent[i], h.fast[i], h.clock, w.coverage, at);
      if i < w.next && Claims(ack, i) {
        AckedChunk(w.chunks[i], h.sent[i], h.fast[i], h.clock, w.coverage, at);
      } else if i < w.next && w.chunks[i].state.InFlight? {
        WitnessedChunk(w.chunks[i], h.sent[i], h.fast[i], h.clock, w.coverage, u.chunks[i].laterAcked, at);
      }
    }
  }

  /** What process_ack makes of one chunk. */
  lemma AckedOrWitnessed(w: Window, ack: AckPayload, at: int, i: nat)
    requires Inv(w) && i < w.total
    ensures var u := ProcessAck(w, ack, at); var c := w.chunks[i];
            if i < w.next && Claims(ack, i) then u.chunks[i] == AckChunk(c)
            else if i < w.next && c.state.InFlight? then
              c.laterAcked <= u.chunks[i].laterAcked && u.chunks[i] == Witness(c, u.chunks[i].laterAcked, at)
            else u.chunks[i] == c
  {
    MarkedChunk(w, ack, i);
    hide Inv, Claims, CountAcked, Marked, ScanEvidence, Witness;
    if i < w.next && !Claims(ack, i) && w.chunks[i].state.InFlight? {
      WitnessedAt(Marked(w, ack), at, i);
    } else {
      NotWitnessed(Marked(w, ack), at, i);
    }
  }

  lemma MarkedChunk(w: Window, ack: AckPayload, i: nat)
    requires Inv(w) && i < w.total
    ensures forall at :: ProcessAck(w, ack, at) == ScanEvidence(Marked(w, ack), at)
    ensures var v := Marked(w, ack); var c := w.chunks[i];
            && v.next == w.next && |v.chunks| == w.total
            && v.chunks[i] == (if i < w.next && Claims(ack, i) then AckChunk(c) else c)
            && (i < w.next && !Claims(ack, i) && c.state.InFlight? ==>
                  v.base <= i && c.laterAcked <= CountAcked(v.chunks, i + 1, w.next))
  {
    var v := Marked(w, ack);
    MarkedStates(w, ack);
    assert v.chunks[i] == if i < w.next && Claims(ack, i) then AckChunk(w.chunks[i]) else w.chunks[i];
    if i < w.next && !Claims(ack, i) && w.chunks[i].state.InFlight? {
      MarkedGrows(w, v, i);
    }
  }

  lemma MarkedGrows(w: Window, v: Window, i: nat)
    requires Inv(w) && Shape(v) && i < v.next == w.next && v.total == w.total
    requires w.chunks[i].state.InFlight? && v.chunks[i] == w.chunks[i]
    requires forall j | 0 <= j < w.total && w.chunks[j].state.Acked? :: v.chunks[j].state.Acked?
    ensures v.base <= i && w.chunks[i].laterAcked <= CountAcked(v.chunks, i + 1, w.next)
  {
    CountGrows(w.chunks, v.chunks, i + 1, w.next);
  }

  lemma WitnessedAt(v: Window, at: int, i: nat)
    requires v.base <= i < v.next <= |v.chunks| && v.chunks[i].state.InFlight?
    ensures var later := CountAcked(v.chunks, i + 1, v.next);
            ScanEvidence(v, at).chunks[i] == Witness(v.chunks[i], later, at)
            && ScanEvidence(v, at).chunks[i].laterAcked == later
  {
    hide CountAcked, FastQueue, FastDue;
  }

  lemma NotWitnessed(v: Window, at: int, i: nat)
    requires v.base <= v.next <= |v.chunks| && i < |v.chunks|
    requires i < v.base || v.next <= i || !v.chunks[i].state.InFlight?
    ensures ScanEvidence(v, at).chunks[i] == v.chunks[i]
  {
    hide CountAcked, FastQueue;
  }

  lemma TimeoutKeeps(h: History, at: int)
    requires HistoryInv(h) && h.clock <= at
    ensures HistoryInv(Step(h, TimeoutCheck(at)))
  {
    CheckTimeoutsInv(h.w, at, DEFAULT_RTO);
    var u := CheckTimeouts(h.w, at, DEFAULT_RTO);
    forall i: nat | i < h.w.total ensures ChunkHistory(u.chunks[i], h.sent[i], h.fast[i], at, h.w.coverage) {
      LaterClock(h.w.chunks[i], h.sent[i], h.fast[i], h.clock, h.w.coverage, at);
    }
  }

  lemma StepKeeps(h: History, e: Event)
    requires HistoryInv(h) && h.clock <= e.at
    ensures HistoryInv(Step(h, e)) && Step(h, e).clock == e.at
    ensures Step(h, e).w.total == h.w.total && Step(h, e).w.coverage == h.w.coverage
  {
    match e
    case Transmission(at) =>
      TransmissionKeeps(h, at);
      hide HistoryInv;
    case AckArrival(ack, at) => AckKeeps(h, ack, at);
    case TimeoutCheck(at) => TimeoutKeeps(h, at);
  }

  // ----- whole runs

  ghost predicate Timed(clock: int, events: seq<Event>)
    decreases |events|
  {
    events != [] ==> clock <= events[0].at && Timed(events[0].at, events[1..])
  }

  ghost function Run(h: History, events: seq<Event>): History
    requires HistoryInv(h) && Timed(h.clock, events)
    ensures HistoryInv(Run(h, events))
    ensures Run(h, events).w.total == h.w.total && Run(h, events).w.coverage == h.w.coverage
    decreases |events|
  {
    if events == [] then h
    else
      StepKeeps(h, events[0]);
      Run(Step(h, events[0]), events[1..])
  }

  /** In every run each chunk is retransmitted fast at most (coverage - 1) / 3 times. */
  lemma FastRetransmissionBound(total: uint32, logical: uint32, coverage: uint32, now: int, events: seq<Event>, s: nat)
    requires logical > 0 && coverage > 0 && logical <= coverage
    requires Timed(now, events) && s < total
    ensures HistoryInv(NewHistory(total, logical, coverage, now))
    ensures Run(NewHistory(total, logical, coverage, now), events).fast[s] <= (coverage - 1) / 3
  {
    NewHistoryInv(total, logical, coverage, now);
    var h := Run(NewHistory(total, logical, coverage, now), events);
    assert ChunkHistory(h.w.chunks[s], h.sent[s], h.fast[s], h.clock, h.w.coverage);
  }

  lemma {:induction false} SpacedGap(times: seq<int>, i: nat, j: nat)
    requires Spaced(times) && 1 <= i <= j < |times|
    ensures times[j] - times[i] >= (j - i) * REPEATED_FAST_RETRANSMIT_DELAY
    decreases j - i
  {
    if i < j {
      SpacedGap(times, i, j - 1);
      assert times[j - 1 + 1] - times[j - 1] >= REPEATED_FAST_RETRANSMIT_DELAY;
    }
  }

  lemma AtMostQuotient(n: nat, d: nat, m: nat)
    requires d > 0 && n * d <= m
    ensures n <= m / d
  {
    var q := m / d;
    assert m == d * q + m % d;
    assert d * (n - q) == n * d - d * q;
    if n > q {
      AtLeastFactor(d, n - q);
    }
  }

  lemma SpacedFrom(times: seq<int>, i: nat, j: nat)
    requires Spaced(times) && i < j < |times|
    ensures times[j] - times[i] >= (j - Max(1, i)) * REPEATED_FAST_RETRANSMIT_DELAY
  {
    SpacedGap(times, Max(1, i), j);
    assert i == 0 ==> times[0] <= times[0 + 1];
  }

  lemma SpacedCount(times: seq<int>, i: nat, j: nat, span: nat)
    requires Spaced(times) && i <= j < |times| && times[j] - times[i] <= span
    ensures j - i + 1 <= span / REPEATED_FAST_RETRANSMIT_DELAY + 2
  {
    if i < j {
      SpacedFrom(times, i, j);
      hide Spaced;
      AtMostQuotient(j - Max(1, i), REPEATED_FAST_RETRANSMIT_DELAY, span);
    }
  }

  /** In every run the transmissions i..j of a chunk that fall within `span` of each other number
      at most span / 250 ms + 2. */
  lemma TransmissionsInInterval(h: History, events: seq<Event>, s: nat, i: nat, j: nat, span: nat)
    requires HistoryInv(h) && Timed(h.clock, events) && s < h.w.total
    requires var times := Run(h, events).sent[s]; i <= j < |times| && times[j] - times[i] <= span
    ensures j - i + 1 <= span / REPEATED_FAST_RETRANSMIT_DELAY + 2
  {
    var g := Run(h, events);
    assert ChunkHistory(g.w.chunks[s], g.sent[s], g.fast[s], g.clock, g.w.coverage);
    SpacedCount(g.sent[s], i, j, span);
  }
}

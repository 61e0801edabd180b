/** A queued retransmission gets its turn: it never moves back in the queue, and every selection
    brings it forward. */
module QueueProgress {
  import opened Protocol
  import opened SenderModel
  import opened SenderInvariant
  import opened SenderProperties
  import opened SenderRuns
  import opened Progress

  /** How many entries come before `b`. */
  function Position(q: seq<nat>, b: nat): nat {
    if q == [] || q[0] == b then 0 else 1 + Position(q[1..], b)
  }

  lemma {:induction false} PositionAppend(q: seq<nat>, r: seq<nat>, b: nat)
    requires b in q
    ensures Position(q + r, b) == Position(q, b)
  {
    if q[0] != b {
      PositionAppend(q[1..], r, b);
      assert (q + r)[1..] == q[1..] + r;
    }
  }

  lemma {:induction false} PositionDrop(cs: seq<Chunk>, q: seq<nat>, b: nat)
    requires Below(q, |cs|) && b in q && cs[b].state.InFlight? && cs[b].pending
    ensures b in DropStale(cs, q) && Position(DropStale(cs, q), b) <= Position(q, b)
  {
    if cs[q[0]].state.InFlight? && cs[q[0]].pending {
    } else {
      PositionDrop(cs, q[1..], b);
    }
  }

  /** The chunk waits in the queue. */
  ghost predicate Queued(w: Window, b: nat) {
    b < w.next <= |w.chunks| && w.chunks[b].state.InFlight? && w.chunks[b].pending && b in w.queue
  }

  lemma PendingIsQueued(w: Window, b: nat)
    requires Inv(w) && b < w.next && w.chunks[b].state.InFlight? && w.chunks[b].pending
    ensures Queued(w, b)
  {
  }

  /** A selection takes `b` itself, or brings it forward. */
  lemma SelectionForward(w: Window, b: nat, at: int)
    requires Inv(w) && Queued(w, b)
    ensures Shape(w) && Below(w.queue, |w.chunks|)
    ensures Retransmits(w, b)
            || (Queued(Transmit(w, at).0, b) && Position(Transmit(w, at).0.queue, b) < Position(w.queue, b))
  {
    InvShape(w);
    PositionDrop(w.chunks, w.queue, b);
    TransmitInv(w, at);
    var q := DropStale(w.chunks, w.queue);
    hide CountAcked, DropStale;
    if q[0] != b {
      var v := Transmit(w, at).0;
      assert v.queue == q[1..] && v.chunks[b] == w.chunks[b] && v.next == w.next;
    }
  }

  lemma TimeoutForward(w: Window, b: nat, at: int)
    requires Inv(w) && Queued(w, b)
    ensures var u := CheckTimeouts(w, at, DEFAULT_RTO); Queued(u, b) && Position(u.queue, b) == Position(w.queue, b)
  {
    hide TimeoutQueue, CountAcked;
    PositionAppend(w.queue, TimeoutQueue(w.chunks, w.base, w.next, at, DEFAULT_RTO), b);
  }

  lemma AckForward(w: Window, b: nat, ack: AckPayload, at: int)
    requires Inv(w) && Queued(w, b) && b !in AckedSet(ProcessAck(w, ack, at))
    ensures var u := ProcessAck(w, ack, at); Queued(u, b) && Position(u.queue, b) == Position(w.queue, b)
  {
    hide FastQueue, CountAcked, FastDue, Claims;
    var u := ProcessAck(w, ack, at);
    ProcessAckShape(w, ack, at);
    AckedOrWitnessed(w, ack, at, b);
    hide Inv, ProcessAck;
    assert u.chunks[b].state.InFlight? && u.chunks[b].pending;
    PositionAppend(w.queue, u.queue[|w.queue|..], b);
    assert u.queue == w.queue + u.queue[|w.queue|..];
    assert b in w.queue + u.queue[|w.queue|..];
  }

  /** An ACK only appends to the queue. */
  lemma ProcessAckShape(w: Window, ack: AckPayload, at: int)
    requires Inv(w)
    ensures var u := ProcessAck(w, ack, at);
            u.next == w.next && |u.chunks| == |w.chunks| == w.total && |w.queue| <= |u.queue| && u.queue[..|w.queue|] == w.queue
  {
    MarkedStates(w, ack);
    hide FastQueue, CountAcked, FastDue, Claims, Witnessed;
  }

  // ----- when a chunk was sent last

  lemma SelectionKeepsTime(w: Window, b: nat, at: int)
    requires Inv(w) && b < w.next && !Retransmits(w, b)
    ensures Transmit(w, at).0.chunks[b] == w.chunks[b]
  {
    TransmitDecision(w);
  }

  lemma AckKeepsTime(w: Window, b: nat, ack: AckPayload, at: int)
    requires Inv(w) && b < w.next
    ensures ProcessAck(w, ack, at).chunks[b].lastSent == w.chunks[b].lastSent
  {
    AckedOrWitnessed(w, ack, at, b);
    hide Inv, ProcessAck, Claims, FastDue;
  }

  /** A late check queues a chunk in flight. */
  lemma CheckQueues(w: Window, b: nat, at: int)
    requires Inv(w) && w.base <= b < w.next && w.chunks[b].state.InFlight? && at - w.chunks[b].lastSent >= DEFAULT_RTO
    ensures Queued(CheckTimeouts(w, at, DEFAULT_RTO), b)
  {
    CheckTimeoutsInv(w, at, DEFAULT_RTO);
    PendingIsQueued(CheckTimeouts(w, at, DEFAULT_RTO), b);
  }
}

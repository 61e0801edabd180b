/** Acknowledgements as a set union, and the diagnostics that recount the window. */
module SenderProperties {
  import opened Bytes
  import opened Protocol
  import opened SenderModel
  import opened SenderWindow
  import opened SenderInvariant

  ghost function AckedSet(w: Window): set<nat> {
    set i: nat | i < |w.chunks| && w.chunks[i].state.Acked?
  }

  ghost function Claimed(w: Window, ack: AckPayload): set<nat> {
    set i: nat | i < w.next && Claims(ack, i)
  }

  /** ACKED becomes ACKED together with everything selected that the payload claims. */
  lemma AckIsUnion(w: Window, ack: AckPayload, now: int)
    requires Shape(w)
    ensures AckedSet(ProcessAck(w, ack, now)) == AckedSet(w) + Claimed(w, ack)
  {
    ProcessAckStates(w, ack, now);
  }

  /** The new base is the least chunk that is not ACKED. */
  lemma AckBase(w: Window, ack: AckPayload, now: int)
    requires Shape(w)
    ensures var u := ProcessAck(w, ack, now);
            && (forall i: nat | i < u.base :: i in AckedSet(u))
            && (u.base < u.total ==> u.base !in AckedSet(u))
  {
    MarkedStates(w, ack);
    ScannedStates(Marked(w, ack), now);
  }

  lemma TwoAcks(w: Window, a: AckPayload, b: AckPayload, s: int, t: int)
    requires Shape(w)
    ensures Shape(ProcessAck(w, a, s))
    ensures var u := ProcessAck(ProcessAck(w, a, s), b, t);
            && Shape(u) && u.total == w.total && u.next == w.next
            && AckedSet(u) == AckedSet(w) + Claimed(w, a) + Claimed(w, b)
            && (u.base < u.total ==> u.base !in AckedSet(u))
  {
    ProcessAckStates(w, a, s);
    var v := ProcessAck(w, a, s);
    AckIsUnion(w, a, s);
    ProcessAckStates(v, b, t);
    AckIsUnion(v, b, t);
    AckBase(v, b, t);
  }

  /** Two ACKs in either order leave the same chunks ACKED, the same base and the same count. */
  lemma AcksCommute(w: Window, a: AckPayload, b: AckPayload, s: int, t: int)
    requires Shape(w)
    ensures Shape(ProcessAck(w, a, s)) && Shape(ProcessAck(w, b, s))
    ensures var u := ProcessAck(ProcessAck(w, a, s), b, t); var v := ProcessAck(ProcessAck(w, b, s), a, t);
            AckedSet(u) == AckedSet(v) && u.base == v.base && u.outstanding == v.outstanding
  {
    TwoAcks(w, a, b, s, t);
    TwoAcks(w, b, a, s, t);
    hide ProcessAck, AckedSet, Claimed, Shape;
    SameAcked(ProcessAck(ProcessAck(w, a, s), b, t), ProcessAck(ProcessAck(w, b, s), a, t));
  }

  /** The ACKED set determines the base and the counter. */
  lemma SameAcked(u: Window, v: Window)
    requires Shape(u) && Shape(v) && u.total == v.total && u.next == v.next && AckedSet(u) == AckedSet(v)
    requires u.base < u.total ==> u.base !in AckedSet(u)
    requires v.base < v.total ==> v.base !in AckedSet(v)
    ensures u.base == v.base && u.outstanding == v.outstanding
  {
    assert forall i: nat | i < u.base :: i in AckedSet(u);
    assert forall i: nat | i < v.base :: i in AckedSet(v);
    assert forall i: nat | i < u.total :: u.chunks[i].state.Acked? == (i in AckedSet(u));
    assert forall i: nat | i < u.total :: v.chunks[i].state.Acked? == (i in AckedSet(v));
    CountSame(u.chunks, v.chunks, 0, u.next);
  }

  /** An ACK with nothing new leaves the whole sender as it was and queues nothing, whenever it
      arrives: the evidence that it could bring is already recorded. */
  lemma StaleAckIsInert(w: Window, ack: AckPayload, now: int)
    requires Inv(w)
    requires Claimed(w, ack) <= AckedSet(w)
    ensures ProcessAck(w, ack, now) == w
  {
    var v := Marked(w, ack);
    MarkedStates(w, ack);
    forall i: nat | i < w.total ensures v.chunks[i] == w.chunks[i] {
      if i < w.next && Claims(ack, i) {
        assert i in Claimed(w, ack);
        assert i in AckedSet(w);
      }
    }
    assert v.chunks == w.chunks;
    SameAcked(w, v);
    assert v == w;
    InertScan(w, now);
  }

  lemma InertScan(w: Window, now: int)
    requires Inv(w)
    ensures ScanEvidence(w, now) == w
  {
    hide CountAcked, Shape, Limits, QueueAgrees, Witness, FastDue, FastQueue;
    assert w.base <= w.next <= w.total == |w.chunks|;
    forall i: nat | w.base <= i < w.next && w.chunks[i].state.InFlight?
      ensures Witness(w.chunks[i], CountAcked(w.chunks, i + 1, w.next), now) == w.chunks[i]
    {
      WitnessSame(w.chunks[i], now);
    }
    assert Witnessed(w.chunks, w.base, w.next, now) == w.chunks;
    NothingDue(w.chunks, w.base, w.next, now);
    assert w.queue + [] == w.queue;
  }

  lemma WitnessSame(c: Chunk, now: int)
    ensures Witness(c, c.laterAcked, now) == c
  {
  }

  lemma {:induction false} NothingDue(cs: seq<Chunk>, lo: nat, hi: nat, now: int)
    requires lo <= hi <= |cs|
    requires forall i | lo <= i < hi && cs[i].state.InFlight? :: cs[i].laterAcked == CountAcked(cs, i + 1, hi)
    ensures FastQueue(cs, lo, hi, now) == []
    decreases hi - lo
  {
    if lo < hi {
      NothingDue(cs, lo + 1, hi, now);
    }
  }

  // ----- the recount in WindowSampleStats (src/client.cpp:51-91)

  function CountPending(cs: seq<Chunk>, lo: nat, hi: nat): (n: nat)
    requires hi <= |cs|
    ensures lo <= hi ==> n <= hi - lo
    decreases hi - lo
  {
    if lo >= hi then 0 else (if cs[lo].pending then 1 else 0) + CountPending(cs, lo + 1, hi)
  }

  lemma {:induction false} CountPendingExtend(cs: seq<Chunk>, lo: nat, hi: nat)
    requires lo <= hi < |cs|
    ensures CountPending(cs, lo, hi + 1) == CountPending(cs, lo, hi) + (if cs[hi].pending then 1 else 0)
    decreases hi - lo
  {
    if lo < hi {
      CountPendingExtend(cs, lo + 1, hi);
    }
  }

  /** The incremental counter equals a full recount of the open window, whose span splits into
      unACKed chunks and ACKED chunks behind the hole, and both limits hold. */
  lemma RecountAgrees(w: Window)
    requires Inv(w)
    ensures w.outstanding == (w.next - w.base) - CountAcked(w.chunks, w.base, w.next)
    ensures w.outstanding <= w.logical && w.next - w.base <= w.coverage
    ensures w.base < w.next ==> w.outstanding > 0
    ensures CountPending(w.chunks, w.base, w.next) <= w.outstanding
  {
    CountSplit(w.chunks, 0, w.base, w.next);
    CountFull(w.chunks, 0, w.base);
    PendingUnacked(w.chunks, w.base, w.next);
  }

  lemma {:induction false} PendingUnacked(cs: seq<Chunk>, lo: nat, hi: nat)
    requires lo <= hi <= |cs|
    requires forall i | 0 <= i < |cs| && cs[i].pending :: cs[i].state.InFlight?
    ensures CountPending(cs, lo, hi) <= (hi - lo) - CountAcked(cs, lo, hi)
    decreases hi - lo
  {
    if lo < hi {
      PendingUnacked(cs, lo + 1, hi);
    }
  }

  class WindowSampleStats {
    var samples: nat
    var spanTotal: nat
    var unackedTotal: nat
    var ackedBehindHoleTotal: nat
    var retransmitPendingTotal: nat
    var maxSpan: uint32
    var maxUnacked: uint32
    var maxAckedBehindHole: uint32
    var maxRetransmitPending: uint32

    constructor ()
      ensures samples == spanTotal == unackedTotal == ackedBehindHoleTotal == retransmitPendingTotal == 0
      ensures maxSpan == maxUnacked == maxAckedBehindHole == maxRetransmitPending == 0
    {
      samples, spanTotal, unackedTotal, ackedBehindHoleTotal, retransmitPendingTotal := 0, 0, 0, 0, 0;
      maxSpan, maxUnacked, maxAckedBehindHole, maxRetransmitPending := 0, 0, 0, 0;
    }

    /** The sample that the loop counts is the one the counters already know. */
    method Sample(window: SenderWindow)
      requires window.Valid() && Inv(window.Abs())
      modifies this
      ensures samples == old(samples) + 1
      ensures spanTotal == old(spanTotal) + (window.next - window.base)
      ensures unackedTotal == old(unackedTotal) + window.outstanding
      ensures ackedBehindHoleTotal == old(ackedBehindHoleTotal) + (window.next - window.base - window.outstanding)
      ensures retransmitPendingTotal
              == old(retransmitPendingTotal) + CountPending(window.Abs().chunks, window.base, window.next)
      ensures maxSpan == Max(old(maxSpan), window.next - window.base)
      ensures maxUnacked == Max(old(maxUnacked), window.outstanding)
      ensures maxAckedBehindHole == Max(old(maxAckedBehindHole), window.next - window.base - window.outstanding)
      ensures maxRetransmitPending
              == Max(old(maxRetransmitPending), CountPending(window.Abs().chunks, window.base, window.next))
      ensures old(maxUnacked) <= window.logical ==> maxUnacked <= window.logical
      ensures old(maxSpan) <= window.coverage ==> maxSpan <= window.coverage
    {
      RecountAgrees(window.Abs());
      var unacked, ackedBehindHole, retransmitPending := Recount(window);
      var span := window.next - window.base;
      samples := samples + 1;
      spanTotal := spanTotal + span;
      unackedTotal := unackedTotal + unacked;
      ackedBehindHoleTotal := ackedBehindHoleTotal + ackedBehindHole;
      retransmitPendingTotal := retransmitPendingTotal + retransmitPending;
      maxSpan := Max(maxSpan, span);
      maxUnacked := Max(maxUnacked, unacked);
      maxAckedBehindHole := Max(maxAckedBehindHole, ackedBehindHole);
      maxRetransmitPending := Max(maxRetransmitPending, retransmitPending);
    }

    static method Recount(window: SenderWindow) returns (unacked: uint32, ackedBehindHole: uint32, retransmitPending: uint32)
      requires window.Valid()
      ensures ackedBehindHole == CountAcked(window.chunks, window.base, window.next)
      ensures unacked + ackedBehindHole == window.next - window.base
      ensures retransmitPending == CountPending(window.chunks, window.base, window.next)
    {
      var base, next := window.base, window.next;
      unacked, ackedBehindHole, retransmitPending := 0, 0, 0;
      for s := base to next
        invariant ackedBehindHole == CountAcked(window.chunks, base, s)
        invariant unacked + ackedBehindHole == s - base
        invariant retransmitPending == CountPending(window.chunks, base, s)
      {
        CountSplit(window.chunks, base, s, s + 1);
        CountPendingExtend(window.chunks, base, s);
        if window.chunks[s].state.Acked? {
          ackedBehindHole := ackedBehindHole + 1;
        } else {
          unacked := unacked + 1;
        }
        if window.chunks[s].pending {
          retransmitPending := retransmitPending + 1;
        }
      }
    }
  }
}

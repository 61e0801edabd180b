/** The class `SenderWindow` of src/reliability.cpp: counters, a chunk array and a FIFO queue, all
    updated in place, each method proved against its function in SenderModel. */
module SenderWindow {
  import opened Bytes
  import opened Protocol
  import opened SenderModel

  lemma {:induction false} CountSplit(cs: seq<Chunk>, lo: nat, mid: nat, hi: nat)
    requires lo <= mid <= hi <= |cs|
    ensures CountAcked(cs, lo, hi) == CountAcked(cs, lo, mid) + CountAcked(cs, mid, hi)
    decreases mid - lo
  {
    if lo < mid {
      CountSplit(cs, lo + 1, mid, hi);
    }
  }

  /** Only which chunks are ACKED matters to a count. */
  lemma {:induction false} CountSame(cs: seq<Chunk>, ds: seq<Chunk>, lo: nat, hi: nat)
    requires hi <= |cs| && hi <= |ds|
    requires forall i | lo <= i < hi :: cs[i].state.Acked? == ds[i].state.Acked?
    ensures CountAcked(cs, lo, hi) == CountAcked(ds, lo, hi)
    decreases hi - lo
  {
    if lo < hi {
      CountSame(cs, ds, lo + 1, hi);
    }
  }

  lemma {:induction false} CountFull(cs: seq<Chunk>, lo: nat, hi: nat)
    requires lo <= hi <= |cs|
    requires forall i | lo <= i < hi :: cs[i].state.Acked?
    ensures CountAcked(cs, lo, hi) == hi - lo
    decreases hi - lo
  {
    if lo < hi {
      CountFull(cs, lo + 1, hi);
    }
  }

  /** ACKing one more chunk raises the count by one. */
  lemma CountOneMore(cs: seq<Chunk>, ds: seq<Chunk>, s: nat, hi: nat)
    requires s < hi <= |cs| == |ds|
    requires !cs[s].state.Acked? && ds == cs[s := ds[s]] && ds[s].state.Acked?
    ensures CountAcked(ds, 0, hi) == CountAcked(cs, 0, hi) + 1
  {
    CountSplit(cs, 0, s, hi);
    CountSplit(ds, 0, s, hi);
    CountSame(cs, ds, 0, s);
    CountSame(cs, ds, s + 1, hi);
  }

  lemma SameMarks(w: Window, s: iset<nat>, t: iset<nat>)
    requires w.next <= |w.chunks|
    requires forall i: nat | i < w.next && !w.chunks[i].state.Acked? :: i in s <==> i in t
    ensures AckAll(w, s) == AckAll(w, t)
  {
    assert AckChunks(w.chunks, w.next, s) == AckChunks(w.chunks, w.next, t);
  }

  lemma AckNone(w: Window)
    requires Shape(w)
    ensures AckAll(w, iset{}) == w
  {
    assert AckChunks(w.chunks, w.next, iset{}) == w.chunks;
  }

  /** Marking one chunk more. */
  lemma AckAgain(w: Window, s: iset<nat>, k: nat, t: iset<nat>)
    requires w.next <= |w.chunks|
    requires t == s + iset{k}
    ensures AckAll(AckAll(w, s), iset{k}) == AckAll(w, t)
  {
    assert AckChunks(AckChunks(w.chunks, w.next, s), w.next, iset{k}) == AckChunks(w.chunks, w.next, t);
  }

  predicate Precedes(k: nat, n: nat) { k < n }

  ghost function Prefix(n: nat): iset<nat> { iset k: nat | Precedes(k, n) }

  /** What is marked once the prefix and the bits below chunk `n` are done. */
  ghost function PartlyClaimed(ack: AckPayload, prefixEnd: nat, n: nat): iset<nat> {
    iset k: nat | k < prefixEnd || (k < n && InBitmap(ack, k))
  }

  /** One bit of the scan. */
  ghost predicate BitmapStep(w: Window, ack: AckPayload, prefixEnd: nat, bit: nat)
    requires w.next <= |w.chunks|
  {
    bit < Min(ack.bitmapBits, 8 * |ack.bitmap|) && ack.bitmapBase + bit < ack.largestPlusOne ==>
      var n := ack.bitmapBase + bit;
      var before := AckAll(w, PartlyClaimed(ack, prefixEnd, n));
      AckAll(w, PartlyClaimed(ack, prefixEnd, n + 1)) == if BitAt(ack.bitmap, bit) then AckAll(before, iset{n}) else before
  }

  lemma BitmapSteps(w: Window, ack: AckPayload, prefixEnd: nat)
    requires w.next <= |w.chunks|
    ensures forall bit: nat :: BitmapStep(w, ack, prefixEnd, bit)
  {
    forall bit: nat ensures BitmapStep(w, ack, prefixEnd, bit) {
      OneBitmapStep(w, ack, prefixEnd, bit);
    }
  }

  lemma OneBitmapStep(w: Window, ack: AckPayload, prefixEnd: nat, bit: nat)
    requires w.next <= |w.chunks|
    ensures BitmapStep(w, ack, prefixEnd, bit)
  {
    hide CountAcked, AckAll, PartlyClaimed, Bit;
    if bit < Min(ack.bitmapBits, 8 * |ack.bitmap|) && ack.bitmapBase + bit < ack.largestPlusOne {
      var n := ack.bitmapBase + bit;
      OneMoreBit(ack, prefixEnd, bit);
      if BitAt(ack.bitmap, bit) {
        AckAgain(w, PartlyClaimed(ack, prefixEnd, n), n, PartlyClaimed(ack, prefixEnd, n + 1));
      } else {
        assert PartlyClaimed(ack, prefixEnd, n) + iset{} == PartlyClaimed(ack, prefixEnd, n);
      }
    }
  }

  lemma OneMoreBit(ack: AckPayload, prefixEnd: nat, bit: nat)
    requires bit < Min(ack.bitmapBits, 8 * |ack.bitmap|) && ack.bitmapBase + bit < ack.largestPlusOne
    ensures var n := ack.bitmapBase + bit;
            PartlyClaimed(ack, prefixEnd, n + 1)
            == PartlyClaimed(ack, prefixEnd, n) + (if BitAt(ack.bitmap, bit) then iset{n} else iset{})
  {
    hide Bit;
  }

  lemma PrefixStart(w: Window)
    requires Shape(w)
    ensures AckAll(w, Prefix(w.base)) == w
    ensures forall n | 0 <= n <= w.base :: AckAll(w, Prefix(n)) == w
  {
    AckNone(w);
    forall n | 0 <= n <= w.base ensures AckAll(w, Prefix(n)) == w {
      SameMarks(w, iset{}, Prefix(n));
    }
  }

  ghost predicate PrefixStep(w: Window, n: nat)
    requires w.next <= |w.chunks|
  {
    AckAll(AckAll(w, Prefix(n)), iset{n}) == AckAll(w, Prefix(n + 1))
  }

  lemma PrefixSteps(w: Window)
    requires w.next <= |w.chunks|
    ensures forall n: nat :: PrefixStep(w, n)
  {
    hide CountAcked, AckAll;
    forall n: nat ensures PrefixStep(w, n) {
      assert Prefix(n + 1) == Prefix(n) + iset{n};
      AckAgain(w, Prefix(n), n, Prefix(n + 1));
    }
  }

  lemma NextPrefix(w: Window, n: nat)
    requires w.next <= |w.chunks| && PrefixStep(w, n)
    ensures AckAll(AckAll(w, Prefix(n)), iset{n}) == AckAll(w, Prefix(n + 1))
  {
  }

  lemma MarksBelow(w: Window)
    requires Shape(w)
    ensures w.base <= w.next <= w.total == |w.chunks|
  {
  }

  lemma {:induction false} TimeoutQueueExtend(cs: seq<Chunk>, lo: nat, hi: nat, now: int, rto: int)
    requires lo <= hi < |cs|
    ensures TimeoutQueue(cs, lo, hi + 1, now, rto)
            == TimeoutQueue(cs, lo, hi, now, rto) + (if TimedOut(cs[hi], now, rto) then [hi] else [])
    decreases hi - lo
  {
    if lo < hi {
      TimeoutQueueExtend(cs, lo + 1, hi, now, rto);
    } else {
      assert TimeoutQueue(cs, lo + 1, hi + 1, now, rto) == [];
    }
  }

  /** The state when the timeout scan has reached chunk `n`. */
  function PartlyExpired(w: Window, n: nat, now: int, rto: int): Window
    requires w.base <= n <= |w.chunks|
  {
    w.(chunks := Expired(w.chunks, w.base, n, now, rto),
       queue := w.queue + TimeoutQueue(w.chunks, w.base, n, now, rto))
  }

  ghost predicate TimeoutStep(w: Window, n: nat, now: int, rto: int)
    requires w.base <= n < |w.chunks|
  {
    var v := PartlyExpired(w, n, now, rto);
    && v.chunks[n] == w.chunks[n]
    && PartlyExpired(w, n + 1, now, rto) == if TimedOut(w.chunks[n], now, rto) then Queue(v, n, false) else v
  }

  lemma TimeoutSteps(w: Window, now: int, rto: int)
    requires w.base <= |w.chunks|
    ensures forall n: nat | w.base <= n < |w.chunks| :: TimeoutStep(w, n, now, rto)
    ensures PartlyExpired(w, w.base, now, rto) == w
  {
    assert Expired(w.chunks, w.base, w.base, now, rto) == w.chunks;
    forall n: nat | w.base <= n < |w.chunks| ensures TimeoutStep(w, n, now, rto) {
      TimeoutQueueExtend(w.chunks, w.base, n, now, rto);
      var v := PartlyExpired(w, n, now, rto);
      if TimedOut(w.chunks[n], now, rto) {
        assert Expired(w.chunks, w.base, n + 1, now, rto) == Queue(v, n, false).chunks;
      } else {
        assert Expired(w.chunks, w.base, n + 1, now, rto) == v.chunks;
      }
    }
  }

  /** The state when the evidence scan, which runs downwards, has reached chunk `n`. */
  function PartlyScanned(w: Window, n: nat, now: int): Window
    requires n <= w.next <= |w.chunks|
  {
    w.(chunks := Witnessed(w.chunks, n, w.next, now), queue := w.queue + FastQueue(w.chunks, n, w.next, now))
  }

  /** What the scan does to one chunk in flight, given the number of ACKED chunks above it. */
  function Considered(w: Window, n: nat, later: nat, now: int): Window
    requires n < |w.chunks|
  {
    var c := w.chunks[n];
    w.(chunks := w.chunks[n := Witness(c, later, now)],
       queue := w.queue + (if !c.pending && FastDue(c, later, now) then [n] else []))
  }

  ghost predicate ScanStep(w: Window, n: nat, now: int)
    requires n < w.next <= |w.chunks|
  {
    var later := CountAcked(w.chunks, n + 1, w.next);
    var v := PartlyScanned(w, n + 1, now);
    && v.chunks[n] == w.chunks[n]
    && CountAcked(w.chunks, n, w.next) == later + (if v.chunks[n].state.Acked? then 1 else 0)
    && PartlyScanned(w, n, now) == if w.chunks[n].state.InFlight? then Considered(v, n, later, now) else v
  }

  lemma ScanSteps(w: Window, now: int)
    requires w.next <= |w.chunks|
    ensures forall n: nat | n < w.next :: ScanStep(w, n, now)
    ensures PartlyScanned(w, w.next, now) == w
  {
    assert Witnessed(w.chunks, w.next, w.next, now) == w.chunks;
    forall n: nat | n < w.next ensures ScanStep(w, n, now) {
      ScanStepHolds(w, n, now);
    }
  }

  lemma ScanStepHolds(w: Window, n: nat, now: int)
    requires n < w.next <= |w.chunks|
    ensures ScanStep(w, n, now)
  {
    var later := CountAcked(w.chunks, n + 1, w.next);
    var v := PartlyScanned(w, n + 1, now);
    if w.chunks[n].state.InFlight? {
      assert Witnessed(w.chunks, n, w.next, now) == Considered(v, n, later, now).chunks;
      assert PartlyScanned(w, n, now).queue == Considered(v, n, later, now).queue;
    } else {
      assert Witnessed(w.chunks, n, w.next, now) == v.chunks;
    }
  }

  lemma EmptyCount(cs: seq<Chunk>, n: nat)
    requires n <= |cs|
    ensures CountAcked(cs, n, n) == 0
  {
  }

  lemma ScanDone(w: Window, now: int)
    requires w.base <= w.next <= |w.chunks|
    ensures PartlyScanned(w, w.base, now) == ScanEvidence(w, now)
  {
  }

  lemma TimeoutsDone(w: Window, now: int, rto: int)
    requires w.base <= w.next <= |w.chunks|
    ensures PartlyExpired(w, w.next, now, rto) == CheckTimeouts(w, now, rto)
  {
  }

  /** Selection keeps the shape: a retransmission changes no state and a new chunk is unACKed. */
  lemma SelectShape(w: Window)
    requires Shape(w)
    ensures Shape(Select(w).0)
  {
    var w' := Select(w).0;
    CountSame(w.chunks, w'.chunks, 0, w.next);
    if w'.next > w.next {
      CountSplit(w.chunks, 0, w.next, w.next + 1);
    }
  }

  class SenderWindow {
    const total: uint32
    const logical: uint32
    const coverage: uint32
    var base: uint32
    var next: uint32
    var outstanding: uint32
    var chunks: seq<Chunk>
    var queue: seq<uint32>

    ghost function Abs(): Window
      reads this
    {
      Window(total, logical, coverage, base, next, outstanding, chunks, queue)
    }

    ghost predicate Valid()
      reads this
    {
      Shape(Abs())
    }

    constructor (total: uint32, logical: uint32, coverage: uint32)
      requires logical > 0 && coverage > 0 && logical <= coverage
      ensures Valid()
      ensures Abs() == NewWindow(total, logical, coverage)
    {
      this.total, this.logical, this.coverage := total, logical, coverage;
      base, next, outstanding, queue := 0, 0, 0, [];
      chunks := seq(total, _ => FRESH_CHUNK);
    }

    method AllAcked() returns (r: bool)
      requires Valid()
      ensures r ==> forall i | 0 <= i < total :: chunks[i].state.Acked?
      ensures AtHole(Abs()) && (forall i | 0 <= i < total :: chunks[i].state.Acked?) ==> r
    {
      r := base == total;
    }

    /** One more chunk is left, fewer than the logical window's are unACKed when they are counted
        afresh, and the span is short of the coverage. */
    method CanSend() returns (r: bool)
      requires Valid()
      ensures r <==> && next < total
                     && next - CountAcked(chunks, 0, next) < logical
                     && next - base < coverage
    {
      r := next < total && outstanding < logical && next < base + coverage;
    }

    /** Pops the queue up to and including its first live entry. */
    method PopLive() returns (r: Option<uint32>)
      requires Below(queue, |chunks|)
      modifies this`queue
      ensures var q := DropStale(chunks, old(queue));
              if q == [] then r == None && queue == [] else r == Some(q[0]) && queue == q[1..]
    {
      while queue != []
        invariant Below(queue, |chunks|)
        invariant DropStale(chunks, old(queue)) == DropStale(chunks, queue)
        decreases |queue|
      {
        var s := queue[0];
        queue := queue[1..];
        if chunks[s].state.InFlight? && chunks[s].pending {
          return Some(s);
        }
      }
      return None;
    }

    method SelectNextPacket() returns (r: Option<Decision>)
      requires Valid()
      modifies this
      ensures Valid()
      ensures Abs() == Select(old(Abs())).0 && r == Select(old(Abs())).1
    {
      ghost var w0 := Abs();
      SelectShape(w0);
      var live := PopLive();
      if live.Some? {
        var s := live.value;
        var c := chunks[s];
        chunks := chunks[s := c.(pending := false, fastPending := false, fastRetransmitted := true,
                                 evidence := c.laterAcked)];
        assert Abs() == Select(w0).0;
        return Some(Decision(s, true, c.fastPending));
      }
      var open := CanSend();
      if open {
        next := next + 1;
        outstanding := outstanding + 1;
        return Some(Decision(next - 1, false, false));
      }
      return None;
    }

    /** The source throws unless the chunk has been selected and is not ACKED. */
    method MarkChunkSent(s: uint32, at: int)
      requires Valid()
      requires s < next && !chunks[s].state.Acked?
      modifies this`chunks
      ensures Valid()
      ensures Abs() == MarkSent(old(Abs()), s, at)
    {
      chunks := chunks[s := chunks[s].(state := InFlight, lastSent := at)];
      CountSame(old(chunks), chunks, 0, next);
    }

    method MarkAcked(s: uint32)
      requires Valid()
      modifies this`outstanding, this`chunks
      ensures Valid()
      ensures Abs() == AckAll(old(Abs()), iset{s})
    {
      ghost var w0 := Abs();
      if s >= next || s >= total {
        assert chunks == AckAll(w0, iset{s}).chunks;
        return;
      }
      if chunks[s].state.Acked? {
        assert chunks == AckAll(w0, iset{s}).chunks;
        return;
      }
      chunks := chunks[s := chunks[s].(state := Acked, pending := false, fastPending := false)];
      assert chunks == AckAll(w0, iset{s}).chunks;
      CountOneMore(w0.chunks, chunks, s, next);
      outstanding := outstanding - 1;
    }

    method QueueRetransmission(s: uint32, fast: bool)
      requires Valid() && s < next
      modifies this`queue, this`chunks
      ensures Valid()
      ensures Abs() == Queue(old(Abs()), s, fast)
    {
      var c := chunks[s];
      if !c.state.InFlight? || c.pending {
        return;
      }
      chunks := chunks[s := c.(pending := true, fastPending := fast)];
      if fast {
        chunks := chunks[s := chunks[s].(fastRetransmitted := true)];
      }
      queue := queue + [s];
      CountSame(old(chunks), chunks, 0, next);
    }

    method AdvanceToFirstUnacked()
      requires Valid()
      modifies this`base
      ensures Valid()
      ensures Abs() == AdvanceBase(old(Abs()))
    {
      ghost var cs := chunks;
      while base < total && chunks[base].state.Acked?
        invariant Valid() && Abs() == old(Abs()).(base := base)
        invariant FirstUnacked(cs, base) == FirstUnacked(cs, old(base))
        decreases total - base
      {
        base := base + 1;
      }
    }

    /** The first two loops of process_ack: the cumulative prefix, then the bitmap. */
    method MarkClaimed(ack: AckPayload)
      requires Valid()
      modifies this`outstanding, this`chunks
      ensures Valid()
      ensures Abs() == AckAll(old(Abs()), ClaimedSet(ack))
    {
      ghost var w0 := Abs();
      var prefixEnd := Min(Min(ack.cumulativeAck, total), next);
      MarkPrefix(prefixEnd);
      var availableBits := Min(ack.bitmapBits, |ack.bitmap| * 8);
      var limit := Min(Min(ack.largestPlusOne, total), next);
      var bitsToScan := if ack.bitmapBase < limit then Min(availableBits, limit - ack.bitmapBase) else 0;
      SameMarks(w0, Prefix(prefixEnd), PartlyClaimed(ack, prefixEnd, ack.bitmapBase));
      BitmapSteps(w0, ack, prefixEnd);
      MarkBitmap(ack, bitsToScan, w0, prefixEnd);
      SameMarks(w0, PartlyClaimed(ack, prefixEnd, ack.bitmapBase + bitsToScan), ClaimedSet(ack));
    }

    method MarkPrefix(prefixEnd: uint32)
      requires Valid() && prefixEnd <= next
      modifies this`outstanding, this`chunks
      ensures Valid()
      ensures Abs() == AckAll(old(Abs()), Prefix(prefixEnd))
    {
      hide CountAcked, AckAll, Prefix, Shape, PrefixStep;
      ghost var w0 := Abs();
      var s := base;
      MarksBelow(w0);
      PrefixStart(w0);
      PrefixSteps(w0);
      assert AckAll(w0, Prefix(s)) == w0;
      while s < prefixEnd
        invariant base <= s <= Max(base, prefixEnd)
        invariant Valid() && Abs() == AckAll(w0, Prefix(s))
      {
        MarkAcked(s);
        NextPrefix(w0, s);
        s := s + 1;
      }
    }

    method MarkBitmap(ack: AckPayload, bitsToScan: nat, ghost w0: Window, ghost prefixEnd: nat)
      requires Valid() && next <= total && w0.next <= |w0.chunks|
      requires Abs() == AckAll(w0, PartlyClaimed(ack, prefixEnd, ack.bitmapBase))
      requires forall bit: nat :: BitmapStep(w0, ack, prefixEnd, bit)
      requires bitsToScan <= Min(ack.bitmapBits, |ack.bitmap| * 8)
      requires bitsToScan > 0 ==> ack.bitmapBase + bitsToScan <= Min(ack.largestPlusOne, next)
      modifies this`outstanding, this`chunks
      ensures Valid()
      ensures Abs() == AckAll(w0, PartlyClaimed(ack, prefixEnd, ack.bitmapBase + bitsToScan))
    {
      hide CountAcked, BitAt, AckAll, PartlyClaimed, Shape;
      for bit := 0 to bitsToScan
        invariant Valid()
        invariant Abs() == AckAll(w0, PartlyClaimed(ack, prefixEnd, ack.bitmapBase + bit))
      {
        var sequence := ack.bitmapBase + bit;
        assert BitmapStep(w0, ack, prefixEnd, bit);
        if BitAt(ack.bitmap, bit) && sequence < total && sequence < next {
          MarkAcked(sequence);
        }
      }
    }

    /** The last loop of process_ack, from next_sequence_ down to the base. */
    method ScanLaterAcked(now: int)
      requires Valid()
      modifies this`queue, this`chunks
      ensures Valid()
      ensures Abs() == ScanEvidence(old(Abs()), now)
    {
      ghost var w1 := Abs();
      ScanSteps(w1, now);
      assert base <= next <= |chunks| < 0x1_0000_0000;
      hide CountAcked, Shape, PartlyScanned, Considered;
      var laterAcked := 0;
      var s := next;
      assert laterAcked == CountAcked(w1.chunks, s, next) by { EmptyCount(w1.chunks, next); }
      while s > base
        invariant base <= s <= next
        invariant laterAcked == CountAcked(w1.chunks, s, next)
        invariant Valid()
        invariant Abs() == PartlyScanned(w1, s, now)
      {
        s := s - 1;
        assert ScanStep(w1, s, now);
        if chunks[s].state.Acked? {
          laterAcked := laterAcked + 1;
        } else if chunks[s].state.InFlight? {
          Consider(s, laterAcked, now);
        }
      }
      ScanDone(w1, now);
    }

    /** The body of that loop for a chunk in flight. */
    method Consider(s: uint32, laterAcked: uint32, now: int)
      requires Valid() && s < next && chunks[s].state.InFlight?
      modifies this`queue, this`chunks
      ensures Valid()
      ensures Abs() == Considered(old(Abs()), s, laterAcked, now)
    {
      var c := chunks[s];
      var hasNewLaterSack := laterAcked > c.laterAcked;
      chunks := chunks[s := c.(laterAcked := laterAcked)];
      CountSame(old(chunks), chunks, 0, next);
      var hasNewSackEvidence := laterAcked >= c.evidence && laterAcked - c.evidence >= FAST_RETRANSMIT_THRESHOLD;
      var retryDelayElapsed := !c.fastRetransmitted || now - c.lastSent >= REPEATED_FAST_RETRANSMIT_DELAY;
      if hasNewLaterSack && hasNewSackEvidence && retryDelayElapsed {
        QueueRetransmission(s, true);
      }
    }

    method ProcessAckPayload(ack: AckPayload, now: int)
      requires Valid()
      modifies this
      ensures Valid()
      ensures Abs() == ProcessAck(old(Abs()), ack, now)
    {
      ghost var w0 := Abs();
      MarkClaimed(ack);
      AdvanceWithin(w0, ClaimedSet(ack));
      AdvanceToFirstUnacked();
      ScanLaterAcked(now);
    }

    method CheckForTimeouts(now: int, rto: int)
      requires Valid()
      modifies this`queue, this`chunks
      ensures Valid()
      ensures Abs() == CheckTimeouts(old(Abs()), now, rto)
    {
      ghost var w0 := Abs();
      TimeoutSteps(w0, now, rto);
      assert base <= next <= |chunks| < 0x1_0000_0000;
      hide CountAcked, Shape, PartlyExpired;
      for s := base to next
        invariant Valid()
        invariant Abs() == PartlyExpired(w0, s, now, rto)
      {
        assert TimeoutStep(w0, s, now, rto);
        var c := chunks[s];
        if c.state.InFlight? && !c.pending && now - c.lastSent >= rto {
          QueueRetransmission(s, false);
        }
      }
      TimeoutsDone(w0, now, rto);
    }
  }
}

/** What each operation of `SenderWindow` (src/reliability.cpp) does to the sender's state, stated
    chunk by chunk; SenderWindow.dfy proves the in-place loops against these functions.
    Time is an integer number of nanoseconds of the steady clock. */
module SenderModel {
  import opened Bytes
  import opened Protocol

  datatype PacketState = Unsent | InFlight | Acked

  datatype Chunk = Chunk(
    state: PacketState, lastSent: int, pending: bool, fastPending: bool, fastRetransmitted: bool,
    laterAcked: nat, evidence: nat)

  const FRESH_CHUNK := Chunk(Unsent, 0, false, false, false, 0, 0)

  const REPEATED_FAST_RETRANSMIT_DELAY := DEFAULT_RTO / 2

  /** total_chunks_, logical_window_chunks_, sack_coverage_chunks_, base_, next_sequence_,
      outstanding_chunks_, chunks_ and retransmission_queue_. */
  datatype Window = Window(
    total: nat, logical: nat, coverage: nat, base: nat, next: nat, outstanding: nat,
    chunks: seq<Chunk>, queue: seq<nat>)

  datatype Decision = Decision(sequence: nat, retransmission: bool, fast: bool)

  function NewWindow(total: uint32, logical: uint32, coverage: uint32): Window {
    Window(total, logical, coverage, 0, 0, 0, seq(total, _ => FRESH_CHUNK), [])
  }

  // ----- counting

  /** The number of ACKED chunks in [lo, hi). */
  function CountAcked(cs: seq<Chunk>, lo: nat, hi: nat): (n: nat)
    requires hi <= |cs|
    ensures lo <= hi ==> n <= hi - lo
    decreases hi - lo
  {
    if lo >= hi then 0
    else (if cs[lo].state.Acked? then 1 else 0) + CountAcked(cs, lo + 1, hi)
  }

  /** What every caller of the class can rely on: the counters match the chunk array,
      the queue holds selected chunks only, everything below the base is ACKED and everything
      not yet selected is UNSENT. */
  ghost predicate Shape(w: Window) {
    && |w.chunks| == w.total < 0x1_0000_0000
    && w.base <= w.next <= w.total
    && w.outstanding == w.next - CountAcked(w.chunks, 0, w.next)
    && Below(w.queue, w.next)
    && (forall i | 0 <= i < w.base :: w.chunks[i].state.Acked?)
    && (forall i | w.next <= i < w.total :: w.chunks[i].state.Unsent?)
  }

  /** The base is the least chunk that is not ACKED, or the end. */
  ghost predicate AtHole(w: Window) {
    w.base < |w.chunks| ==> !w.chunks[w.base].state.Acked?
  }

  predicate Below(queue: seq<nat>, n: nat) {
    forall k | 0 <= k < |queue| :: queue[k] < n
  }

  // ----- selection

  /** The queue from its first entry that still asks for a retransmission. */
  function DropStale(cs: seq<Chunk>, queue: seq<nat>): (r: seq<nat>)
    requires Below(queue, |cs|)
    ensures Below(r, |cs|)
    ensures forall n {:trigger Below(queue, n)} | Below(queue, n) :: Below(r, n)
    ensures r != [] ==> cs[r[0]].state.InFlight? && cs[r[0]].pending
  {
    if queue == [] || (cs[queue[0]].state.InFlight? && cs[queue[0]].pending) then queue
    else
      assert forall n {:trigger Below(queue, n)} | Below(queue, n) :: Below(queue[1..], n);
      DropStale(cs, queue[1..])
  }

  predicate CanSendNew(w: Window) {
    w.next < w.total && w.outstanding < w.logical && w.next < w.base + w.coverage
  }

  /** A chunk whose retransmission is taken from the queue: what is known now becomes the
      evidence that the next fast retransmission has to exceed. */
  function Taken(c: Chunk): Chunk {
    c.(pending := false, fastPending := false, fastRetransmitted := true, evidence := c.laterAcked)
  }

  function Fresh(w: Window): Window
    requires Below(w.queue, |w.chunks|)
  {
    w.(queue := DropStale(w.chunks, w.queue))
  }

  function TakeHead(w: Window): Window
    requires w.queue != [] && w.queue[0] < |w.chunks|
  {
    w.(queue := w.queue[1..], chunks := w.chunks[w.queue[0] := Taken(w.chunks[w.queue[0]])])
  }

  function Extend(w: Window): Window {
    w.(next := w.next + 1, outstanding := w.outstanding + 1)
  }

  /** Retransmissions come first, then new chunks within both limits. */
  function Select(w: Window): (Window, Option<Decision>)
    requires Below(w.queue, |w.chunks|)
  {
    var v := Fresh(w);
    if v.queue != [] then
      (TakeHead(v), Some(Decision(v.queue[0], true, w.chunks[v.queue[0]].fastPending)))
    else if CanSendNew(v) then (Extend(v), Some(Decision(v.next, false, false)))
    else (v, None)
  }

  function MarkSent(w: Window, s: nat, at: int): Window
    requires s < |w.chunks|
  {
    w.(chunks := w.chunks[s := w.chunks[s].(state := InFlight, lastSent := at)])
  }

  // ----- acknowledgement

  /** `(bitmap[bit / 8] & (1U << (bit % 8))) != 0` */
  predicate BitAt(bitmap: seq<uint8>, bit: nat)
    requires bit < 8 * |bitmap|
  {
    Bit(bitmap[bit / 8], bit % 8)
  }

  predicate InBitmap(ack: AckPayload, s: nat) {
    && ack.bitmapBase <= s < ack.largestPlusOne
    && s - ack.bitmapBase < Min(ack.bitmapBits, 8 * |ack.bitmap|)
    && BitAt(ack.bitmap, s - ack.bitmapBase)
  }

  /** The chunks that an ACK payload claims to have been received. */
  predicate Claims(ack: AckPayload, s: nat) {
    s < ack.cumulativeAck || InBitmap(ack, s)
  }

  function AckChunk(c: Chunk): Chunk {
    if c.state.Acked? then c else c.(state := Acked, pending := false, fastPending := false)
  }

  function AckChunks(cs: seq<Chunk>, next: nat, s: iset<nat>): (r: seq<Chunk>)
    ensures |r| == |cs|
  {
    seq(|cs|, i requires 0 <= i < |cs| => if i < next && i in s then AckChunk(cs[i]) else cs[i])
  }

  /** Every selected chunk in `s` becomes ACKED and the unACKed ones are counted afresh. */
  ghost function AckAll(w: Window, s: iset<nat>): Window
    requires w.next <= |w.chunks|
  {
    var cs := AckChunks(w.chunks, w.next, s);
    w.(chunks := cs, outstanding := w.next - CountAcked(cs, 0, w.next))
  }

  /** The least chunk at or after `b` that is not ACKED, or the end. */
  function FirstUnacked(cs: seq<Chunk>, b: nat): (r: nat)
    requires b <= |cs|
    ensures b <= r <= |cs|
    ensures forall i | b <= i < r :: cs[i].state.Acked?
    ensures r < |cs| ==> !cs[r].state.Acked?
    decreases |cs| - b
  {
    if b < |cs| && cs[b].state.Acked? then FirstUnacked(cs, b + 1) else b
  }

  /** SACK evidence calls for a fast retransmission: `later` exceeds what was known before, by
      at least the threshold since the last retransmission, and a repeat has waited long enough. */
  predicate FastDue(c: Chunk, later: nat, now: int) {
    && later > c.laterAcked
    && later >= c.evidence
    && later - c.evidence >= FAST_RETRANSMIT_THRESHOLD
    && (!c.fastRetransmitted || now - c.lastSent >= REPEATED_FAST_RETRANSMIT_DELAY)
  }

  function Witness(c: Chunk, later: nat, now: int): Chunk {
    var d := c.(laterAcked := later);
    if FastDue(c, later, now) && !c.pending then d.(pending := true, fastPending := true, fastRetransmitted := true)
    else d
  }

  /** The in-flight chunks of [lo, hi) that the scan queues, highest first. */
  function FastQueue(cs: seq<Chunk>, lo: nat, hi: nat, now: int): (r: seq<nat>)
    requires lo <= hi <= |cs|
    ensures forall k | 0 <= k < |r| :: lo <= r[k] < hi
    decreases hi - lo
  {
    if lo == hi then []
    else
      var rest := FastQueue(cs, lo + 1, hi, now);
      var c := cs[lo];
      if c.state.InFlight? && !c.pending && FastDue(c, CountAcked(cs, lo + 1, hi), now) then rest + [lo] else rest
  }

  function Witnessed(cs: seq<Chunk>, lo: nat, hi: nat, now: int): (r: seq<Chunk>)
    requires hi <= |cs|
    ensures |r| == |cs|
  {
    seq(|cs|, i requires 0 <= i < |cs| =>
      if lo <= i < hi && cs[i].state.InFlight? then Witness(cs[i], CountAcked(cs, i + 1, hi), now) else cs[i])
  }

  /** The evidence scan over the open window. */
  function ScanEvidence(w: Window, now: int): Window
    requires w.base <= w.next <= |w.chunks|
  {
    w.(chunks := Witnessed(w.chunks, w.base, w.next, now),
       queue := w.queue + FastQueue(w.chunks, w.base, w.next, now))
  }

  ghost function ClaimedSet(ack: AckPayload): iset<nat> { iset s: nat | Claims(ack, s) }

  ghost function AdvanceBase(w: Window): Window
    requires w.base <= |w.chunks|
  {
    w.(base := FirstUnacked(w.chunks, w.base))
  }

  /** An unselected chunk is never ACKED, so the new base stays at or below next_sequence_. */
  lemma AdvanceWithin(w: Window, s: iset<nat>)
    requires Shape(w)
    ensures FirstUnacked(AckAll(w, s).chunks, w.base) <= w.next
  {
    var cs := AckAll(w, s).chunks;
    if w.next < w.total {
      assert !cs[w.next].state.Acked?;
    }
  }

  ghost function ProcessAck(w: Window, ack: AckPayload, now: int): Window
    requires Shape(w)
  {
    var a := AckAll(w, ClaimedSet(ack));
    AdvanceWithin(w, ClaimedSet(ack));
    ScanEvidence(AdvanceBase(a), now)
  }

  // ----- timeouts

  /** queue_retransmission: a chunk is queued at most once, and only while in flight. */
  function Queue(w: Window, s: nat, fast: bool): Window
    requires s < |w.chunks|
  {
    var c := w.chunks[s];
    if !c.state.InFlight? || c.pending then w
    else w.(queue := w.queue + [s],
            chunks := w.chunks[s := c.(pending := true, fastPending := fast,
                                       fastRetransmitted := c.fastRetransmitted || fast)])
  }

  predicate TimedOut(c: Chunk, now: int, rto: int) {
    c.state.InFlight? && !c.pending && now - c.lastSent >= rto
  }

  function TimeoutQueue(cs: seq<Chunk>, lo: nat, hi: nat, now: int, rto: int): (r: seq<nat>)
    requires lo <= hi <= |cs|
    ensures forall k | 0 <= k < |r| :: lo <= r[k] < hi
    decreases hi - lo
  {
    if lo == hi then []
    else (if TimedOut(cs[lo], now, rto) then [lo] else []) + TimeoutQueue(cs, lo + 1, hi, now, rto)
  }

  function Expired(cs: seq<Chunk>, lo: nat, hi: nat, now: int, rto: int): (r: seq<Chunk>)
    requires hi <= |cs|
    ensures |r| == |cs|
  {
    seq(|cs|, i requires 0 <= i < |cs| =>
      if lo <= i < hi && TimedOut(cs[i], now, rto) then cs[i].(pending := true, fastPending := false) else cs[i])
  }

  /** Every in-flight chunk that is not already queued and has waited `rto` is queued, lowest first. */
  function CheckTimeouts(w: Window, now: int, rto: int): Window
    requires w.base <= w.next <= |w.chunks|
  {
    w.(chunks := Expired(w.chunks, w.base, w.next, now, rto),
       queue := w.queue + TimeoutQueue(w.chunks, w.base, w.next, now, rto))
  }
}

/** `ReceiverTracker` of src/reliability.cpp: a flag per chunk with summaries kept up to date
    incrementally, and the SACK snapshot made from them. */
module Receiver {
  import opened Bytes
  import opened Protocol
  import opened SenderModel

  // ----- the summaries, defined on the flags alone

  ghost function Accepted(r: seq<bool>): set<nat> {
    set i: nat | i < |r| && r[i]
  }

  /** The least chunk at or after `b` that is missing, or the end. */
  function FirstMissing(r: seq<bool>, b: nat): (m: nat)
    requires b <= |r|
    ensures b <= m <= |r|
    ensures forall i | b <= i < m :: r[i]
    ensures m < |r| ==> !r[m]
    decreases |r| - b
  {
    if b < |r| && r[b] then FirstMissing(r, b + 1) else b
  }

  /** One more than the largest received chunk, or zero. */
  function LargestPlusOne(r: seq<bool>): (m: nat)
    ensures m <= |r|
    ensures forall i | m <= i < |r| :: !r[i]
    ensures m > 0 ==> r[m - 1]
  {
    if r == [] then 0
    else if r[|r| - 1] then |r|
    else LargestPlusOne(r[..|r| - 1])
  }

  function MarkReceived(r: seq<bool>, s: nat): seq<bool> {
    if s < |r| then r[s := true] else r
  }

  lemma {:induction false} CardinalityBelow(s: set<nat>, n: nat)
    requires forall i | i in s :: i < n
    ensures |s| <= n
    ensures |s| == n <==> forall i: nat | i < n :: i in s
  {
    if n == 0 {
      assert s == {};
    } else {
      var t := s - {n - 1};
      CardinalityBelow(t, n - 1);
      if n - 1 in s {
        assert s == t + {n - 1};
      } else {
        assert s == t;
      }
    }
  }

  lemma AcceptedMark(r: seq<bool>, s: nat)
    requires s < |r|
    ensures Accepted(MarkReceived(r, s)) == Accepted(r) + {s}
  {
  }

  lemma {:induction false} MissingUnique(r: seq<bool>, b: nat, m: nat)
    requires b <= m <= |r|
    requires forall i | b <= i < m :: r[i]
    requires m < |r| ==> !r[m]
    ensures FirstMissing(r, b) == m
    decreases m - b
  {
    if b < m {
      MissingUnique(r, b + 1, m);
    }
  }

  /** After a mark the scan can go on from the old first missing chunk. */
  lemma MissingAfterMark(r: seq<bool>, s: nat)
    requires s < |r|
    ensures FirstMissing(MarkReceived(r, s), 0) == FirstMissing(MarkReceived(r, s), FirstMissing(r, 0))
  {
    MissingUnique(MarkReceived(r, s), 0, FirstMissing(MarkReceived(r, s), FirstMissing(r, 0)));
  }

  lemma {:induction false} LargestUnique(r: seq<bool>, m: nat)
    requires m <= |r|
    requires forall i | m <= i < |r| :: !r[i]
    requires m > 0 ==> r[m - 1]
    ensures LargestPlusOne(r) == m
    decreases |r|
  {
    if m < |r| {
      LargestUnique(r[..|r| - 1], m);
    }
  }

  lemma LargestAfterMark(r: seq<bool>, s: nat)
    requires s < |r|
    ensures LargestPlusOne(MarkReceived(r, s)) == Max(LargestPlusOne(r), s + 1)
  {
    hide LargestPlusOne;
    LargestUnique(MarkReceived(r, s), Max(LargestPlusOne(r), s + 1));
  }

  /** Everything has been received exactly when nothing is missing below the end. */
  lemma CompleteIff(r: seq<bool>)
    ensures |Accepted(r)| <= |r|
    ensures |Accepted(r)| == |r| <==> FirstMissing(r, 0) == |r|
    ensures |Accepted(r)| == |r| <==> forall i | 0 <= i < |r| :: r[i]
  {
    CardinalityBelow(Accepted(r), |r|);
    assert forall i: nat | i < |r| :: r[i] <==> i in Accepted(r);
  }

  // ----- runs of arrivals

  function MarkAll(r: seq<bool>, arrivals: seq<nat>): (q: seq<bool>)
    ensures |q| == |r|
    decreases |arrivals|
  {
    if arrivals == [] then r else MarkAll(MarkReceived(r, arrivals[0]), arrivals[1..])
  }

  lemma {:induction false} MarkAllContents(r: seq<bool>, arrivals: seq<nat>)
    ensures forall i: nat | i < |r| :: MarkAll(r, arrivals)[i] == (r[i] || i in arrivals)
    decreases |arrivals|
  {
    if arrivals != [] {
      MarkAllContents(MarkReceived(r, arrivals[0]), arrivals[1..]);
      assert forall i :: i in arrivals <==> i == arrivals[0] || i in arrivals[1..];
    }
  }

  /** Arrival order, duplicates and numbers out of range do not matter: two runs that deliver the
      same chunks leave the same flags, so every summary and every snapshot is the same. */
  lemma OrderIrrelevant(total: nat, a: seq<nat>, b: seq<nat>)
    requires forall i: nat | i < total :: i in a <==> i in b
    ensures var r := seq(total, _ => false);
            && MarkAll(r, a) == MarkAll(r, b)
            && Accepted(MarkAll(r, a)) == set i: nat | i < total && i in a
  {
    var r := seq(total, _ => false);
    MarkAllContents(r, a);
    MarkAllContents(r, b);
  }

  // ----- the snapshot

  /** The bitmap of `size` bytes after scanning `n` bits from chunk `base`. */
  function ScanBits(r: seq<bool>, base: nat, size: nat, n: nat): (b: seq<uint8>)
    requires base + n <= |r| && n <= 8 * size
    ensures |b| == size
  {
    if n == 0 then seq(size, _ => 0)
    else
      var b := ScanBits(r, base, size, n - 1);
      if r[base + n - 1] then b[(n - 1) / 8 := SetBit(b[(n - 1) / 8], (n - 1) % 8)] else b
  }

  lemma ScanNothing(r: seq<bool>, base: nat, size: nat)
    requires base <= |r|
    ensures ScanBits(r, base, size, 0) == seq(size, _ => 0)
  {
  }

  lemma ScanOne(r: seq<bool>, base: nat, size: nat, n: nat)
    requires base + n < |r| && n < 8 * size
    ensures var b := ScanBits(r, base, size, n);
            ScanBits(r, base, size, n + 1)
            == if r[base + n] then b[n / 8 := SetBit(b[n / 8], n % 8)] else b
  {
  }

  /** Bit k of the bitmap is the flag of chunk base + k, and every unscanned bit is zero. */
  lemma {:induction false} ScanBitsAt(r: seq<bool>, base: nat, size: nat, n: nat, k: nat)
    requires base + n <= |r| && n <= 8 * size && k < 8 * size
    ensures BitAt(ScanBits(r, base, size, n), k) <==> k < n && r[base + k]
  {
    if n == 0 {
      ZeroBits(k % 8);
    } else {
      ScanBitsAt(r, base, size, n - 1, k);
      var b := ScanBits(r, base, size, n - 1);
      var m := n - 1;
      if r[base + m] {
        SetOneBit(b, m, k);
      }
    }
  }

  lemma SetOneBit(b: seq<uint8>, m: nat, k: nat)
    requires m < 8 * |b| && k < 8 * |b|
    ensures BitAt(b[m / 8 := SetBit(b[m / 8], m % 8)], k) <==> k == m || BitAt(b, k)
  {
    if k / 8 == m / 8 {
      assert Bit(SetBit(b[m / 8], m % 8), k % 8) == (k % 8 == m % 8 || Bit(b[m / 8], k % 8));
    }
  }

  function BitsToScan(r: seq<bool>, bits: uint16): (n: nat)
    ensures n <= bits && FirstMissing(r, 0) + n <= |r|
  {
    var base := FirstMissing(r, 0);
    if base < LargestPlusOne(r) then Min(bits, LargestPlusOne(r) - base) else 0
  }

  function Snapshot(r: seq<bool>, bits: uint16): (ack: AckPayload)
    requires |r| < 0x1_0000_0000
    ensures WellSized(ack)
  {
    var base := FirstMissing(r, 0);
    AckPayload(base, LargestPlusOne(r), base, bits, ScanBits(r, base, BitmapBytes(bits), BitsToScan(r, bits)))
  }

  /** Each field of a snapshot: the least missing chunk, twice; one more than the greatest received chunk,
      or zero; the width; and in bit k of the bitmap the flag of chunk k after the least missing one. */
  lemma SnapshotFields(r: seq<bool>, bits: uint16)
    requires |r| < 0x1_0000_0000
    ensures var ack := Snapshot(r, bits); var base := ack.bitmapBase; var size := (bits + 7) / 8;
            && base <= |r| && (forall i | 0 <= i < base :: r[i]) && (base < |r| ==> !r[base])
            && ack.cumulativeAck == base
            && (forall i | i in Accepted(r) :: i < ack.largestPlusOne)
            && (ack.largestPlusOne > 0 ==> ack.largestPlusOne - 1 in Accepted(r))
            && ack.bitmapBits == bits && |ack.bitmap| == size
            && forall k: nat | k < 8 * size ::
                 (ack.bitmap[k / 8] / Pow2(k % 8)) % 2 == 1 <==> k < bits && base + k < |r| && r[base + k]
  {
    var ack := Snapshot(r, bits);
    var base := FirstMissing(r, 0);
    hide ScanBits, FirstMissing, LargestPlusOne, Pow2;
    forall k: nat | k < 8 * BitmapBytes(bits)
      ensures (ack.bitmap[k / 8] / Pow2(k % 8)) % 2 == 1 <==> k < bits && base + k < |r| && r[base + k]
    {
      ScanBitsAt(r, base, BitmapBytes(bits), BitsToScan(r, bits), k);
      BitIs(ack.bitmap[k / 8], k % 8);
    }
  }

  lemma SnapshotBitmap(r: seq<bool>, bits: uint16, s: nat)
    requires |r| < 0x1_0000_0000
    requires FirstMissing(r, 0) <= s < LargestPlusOne(r) && s < FirstMissing(r, 0) + bits
    ensures InBitmap(Snapshot(r, bits), s) <==> r[s]
  {
    hide ScanBits, BitAt, FirstMissing, LargestPlusOne;
    ScanBitsAt(r, FirstMissing(r, 0), BitmapBytes(bits), BitsToScan(r, bits), s - FirstMissing(r, 0));
  }

  /** A snapshot claims every chunk below the first missing one, and beyond it exactly the
      received chunks within the width of the bitmap. */
  lemma SnapshotClaims(r: seq<bool>, bits: uint16, s: nat)
    requires |r| < 0x1_0000_0000
    ensures Claims(Snapshot(r, bits), s)
            <==> s < FirstMissing(r, 0) || (s < |r| && r[s] && s < FirstMissing(r, 0) + bits)
  {
    var ack := Snapshot(r, bits);
    assert ack.cumulativeAck == ack.bitmapBase == FirstMissing(r, 0) && ack.largestPlusOne == LargestPlusOne(r);
    assert ack.bitmapBits == bits;
    if s < FirstMissing(r, 0) {
    } else if s < LargestPlusOne(r) && s < FirstMissing(r, 0) + bits {
      SnapshotBitmap(r, bits, s);
    } else {
      assert !InBitmap(ack, s);
    }
  }

  /** It never claims a missing chunk, and claims every received one when they all lie within
      the bitmap. */
  lemma SnapshotLossless(r: seq<bool>, bits: uint16)
    requires |r| < 0x1_0000_0000
    ensures forall s: nat | Claims(Snapshot(r, bits), s) :: s < |r| && r[s]
    ensures LargestPlusOne(r) <= FirstMissing(r, 0) + bits ==>
              forall s: nat | s < |r| && r[s] :: Claims(Snapshot(r, bits), s)
  {
    forall s: nat ensures Claims(Snapshot(r, bits), s) ==> s < |r| && r[s] {
      SnapshotClaims(r, bits, s);
    }
    forall s: nat | s < |r| && r[s] && LargestPlusOne(r) <= FirstMissing(r, 0) + bits
      ensures Claims(Snapshot(r, bits), s)
    {
      SnapshotClaims(r, bits, s);
    }
  }

  class ReceiverTracker {
    const received: array<bool>
    var receivedCount: uint32
    var cumulativeAck: uint32
    var largest: uint32

    ghost predicate Valid()
      reads this, received
    {
      && received.Length < 0x1_0000_0000
      && receivedCount == |Accepted(received[..])|
      && cumulativeAck == FirstMissing(received[..], 0)
      && largest == LargestPlusOne(received[..])
    }

    constructor (totalChunks: uint32)
      ensures Valid() && fresh(received)
      ensures received[..] == seq(totalChunks, _ => false)
    {
      received := new bool[totalChunks](_ => false);
      receivedCount, cumulativeAck, largest := 0, 0, 0;
      new;
      assert Accepted(received[..]) == {};
      LargestUnique(received[..], 0);
    }

    predicate HasReceived(s: uint32)
      requires Valid()
      reads this, received
    {
      s < received.Length && received[s]
    }

    /** Accepts a chunk once: the flags change exactly when it is new and in range. */
    method Mark(s: uint32) returns (accepted: bool)
      requires Valid()
      modifies this, received
      ensures Valid()
      ensures accepted == (s < received.Length && !old(received[..])[s])
      ensures received[..] == MarkReceived(old(received[..]), s)
    {
      ghost var r := received[..];
      if s >= received.Length || received[s] {
        assert received[..] == MarkReceived(r, s);
        return false;
      }
      received[s] := true;
      assert received[..] == MarkReceived(r, s);
      AcceptedMark(r, s);
      CompleteIff(received[..]);
      LargestAfterMark(r, s);
      MissingAfterMark(r, s);
      receivedCount := receivedCount + 1;
      largest := Max(largest, s + 1);
      AdvanceCumulative();
      return true;
    }

    method AdvanceCumulative()
      requires cumulativeAck <= received.Length < 0x1_0000_0000
      modifies this`cumulativeAck
      ensures cumulativeAck == FirstMissing(received[..], old(cumulativeAck))
    {
      while cumulativeAck < received.Length && received[cumulativeAck]
        invariant cumulativeAck <= received.Length
        invariant FirstMissing(received[..], cumulativeAck) == FirstMissing(received[..], old(cumulativeAck))
        decreases received.Length - cumulativeAck
      {
        cumulativeAck := cumulativeAck + 1;
      }
    }

    method Complete() returns (r: bool)
      requires Valid()
      ensures r <==> forall i | 0 <= i < received.Length :: received[i]
      ensures r <==> cumulativeAck == received.Length
    {
      CompleteIff(received[..]);
      r := receivedCount == received.Length;
    }

    method MakeAckSnapshot(bits: uint16) returns (ack: AckPayload)
      requires Valid()
      ensures ack == Snapshot(received[..], bits)
    {
      var base := cumulativeAck;
      var limit := Min(largest, received.Length);
      var bitsToScan := if base < limit then Min(bits, limit - base) else 0;
      var bitmap := new uint8[(bits + 7) / 8](_ => 0);
      ghost var r := received[..];
      hide LargestPlusOne, FirstMissing, Bit, Accepted, ScanBits;
      ScanNothing(r, base, BitmapBytes(bits));
      assert bitmap[..] == ScanBits(r, base, BitmapBytes(bits), 0);
      for bit := 0 to bitsToScan
        invariant received[..] == r
        invariant bitmap[..] == ScanBits(r, base, BitmapBytes(bits), bit)
      {
        ScanOne(r, base, BitmapBytes(bits), bit);
        if received[base + bit] {
          bitmap[bit / 8] := SetBit(bitmap[bit / 8], bit % 8);
        }
      }
      ack := AckPayload(cumulativeAck, largest, cumulativeAck, bits, bitmap[..]);
    }
  }
}

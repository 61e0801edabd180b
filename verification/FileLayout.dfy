/** How a file is cut into chunks (src/protocol.cpp:55-72, src/client.cpp:553-555,
    src/server.cpp:331-343) and put together again. */
module FileLayout {
  import opened Bytes
  import opened Protocol

  /** None where the source throws. */
  function ChunkSizeForMtu(mtu: uint32): Option<uint32> {
    var overhead := IPV4_UDP_OVERHEAD + HEADER_SIZE;
    if mtu <= overhead || mtu > 0xFFFF then None else Some(mtu - overhead)
  }

  /** None where the source throws. */
  function ChunkCount(fileSize: uint64, chunkSize: uint32): Option<uint32> {
    if chunkSize == 0 then None
    else
      var count: uint64 := CeilDiv(fileSize, chunkSize);
      if count > 0xFFFF_FFFF then None else Some(count)
  }

  function CeilDiv(n: nat, d: nat): (q: nat)
    requires d > 0
    ensures q <= n
    ensures q * d >= n
    ensures q > 0 ==> (q - 1) * d < n
  {
    var q := n / d + (if n % d != 0 then 1 else 0);
    CeilDivBounds(n, d);
    q
  }

  lemma CeilDivBounds(n: nat, d: nat)
    requires d > 0
    ensures var q := n / d + (if n % d != 0 then 1 else 0);
            q <= n && q * d >= n && (q > 0 ==> (q - 1) * d < n)
  {
    CeilParts(n, d, n / d, n % d);
  }

  lemma CeilParts(n: nat, d: nat, a: nat, r: nat)
    requires r < d && n == d * a + r
    ensures var q := a + (if r != 0 then 1 else 0);
            q <= n && q * d >= n && (q > 0 ==> (q - 1) * d < n)
  {
    assert d * a >= a by { Ordered(1, d, a); }
    assert (a + 1) * d == d * a + d;
    assert (a - 1) * d == d * a - d;
  }

  /** The file of `size` bytes has `n` chunks of `c` bytes, the last one possibly shorter. */
  ghost predicate Layout(size: nat, c: nat, n: nat) {
    c > 0 && n * c >= size && (n > 0 ==> (n - 1) * c < size)
  }

  /** A packet of `mtu` bytes leaves all but 52 of them to the chunk. */
  lemma ChunkSizeIff(mtu: uint32, c: uint32)
    ensures ChunkSizeForMtu(mtu) == Some(c) <==> 53 <= mtu <= 65535 && mtu == c + 52
  {
  }

  /** A count is refused exactly for empty chunks and for files of more than 2^32 - 1 chunks. */
  lemma ChunkCountIff(size: uint64, c: uint32)
    ensures ChunkCount(size, c).Some? <==> c > 0 && size <= 0xFFFF_FFFF * c
  {
    if c > 0 {
      var q := CeilDiv(size, c);
      if q > 0xFFFF_FFFF {
        Ordered(0xFFFF_FFFF, q - 1, c);
      } else {
        Ordered(q, 0xFFFF_FFFF, c);
      }
    }
  }

  lemma ChunkCountLayout(size: uint64, c: uint32)
    requires ChunkCount(size, c).Some?
    ensures Layout(size, c, ChunkCount(size, c).value)
  {
  }

  function Offset(c: nat, s: nat): nat { s * c }

  function Length(size: nat, c: nat, s: nat): int { Min(c, size - Offset(c, s)) }

  /** Every chunk is non-empty and in bounds, so that neither `size - offset` nor
      `offset + length` can wrap. */
  lemma ChunkInBounds(size: nat, c: nat, n: nat, s: nat)
    requires Layout(size, c, n) && s < n
    ensures Offset(c, s) < size
    ensures 0 < Length(size, c, s) <= c
    ensures Offset(c, s) + Length(size, c, s) <= size
  {
    assert Offset(c, s) <= (n - 1) * c by { Ordered(s, n - 1, c); }
  }

  lemma Ordered(a: nat, b: nat, c: nat)
    requires a <= b
    ensures a * c <= b * c
  {
    assert b * c == a * c + (b - a) * c;
  }

  /** Byte p belongs to chunk p / c, which is one of the n chunks, and to no other. */
  lemma ChunkOfByte(size: nat, c: nat, n: nat, p: nat, s: nat)
    requires Layout(size, c, n) && p < size
    ensures p / c < n
    ensures Offset(c, s) <= p < Offset(c, s) + Length(size, c, s) <==> s == p / c
  {
    assert p == (p / c) * c + p % c;
    ChunkOfParts(size, c, n, p / c, p % c, s);
  }

  lemma ChunkOfParts(size: nat, c: nat, n: nat, q: nat, r: nat, s: nat)
    requires Layout(size, c, n) && r < c && q * c + r < size
    ensures q < n
    ensures Offset(c, s) <= q * c + r < Offset(c, s) + Length(size, c, s) <==> s == q
  {
    if n <= q {
      Ordered(n, q, c);
    }
    if s < q {
      Ordered(s + 1, q, c);
      assert (s + 1) * c == s * c + c;
    } else if q < s {
      Ordered(q + 1, s, c);
      assert (q + 1) * c == q * c + c;
    }
  }

  /** Two different chunks do not overlap. */
  lemma ChunksDisjoint(size: nat, c: nat, n: nat, s: nat, t: nat)
    requires Layout(size, c, n) && s < t < n
    ensures Offset(c, s) + Length(size, c, s) <= Offset(c, t)
  {
    Ordered(s + 1, t, c);
    assert (s + 1) * c == s * c + c;
  }

  // ----- the bytes

  function ChunkBytes(file: seq<uint8>, c: nat, n: nat, s: nat): (b: seq<uint8>)
    requires Layout(|file|, c, n) && s < n
    ensures |b| == Length(|file|, c, s)
  {
    ChunkInBounds(|file|, c, n, s);
    file[Offset(c, s)..Offset(c, s) + Length(|file|, c, s)]
  }

  /** memcpy of a payload to an offset. */
  function Splice(out: seq<uint8>, offset: nat, payload: seq<uint8>): (r: seq<uint8>)
    requires offset + |payload| <= |out|
    ensures |r| == |out|
  {
    out[..offset] + payload + out[offset + |payload|..]
  }

  /** `out` agrees with `file` on chunk `s`. */
  ghost predicate Holds(out: seq<uint8>, file: seq<uint8>, c: nat, n: nat, s: nat)
    requires Layout(|file|, c, n) && s < n && |out| == |file|
  {
    ChunkInBounds(|file|, c, n, s);
    out[Offset(c, s)..Offset(c, s) + Length(|file|, c, s)] == ChunkBytes(file, c, n, s)
  }

  lemma CopyHolds(out: seq<uint8>, file: seq<uint8>, c: nat, n: nat, s: nat)
    requires Layout(|file|, c, n) && s < n && |out| == |file|
    ensures Offset(c, s) + |ChunkBytes(file, c, n, s)| <= |out|
    ensures Holds(Splice(out, Offset(c, s), ChunkBytes(file, c, n, s)), file, c, n, s)
  {
    ChunkInBounds(|file|, c, n, s);
  }

  lemma CopyKeeps(out: seq<uint8>, file: seq<uint8>, c: nat, n: nat, s: nat, t: nat)
    requires Layout(|file|, c, n) && s < n && t < n && s != t && |out| == |file|
    requires Holds(out, file, c, n, t)
    ensures Offset(c, s) + |ChunkBytes(file, c, n, s)| <= |out|
    ensures Holds(Splice(out, Offset(c, s), ChunkBytes(file, c, n, s)), file, c, n, t)
  {
    ChunkInBounds(|file|, c, n, s);
    ChunkInBounds(|file|, c, n, t);
    ChunksDisjoint(|file|, c, n, Min(s, t), Max(s, t));
    var o, l := Offset(c, t), Length(|file|, c, t);
    var r := Splice(out, Offset(c, s), ChunkBytes(file, c, n, s));
    assert r[o..o + l] == out[o..o + l];
  }

  /** A buffer that agrees with the file on every chunk is the file. */
  lemma AllHoldIsFile(out: seq<uint8>, file: seq<uint8>, c: nat, n: nat)
    requires Layout(|file|, c, n) && |out| == |file|
    requires forall s: nat | s < n :: Holds(out, file, c, n, s)
    ensures out == file
  {
    forall p: nat | p < |file| ensures out[p] == file[p] {
      var s := p / c;
      ChunkOfByte(|file|, c, n, p, s);
      ByteHeld(out, file, c, n, s, p);
    }
  }

  lemma ByteHeld(out: seq<uint8>, file: seq<uint8>, c: nat, n: nat, s: nat, p: nat)
    requires Layout(|file|, c, n) && |out| == |file| && s < n && Holds(out, file, c, n, s)
    requires Offset(c, s) <= p < Offset(c, s) + Length(|file|, c, s)
    ensures p < |file| && out[p] == file[p]
  {
    ChunkInBounds(|file|, c, n, s);
    var o, l := Offset(c, s), Length(|file|, c, s);
    assert out[o..o + l][p - o] == file[o..o + l][p - o];
  }

  function CopyAll(out: seq<uint8>, file: seq<uint8>, c: nat, n: nat, order: seq<nat>): (r: seq<uint8>)
    requires Layout(|file|, c, n) && |out| == |file|
    requires forall k | 0 <= k < |order| :: order[k] < n
    ensures |r| == |out|
    decreases |order|
  {
    if order == [] then out
    else
      ChunkInBounds(|file|, c, n, order[0]);
      CopyAll(Splice(out, Offset(c, order[0]), ChunkBytes(file, c, n, order[0])), file, c, n, order[1..])
  }

  lemma {:induction false} CopyAllHolds(out: seq<uint8>, file: seq<uint8>, c: nat, n: nat, order: seq<nat>, s: nat)
    requires Layout(|file|, c, n) && |out| == |file| && s < n
    requires forall k | 0 <= k < |order| :: order[k] < n
    requires s in order || Holds(out, file, c, n, s)
    ensures Holds(CopyAll(out, file, c, n, order), file, c, n, s)
    decreases |order|
  {
    if order != [] {
      if s == order[0] {
        CopyHolds(out, file, c, n, s);
      } else if Holds(out, file, c, n, s) {
        CopyKeeps(out, file, c, n, order[0], s);
      } else {
        assert s in order[1..];
      }
      ChunkInBounds(|file|, c, n, order[0]);
      CopyAllHolds(Splice(out, Offset(c, order[0]), ChunkBytes(file, c, n, order[0])), file, c, n, order[1..], s);
    }
  }

  /** Copying all the chunks, in any order and any number of times, rebuilds the file in a buffer
      of its size, whatever the buffer held. */
  lemma CopyInAnyOrder(out: seq<uint8>, file: seq<uint8>, c: nat, n: nat, order: seq<nat>)
    requires Layout(|file|, c, n) && |out| == |file|
    requires forall k | 0 <= k < |order| :: order[k] < n
    requires forall s: nat | s < n :: s in order
    ensures CopyAll(out, file, c, n, order) == file
  {
    forall s: nat | s < n ensures Holds(CopyAll(out, file, c, n, order), file, c, n, s) {
      CopyAllHolds(out, file, c, n, order, s);
    }
    AllHoldIsFile(CopyAll(out, file, c, n, order), file, c, n);
  }
}

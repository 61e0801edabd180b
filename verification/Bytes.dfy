/** Fixed-width unsigned integers, big-endian byte strings and single bits of a byte
    (the helpers at the top of src/protocol.cpp).  An integer of the source is an `int` with
    its range in the type, so that every assignment proves that nothing wraps. */
module Bytes {

  type uint8 = x: int | 0 <= x < 0x100
  type uint16 = x: int | 0 <= x < 0x1_0000
  type uint32 = x: int | 0 <= x < 0x1_0000_0000
  type uint64 = x: int | 0 <= x < 0x1_0000_0000_0000_0000

  datatype Option<+T> = None | Some(value: T)

  function Min(a: int, b: int): int { if a < b then a else b }

  function Max(a: int, b: int): int { if a < b then b else a }

  // ----- big-endian integers

  function Pow256(n: nat): (p: nat)
    ensures p > 0
  {
    if n == 0 then 1 else 256 * Pow256(n - 1)
  }

  /** The low `n` bytes of `v`, most significant first. */
  function ToBE(v: nat, n: nat): (s: seq<uint8>)
    ensures |s| == n
  {
    if n == 0 then [] else ToBE(v / 256, n - 1) + [v % 256]
  }

  function FromBE(s: seq<uint8>): nat
  {
    if s == [] then 0 else FromBE(s[..|s| - 1]) * 256 + s[|s| - 1]
  }

  lemma {:induction false} FromToBE(v: nat, n: nat)
    requires v < Pow256(n)
    ensures FromBE(ToBE(v, n)) == v
  {
    if n > 0 {
      FromToBE(v / 256, n - 1);
      assert ToBE(v, n)[..n - 1] == ToBE(v / 256, n - 1);
    }
  }

  lemma {:induction false} ToFromBE(s: seq<uint8>)
    ensures FromBE(s) < Pow256(|s|)
    ensures ToBE(FromBE(s), |s|) == s
  {
    if s != [] {
      ToFromBE(s[..|s| - 1]);
      assert s == s[..|s| - 1] + [s[|s| - 1]];
    }
  }

  lemma Powers()
    ensures Pow256(2) == 0x1_0000
    ensures Pow256(4) == 0x1_0000_0000
    ensures Pow256(8) == 0x1_0000_0000_0000_0000
  {
    assert Pow256(4) == 256 * (256 * Pow256(2));
    assert Pow256(6) == 256 * (256 * Pow256(4));
    assert Pow256(8) == 256 * (256 * Pow256(6));
  }

  lemma FromToBE16(v: uint16)
    ensures FromBE(ToBE(v, 2)) == v
  {
    Powers();
    FromToBE(v, 2);
  }

  lemma FromToBE32(v: uint32)
    ensures FromBE(ToBE(v, 4)) == v
  {
    Powers();
    FromToBE(v, 4);
  }

  lemma FromToBE64(v: uint64)
    ensures FromBE(ToBE(v, 8)) == v
  {
    Powers();
    FromToBE(v, 8);
  }

  function U16(s: seq<uint8>): (v: uint16)
    requires |s| == 2
    ensures ToBE(v, 2) == s
  {
    Powers();
    ToFromBE(s);
    FromBE(s)
  }

  function U32(s: seq<uint8>): (v: uint32)
    requires |s| == 4
    ensures ToBE(v, 4) == s
  {
    Powers();
    ToFromBE(s);
    FromBE(s)
  }

  function U64(s: seq<uint8>): (v: uint64)
    requires |s| == 8
    ensures ToBE(v, 8) == s
  {
    Powers();
    ToFromBE(s);
    FromBE(s)
  }

  lemma DivDiv(v: nat, d: nat)
    requires d > 0
    ensures (v / 256) / d == v / (256 * d)
  {
    var q := v / (256 * d);
    var r := v % (256 * d);
    assert v == 256 * d * q + r;
    assert v / 256 == d * q + r / 256;
    assert 0 <= r / 256 < d;
    DivUnique(v / 256, d, q, r / 256);
  }

  lemma DivUnique(v: nat, d: nat, q: nat, r: nat)
    requires d > 0 && r < d && v == d * q + r
    ensures v / d == q
  {
    var p := v / d;
    assert v == d * p + v % d;
    assert d * (p - q) == r - v % d;
    assert d * (q - p) == v % d - r;
    if q < p {
      AtLeastFactor(d, p - q);
    } else if p < q {
      AtLeastFactor(d, q - p);
    }
  }

  lemma AtLeastFactor(d: nat, x: nat)
    requires x >= 1
    ensures d * x >= d
  {
    assert d * x == d + d * (x - 1);
  }

  /** A shift by `8 * i` followed by truncation to a byte picks one byte of the string. */
  lemma {:induction false} ByteOfBE(v: nat, n: nat, i: nat)
    requires i < n
    ensures ToBE(v, n)[n - 1 - i] == (v / Pow256(i)) % 256
  {
    if i > 0 {
      ByteOfBE(v / 256, n - 1, i - 1);
      DivDiv(v, Pow256(i - 1));
    }
  }

  lemma BytesOf16(v: uint16)
    ensures ToBE(v, 2) == [v / 256, v % 256]
  {
    assert ToBE(v / 256, 1) == ToBE(v / 256 / 256, 0) + [v / 256 % 256];
  }

  lemma BytesOf32(v: uint32)
    ensures ToBE(v, 4) == [v / 0x100_0000, v / 0x1_0000 % 256, v / 256 % 256, v % 256]
  {
    BytesOf16(v / 0x1_0000);
    assert v / 256 / 256 == v / 0x1_0000 && v / 0x1_0000 / 256 == v / 0x100_0000;
    assert ToBE(v / 256, 3) == ToBE(v / 0x1_0000, 2) + [v / 256 % 256];
  }

  /** `out` holds `bytes` at `offset` and is otherwise what it was. */
  ghost predicate Wrote(before: seq<uint8>, after: seq<uint8>, offset: nat, bytes: seq<uint8>)
  {
    && |before| == |after|
    && offset + |bytes| <= |after|
    && after[offset..offset + |bytes|] == bytes
    && forall k | 0 <= k < |after| && !(offset <= k < offset + |bytes|) :: after[k] == before[k]
  }

  method WriteU16(out: array<uint8>, offset: nat, value: uint16)
    requires offset + 2 <= out.Length
    modifies out
    ensures Wrote(old(out[..]), out[..], offset, ToBE(value, 2))
    ensures out[..offset + 2] == old(out[..offset]) + ToBE(value, 2)
    ensures forall k | offset + 2 <= k < out.Length :: out[k] == old(out[k])
  {
    out[offset] := (value / 256) % 256;
    out[offset + 1] := value % 256;
    ByteOfBE(value, 2, 0);
    ByteOfBE(value, 2, 1);
    assert out[offset..offset + 2] == ToBE(value, 2);
  }

  method WriteU32(out: array<uint8>, offset: nat, value: uint32)
    requires offset + 4 <= out.Length
    modifies out
    ensures Wrote(old(out[..]), out[..], offset, ToBE(value, 4))
    ensures out[..offset + 4] == old(out[..offset]) + ToBE(value, 4)
    ensures forall k | offset + 4 <= k < out.Length :: out[k] == old(out[k])
  {
    var i := 3;
    while i >= 0
      invariant -1 <= i <= 3
      invariant forall k | 0 <= k < 3 - i :: out[offset + k] == ToBE(value, 4)[k]
      invariant forall k | 0 <= k < out.Length && !(offset <= k < offset + 4) :: out[k] == old(out[k])
    {
      ByteOfBE(value, 4, i);
      out[offset + (3 - i)] := (value / Pow256(i)) % 256;
      i := i - 1;
    }
    assert out[offset..offset + 4] == ToBE(value, 4);
  }

  method WriteU64(out: array<uint8>, offset: nat, value: uint64)
    requires offset + 8 <= out.Length
    modifies out
    ensures Wrote(old(out[..]), out[..], offset, ToBE(value, 8))
    ensures out[..offset + 8] == old(out[..offset]) + ToBE(value, 8)
    ensures forall k | offset + 8 <= k < out.Length :: out[k] == old(out[k])
  {
    var i := 7;
    while i >= 0
      invariant -1 <= i <= 7
      invariant forall k | 0 <= k < 7 - i :: out[offset + k] == ToBE(value, 8)[k]
      invariant forall k | 0 <= k < out.Length && !(offset <= k < offset + 8) :: out[k] == old(out[k])
    {
      ByteOfBE(value, 8, i);
      out[offset + (7 - i)] := (value / Pow256(i)) % 256;
      i := i - 1;
    }
    assert out[offset..offset + 8] == ToBE(value, 8);
  }

  method ReadU32(data: seq<uint8>) returns (value: uint32)
    requires |data| >= 4
    ensures value == U32(data[..4]) && ToBE(value, 4) == data[..4]
  {
    Powers();
    value := 0;
    for i := 0 to 4
      invariant value == FromBE(data[..i])
    {
      assert data[..i + 1][..i] == data[..i];
      ToFromBE(data[..i + 1]);
      PowMonotone(i + 1, 4);
      value := value * 256 + data[i];
    }
  }

  method ReadU64(data: seq<uint8>) returns (value: uint64)
    requires |data| >= 8
    ensures value == U64(data[..8]) && ToBE(value, 8) == data[..8]
  {
    Powers();
    value := 0;
    for i := 0 to 8
      invariant value == FromBE(data[..i])
    {
      assert data[..i + 1][..i] == data[..i];
      ToFromBE(data[..i + 1]);
      PowMonotone(i + 1, 8);
      value := value * 256 + data[i];
    }
  }

  lemma {:induction false} PowMonotone(m: nat, n: nat)
    requires m <= n
    ensures Pow256(m) <= Pow256(n)
  {
    if m < n {
      PowMonotone(m, n - 1);
    }
  }

  // ----- bits of a byte

  /** `(b & (1U << k)) != 0`: shift right `k` places and look at the low bit. */
  predicate Bit(b: nat, k: nat)
  {
    if k == 0 then b % 2 == 1 else Bit(b / 2, k - 1)
  }

  /** `b | (1U << k)` */
  function Or(b: nat, k: nat): nat
  {
    if k == 0 then b / 2 * 2 + 1 else Or(b / 2, k - 1) * 2 + b % 2
  }

  function Pow2(n: nat): (p: nat)
    ensures p > 0
  {
    if n == 0 then 1 else 2 * Pow2(n - 1)
  }

  /** The bit as a quotient of the number. */
  lemma {:induction false} BitIs(b: nat, k: nat)
    ensures Bit(b, k) <==> (b / Pow2(k)) % 2 == 1
  {
    if k > 0 {
      BitIs(b / 2, k - 1);
      HalfDiv(b, Pow2(k - 1));
    }
  }

  lemma HalfDiv(v: nat, d: nat)
    requires d > 0
    ensures (v / 2) / d == v / (2 * d)
  {
    HalfParts(v, d, v / (2 * d), v % (2 * d));
  }

  lemma HalfParts(v: nat, d: nat, q: nat, r: nat)
    requires r < 2 * d && v == (2 * d) * q + r
    ensures (v / 2) / d == q
  {
    assert (2 * d) * q == 2 * (d * q);
    HalfOf(d * q, r);
    DivUnique(v / 2, d, q, r / 2);
  }

  lemma HalfOf(x: nat, r: nat)
    ensures (2 * x + r) / 2 == x + r / 2
  {
  }

  lemma {:induction false} OrBits(b: nat, k: nat, j: nat)
    ensures Bit(Or(b, k), j) == (j == k || Bit(b, j))
  {
    if k > 0 && j > 0 {
      OrBits(b / 2, k - 1, j - 1);
    }
  }

  lemma {:induction false} OrBound(b: nat, k: nat, n: nat)
    requires b < Pow2(n) && k < n
    ensures Or(b, k) < Pow2(n)
  {
    assert Pow2(n) == 2 * Pow2(n - 1);
    assert Or(b, k) == if k == 0 then b / 2 * 2 + 1 else Or(b / 2, k - 1) * 2 + b % 2;
    var p := Pow2(n - 1);
    hide Pow2, Or;
    Halved(b, p);
    if k > 0 {
      OrBound(b / 2, k - 1, n - 1);
      Doubled(Or(b / 2, k - 1), b % 2, p);
    } else {
      Doubled(b / 2, 1, p);
    }
  }

  lemma Halved(b: nat, p: nat)
    requires b < 2 * p
    ensures b / 2 < p
  {
  }

  lemma Doubled(a: nat, r: nat, p: nat)
    requires a < p && r < 2
    ensures a * 2 + r < 2 * p
  {
  }

  function SetBit(b: uint8, k: nat): (r: uint8)
    requires k < 8
    ensures forall j: nat :: Bit(r, j) == (j == k || Bit(b, j))
  {
    assert Pow2(4) == 16 && Pow2(6) == 64 && Pow2(8) == 256;
    OrBound(b, k, 8);
    assert forall j: nat :: Bit(Or(b, k), j) == (j == k || Bit(b, j)) by {
      forall j: nat ensures Bit(Or(b, k), j) == (j == k || Bit(b, j)) {
        OrBits(b, k, j);
      }
    }
    Or(b, k)
  }

  lemma {:induction false} ZeroBits(k: nat)
    ensures !Bit(0, k)
  {
    if k > 0 {
      ZeroBits(k - 1);
    }
  }
}

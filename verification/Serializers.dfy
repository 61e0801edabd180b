/** The serializers of src/protocol.cpp as they run: a zeroed buffer is filled field by field. */
module Serializers {
  import opened Bytes
  import opened Protocol

  /** `std::copy` into a byte buffer. */
  method CopyInto(out: array<uint8>, offset: nat, bytes: seq<uint8>)
    requires offset + |bytes| <= out.Length
    modifies out
    ensures Wrote(old(out[..]), out[..], offset, bytes)
    ensures out[..offset + |bytes|] == old(out[..offset]) + bytes
  {
    forall k | 0 <= k < |bytes| {
      out[offset + k] := bytes[k];
    }
    assert out[offset..offset + |bytes|] == bytes;
  }

  method ZeroBuffer(n: nat) returns (out: array<uint8>)
    ensures fresh(out) && out.Length == n && forall k | 0 <= k < n :: out[k] == 0
  {
    out := new uint8[n](_ => 0);
  }

  method SerializePacketHeader(h: PacketHeader, payloadSize: uint16) returns (out: array<uint8>)
    ensures fresh(out) && out[..] == EncodeHeader(h, payloadSize)
  {
    hide ToBE, Pow256, TypeByte, Wrote;
    out := ZeroBuffer(HEADER_SIZE);
    WriteU32(out, 0, h.magic);
    out[4] := h.version;
    out[5] := TypeByte(h.kind);
    assert out[..6] == ToBE(h.magic, 4) + [h.version, TypeByte(h.kind)];
    WriteU16(out, 6, h.flags);
    WriteU32(out, 8, h.session);
    WriteU32(out, 12, h.number);
    WriteU16(out, 16, payloadSize);
    WriteU16(out, 18, HEADER_SIZE);
    WriteU32(out, 20, h.crc32c);
    assert out[..] == out[..24];
  }

  method SerializePacket(h: PacketHeader, payload: seq<uint8>) returns (out: array<uint8>)
    requires |payload| < 0x1_0000
    ensures fresh(out) && out[..] == EncodePacket(h, payload)
  {
    hide Wrote, EncodeHeader;
    var header := SerializePacketHeader(h, |payload|);
    out := ZeroBuffer(HEADER_SIZE + |payload|);
    CopyInto(out, 0, header[..]);
    CopyInto(out, HEADER_SIZE, payload);
    assert out[..24] == header[..];
    assert out[..] == out[..24 + |payload|];
  }

  method SerializeStart(p: StartPayload) returns (out: array<uint8>)
    ensures fresh(out) && out[..] == EncodeStart(p)
  {
    hide ToBE, Pow256, Wrote;
    out := ZeroBuffer(24);
    WriteU64(out, 0, p.fileSize);
    WriteU32(out, 8, p.chunkSize);
    WriteU32(out, 12, p.totalChunks);
    WriteU32(out, 16, p.windowChunks);
    WriteU16(out, 20, p.ackBitmapBits);
    WriteU16(out, 22, p.ackIntervalMs);
    assert out[..] == out[..24];
  }

  method SerializeStartAck(p: StartAckPayload) returns (out: array<uint8>)
    ensures fresh(out) && out[..] == EncodeStartAck(p)
  {
    hide ToBE, Pow256, Wrote;
    out := ZeroBuffer(12);
    WriteU16(out, 0, p.status);
    assert out[..4] == ToBE(p.status, 2) + [0, 0];
    WriteU32(out, 4, p.windowChunks);
    WriteU16(out, 8, p.bitmapBits);
    WriteU16(out, 10, p.ackIntervalMs);
    assert out[..] == out[..12];
  }

  method SerializeAck(p: AckPayload) returns (out: array<uint8>)
    requires WellSized(p)
    ensures fresh(out) && out[..] == EncodeAck(p)
  {
    hide ToBE, Pow256, Wrote;
    out := ZeroBuffer(16 + |p.bitmap|);
    WriteU32(out, 0, p.cumulativeAck);
    WriteU32(out, 4, p.largestPlusOne);
    WriteU32(out, 8, p.bitmapBase);
    WriteU16(out, 12, p.bitmapBits);
    assert out[..16] == out[..14] + [0, 0];
    CopyInto(out, 16, p.bitmap);
    assert out[..] == out[..16 + |p.bitmap|];
  }

  method SerializeCompleteAck(p: CompleteAckPayload) returns (out: array<uint8>)
    ensures fresh(out) && out[..] == EncodeCompleteAck(p)
  {
    hide ToBE, Pow256, Wrote;
    out := ZeroBuffer(24);
    WriteU16(out, 0, p.status);
    assert out[..4] == ToBE(p.status, 2) + [0, 0];
    WriteU32(out, 4, p.receivedChunks);
    WriteU64(out, 8, p.receivedBytes);
    WriteU64(out, 16, p.transferTimeUs);
    assert out[..] == out[..24];
  }
}

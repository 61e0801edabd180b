/** The FRFT wire format (include/protocol.hpp, src/protocol.cpp). */
module Protocol {
  import opened Bytes

  const MAGIC: uint32 := 0x46524654
  const VERSION: uint8 := 1
  const HEADER_SIZE: uint16 := 24
  const IPV4_UDP_OVERHEAD := 28
  const DEFAULT_WINDOW_BYTES := 8 * 1024 * 1024
  const DEFAULT_ACK_BITMAP_BITS: uint16 := 8192
  const DEFAULT_ACK_INTERVAL_MS: uint16 := 10
  const FAST_RETRANSMIT_THRESHOLD := 3
  const NS_PER_MS := 1_000_000
  const DEFAULT_RTO := 500 * NS_PER_MS

  // Bit positions of the packet flags.
  const FLAG_CRC32C := 0
  const FLAG_RETRANSMITTED := 1
  const FLAG_SACK := 2

  // The same flags as values of the header field.
  const RETRANSMITTED_FLAGS: uint16 := 0x0002
  const SACK_FLAGS: uint16 := 0x0004

  lemma FlagBits()
    ensures !Bit(0, FLAG_CRC32C) && !Bit(0, FLAG_RETRANSMITTED) && !Bit(0, FLAG_SACK)
    ensures !Bit(RETRANSMITTED_FLAGS, FLAG_CRC32C) && Bit(RETRANSMITTED_FLAGS, FLAG_RETRANSMITTED)
    ensures !Bit(SACK_FLAGS, FLAG_CRC32C) && Bit(SACK_FLAGS, FLAG_SACK)
  {
    assert Bit(2, 1) == Bit(1, 0);
    assert Bit(4, 2) == Bit(2, 1);
    assert Bit(0, 1) == Bit(0, 0);
    assert Bit(0, 2) == Bit(0, 1);
  }

  const STATUS_OK: uint16 := 0
  const STATUS_BUSY: uint16 := 1
  const STATUS_INVALID_REQUEST: uint16 := 2

  datatype PacketType = Start | StartAck | Data | Ack | Complete | CompleteAck | Error

  datatype PacketHeader = PacketHeader(
    magic: uint32, version: uint8, kind: PacketType, flags: uint16, session: uint32, number: uint32,
    payloadLength: uint16, headerLength: uint16, crc32c: uint32)

  datatype Packet = Packet(header: PacketHeader, payload: seq<uint8>)

  datatype StartPayload = StartPayload(
    fileSize: uint64, chunkSize: uint32, totalChunks: uint32, windowChunks: uint32,
    ackBitmapBits: uint16, ackIntervalMs: uint16)

  /** The status of a reply is any 16-bit code: the decoder casts without a check. */
  datatype StartAckPayload = StartAckPayload(
    status: uint16, windowChunks: uint32, bitmapBits: uint16, ackIntervalMs: uint16)

  datatype AckPayload = AckPayload(
    cumulativeAck: uint32, largestPlusOne: uint32, bitmapBase: uint32, bitmapBits: uint16, bitmap: seq<uint8>)

  datatype CompleteAckPayload = CompleteAckPayload(
    status: uint16, receivedChunks: uint32, receivedBytes: uint64, transferTimeUs: uint64)

  datatype DecodeError =
    | TooShort | UnknownType | BadMagic | BadVersion | BadHeaderLength | LengthMismatch | CrcUnsupported

  datatype DecodeResult = Decoded(packet: Packet) | Rejected(error: DecodeError)

  function TypeByte(t: PacketType): uint8 {
    match t
    case Start => 1 case StartAck => 2 case Data => 3 case Ack => 4
    case Complete => 5 case CompleteAck => 6 case Error => 7
  }

  function ByteType(b: uint8): Option<PacketType> {
    match b
    case 1 => Some(Start) case 2 => Some(StartAck) case 3 => Some(Data) case 4 => Some(Ack)
    case 5 => Some(Complete) case 6 => Some(CompleteAck) case 7 => Some(Error)
    case _ => None
  }

  function MakeHeader(kind: PacketType, session: uint32, number: uint32, flags: uint16): PacketHeader {
    PacketHeader(MAGIC, VERSION, kind, flags, session, number, 0, HEADER_SIZE, 0)
  }

  // ----- the packet envelope

  /** The lengths on the wire are those of the datagram, whatever the header fields hold. */
  function EncodeHeader(h: PacketHeader, payloadSize: uint16): (s: seq<uint8>)
    ensures |s| == HEADER_SIZE
  {
    ToBE(h.magic, 4) + [h.version, TypeByte(h.kind)] + ToBE(h.flags, 2) + ToBE(h.session, 4)
    + ToBE(h.number, 4) + ToBE(payloadSize, 2) + ToBE(HEADER_SIZE, 2) + ToBE(h.crc32c, 4)
  }

  function EncodePacket(h: PacketHeader, payload: seq<uint8>): (s: seq<uint8>)
    requires |payload| < 0x1_0000
    ensures |s| == HEADER_SIZE + |payload|
  {
    EncodeHeader(h, |payload|) + payload
  }

  function DecodePacket(data: seq<uint8>): DecodeResult {
    if |data| < HEADER_SIZE then Rejected(TooShort)
    else
      var kind := ByteType(data[5]);
      if kind.None? then Rejected(UnknownType)
      else
        var h := PacketHeader(
          U32(data[0..4]), data[4], kind.value, U16(data[6..8]), U32(data[8..12]), U32(data[12..16]),
          U16(data[16..18]), U16(data[18..20]), U32(data[20..24]));
        if h.magic != MAGIC then Rejected(BadMagic)
        else if h.version != VERSION then Rejected(BadVersion)
        else if h.headerLength != HEADER_SIZE then Rejected(BadHeaderLength)
        else if |data| != h.headerLength + h.payloadLength then Rejected(LengthMismatch)
        else if Bit(h.flags, FLAG_CRC32C) then Rejected(CrcUnsupported)
        else Decoded(Packet(h, data[HEADER_SIZE..]))
  }

  predicate Sendable(h: PacketHeader) {
    h.magic == MAGIC && h.version == VERSION && !Bit(h.flags, FLAG_CRC32C)
  }

  lemma HeaderFields(h: PacketHeader, n: uint16)
    ensures var s := EncodeHeader(h, n);
            && s[0..4] == ToBE(h.magic, 4) && s[4] == h.version && s[5] == TypeByte(h.kind)
            && s[6..8] == ToBE(h.flags, 2) && s[8..12] == ToBE(h.session, 4)
            && s[12..16] == ToBE(h.number, 4) && s[16..18] == ToBE(n, 2)
            && s[18..20] == ToBE(HEADER_SIZE, 2) && s[20..24] == ToBE(h.crc32c, 4)
  {
  }

  /** The header of every packet that either end builds: "FRFT", version 1, the type, the flags, the
      session, the number, the length of the payload, the length of the header, and no checksum. */
  lemma MadeHeader(kind: PacketType, session: uint32, number: uint32, flags: uint16, n: uint16)
    ensures var s := EncodeHeader(MakeHeader(kind, session, number, flags), n);
            && s[0..4] == [0x46, 0x52, 0x46, 0x54] && s[4] == 1
            && s[5] == (match kind
                        case Start => 1 case StartAck => 2 case Data => 3 case Ack => 4
                        case Complete => 5 case CompleteAck => 6 case Error => 7)
            && s[6..8] == ToBE(flags, 2) && s[8..12] == ToBE(session, 4) && s[12..16] == ToBE(number, 4)
            && s[16..18] == ToBE(n, 2) && s[18..20] == [0, 24] && s[20..24] == [0, 0, 0, 0]
  {
    ConstantFields();
    HeaderFields(MakeHeader(kind, session, number, flags), n);
    hide EncodeHeader, ToBE;
  }

  lemma ConstantFields()
    ensures ToBE(MAGIC, 4) == [0x46, 0x52, 0x46, 0x54]
    ensures ToBE(HEADER_SIZE, 2) == [0, 24]
    ensures ToBE(0, 4) == [0, 0, 0, 0]
  {
    MagicBytes();
    BytesOf16(HEADER_SIZE);
    BytesOf32(0);
    hide ToBE;
  }

  lemma MagicBytes()
    ensures ToBE(MAGIC, 4) == [0x46, 0x52, 0x46, 0x54]
  {
    BytesOf32(MAGIC);
    hide ToBE;
  }

  /** Decoding an encoded packet gives the packet back, with its lengths normalised; it is
      refused exactly when the magic, the version or the CRC flag is wrong. */
  lemma DecodeEncodePacket(h: PacketHeader, payload: seq<uint8>)
    requires |payload| < 0x1_0000
    ensures DecodePacket(EncodePacket(h, payload)).Decoded? <==> Sendable(h)
    ensures Sendable(h) ==>
              DecodePacket(EncodePacket(h, payload))
              == Decoded(Packet(h.(payloadLength := |payload|, headerLength := HEADER_SIZE), payload))
  {
    var d := EncodePacket(h, payload);
    var s := EncodeHeader(h, |payload|);
    HeaderFields(h, |payload|);
    assert d[..24] == s && d[24..] == payload;
    assert d[0..4] == s[0..4] && d[4] == s[4] && d[5] == s[5];
    assert d[6..8] == s[6..8] && d[8..12] == s[8..12] && d[12..16] == s[12..16];
    assert d[16..18] == s[16..18] && d[18..20] == s[18..20] && d[20..24] == s[20..24];
    FromToBE32(h.magic);
    FromToBE16(h.flags);
    FromToBE32(h.session);
    FromToBE32(h.number);
    FromToBE16(|payload|);
    FromToBE16(HEADER_SIZE);
    FromToBE32(h.crc32c);
  }

  /** Every datagram that the decoder accepts is the encoding of what it returns. */
  lemma EncodeDecodePacket(data: seq<uint8>)
    requires DecodePacket(data).Decoded?
    ensures var p := DecodePacket(data).packet;
            && Sendable(p.header)
            && |p.payload| == p.header.payloadLength
            && p.header.headerLength == HEADER_SIZE
            && EncodePacket(p.header, p.payload) == data
  {
    var p := DecodePacket(data).packet;
    assert |p.payload| == p.header.payloadLength;
    TypeOfByte(data[5]);
    Reassembled(data);
    hide ToBE, U16, U32, ByteType, TypeByte, Bit;
  }

  lemma TypeOfByte(b: uint8)
    requires ByteType(b).Some?
    ensures TypeByte(ByteType(b).value) == b
  {
  }

  lemma Reassembled(data: seq<uint8>)
    requires |data| >= 24
    ensures data == data[0..4] + [data[4], data[5]] + data[6..8] + data[8..12] + data[12..16]
                    + data[16..18] + data[18..20] + data[20..24] + data[24..]
  {
  }

  /** A short string as a number. */
  lemma ValueOf16(s: seq<uint8>)
    requires |s| == 2
    ensures U16(s) == (s[0] as int) * 256 + s[1]
  {
    BytesOf16(U16(s));
    hide ToBE;
  }

  /** Which datagrams are accepted, read off their bytes: the magic, version 1, a known type, a header
      length of 24, a payload length that the datagram has, and the low flag clear. */
  lemma AcceptedExactly(data: seq<uint8>)
    ensures DecodePacket(data).Decoded? <==>
              && |data| >= 24 && data[0..4] == [0x46, 0x52, 0x46, 0x54] && data[4] == 1 && 1 <= data[5] <= 7
              && data[18..20] == [0, 24] && |data| == 24 + (data[16] as int) * 256 + data[17] && data[7] % 2 == 0
  {
    if |data| >= 24 {
      MagicIs(data[0..4]);
      KnownType(data[5]);
      LowFlag(data[6..8]);
      ValueOf16(data[16..18]);
      ValueOf16(data[18..20]);
      hide ToBE, U32, U16, Bit, ByteType;
    }
  }

  lemma KnownType(b: uint8)
    ensures ByteType(b).Some? <==> 1 <= b <= 7
  {
  }

  lemma LowFlag(s: seq<uint8>)
    requires |s| == 2
    ensures Bit(U16(s), FLAG_CRC32C) <==> s[1] % 2 == 1
  {
    ValueOf16(s);
    hide U16;
  }

  lemma MagicIs(s: seq<uint8>)
    requires |s| == 4
    ensures U32(s) == MAGIC <==> s == [0x46, 0x52, 0x46, 0x54]
  {
    ConstantFields();
    FromToBE32(MAGIC);
    FromToBE32(U32(s));
    hide ToBE;
  }

  // ----- START

  function EncodeStart(p: StartPayload): (s: seq<uint8>)
    ensures |s| == 24
  {
    ToBE(p.fileSize, 8) + ToBE(p.chunkSize, 4) + ToBE(p.totalChunks, 4) + ToBE(p.windowChunks, 4)
    + ToBE(p.ackBitmapBits, 2) + ToBE(p.ackIntervalMs, 2)
  }

  function DecodeStart(data: seq<uint8>): Option<StartPayload> {
    if |data| != 24 then None
    else Some(StartPayload(U64(data[0..8]), U32(data[8..12]), U32(data[12..16]), U32(data[16..20]),
                           U16(data[20..22]), U16(data[22..24])))
  }

  /** Which bytes hold which field. */
  lemma StartFields(p: StartPayload)
    ensures var s := EncodeStart(p);
            && s[0..8] == ToBE(p.fileSize, 8) && s[8..12] == ToBE(p.chunkSize, 4)
            && s[12..16] == ToBE(p.totalChunks, 4) && s[16..20] == ToBE(p.windowChunks, 4)
            && s[20..22] == ToBE(p.ackBitmapBits, 2) && s[22..24] == ToBE(p.ackIntervalMs, 2)
  {
  }

  lemma DecodeEncodeStart(p: StartPayload)
    ensures DecodeStart(EncodeStart(p)) == Some(p)
  {
    StartFields(p);
    FromToBE64(p.fileSize);
    FromToBE32(p.chunkSize);
    FromToBE32(p.totalChunks);
    FromToBE32(p.windowChunks);
    FromToBE16(p.ackBitmapBits);
    FromToBE16(p.ackIntervalMs);
  }

  lemma EncodeDecodeStart(data: seq<uint8>)
    ensures DecodeStart(data).Some? <==> |data| == 24
    ensures |data| == 24 ==> EncodeStart(DecodeStart(data).value) == data
  {
    if |data| == 24 {
      assert data == data[0..8] + data[8..12] + data[12..16] + data[16..20] + data[20..22] + data[22..24];
    }
  }

  // ----- START_ACK

  /** Bytes 2 and 3 are reserved: written as zero and never read. */
  function EncodeStartAck(p: StartAckPayload): (s: seq<uint8>)
    ensures |s| == 12
  {
    ToBE(p.status, 2) + [0, 0] + ToBE(p.windowChunks, 4) + ToBE(p.bitmapBits, 2) + ToBE(p.ackIntervalMs, 2)
  }

  function DecodeStartAck(data: seq<uint8>): Option<StartAckPayload> {
    if |data| != 12 then None
    else Some(StartAckPayload(U16(data[0..2]), U32(data[4..8]), U16(data[8..10]), U16(data[10..12])))
  }

  lemma StartAckFields(p: StartAckPayload)
    ensures var s := EncodeStartAck(p);
            && s[0..2] == ToBE(p.status, 2) && s[2..4] == [0, 0] && s[4..8] == ToBE(p.windowChunks, 4)
            && s[8..10] == ToBE(p.bitmapBits, 2) && s[10..12] == ToBE(p.ackIntervalMs, 2)
  {
    assert EncodeStartAck(p)[2] == EncodeStartAck(p)[3] == 0;
  }

  lemma DecodeEncodeStartAck(p: StartAckPayload)
    ensures DecodeStartAck(EncodeStartAck(p)) == Some(p)
  {
    StartAckFields(p);
    FromToBE16(p.status);
    FromToBE32(p.windowChunks);
    FromToBE16(p.bitmapBits);
    FromToBE16(p.ackIntervalMs);
  }

  /** The bytes are recovered exactly when the reserved ones are zero. */
  lemma EncodeDecodeStartAck(data: seq<uint8>)
    requires DecodeStartAck(data).Some?
    ensures EncodeStartAck(DecodeStartAck(data).value) == data <==> data[2..4] == [0, 0]
  {
    var s := EncodeStartAck(DecodeStartAck(data).value);
    assert s[2..4] == [0, 0];
    assert data == data[0..2] + data[2..4] + data[4..8] + data[8..10] + data[10..12];
  }

  // ----- ACK

  function BitmapBytes(bits: uint16): nat { (bits + 7) / 8 }

  /** The bitmap length that the serializer insists on. */
  predicate WellSized(p: AckPayload) { |p.bitmap| == BitmapBytes(p.bitmapBits) }

  function EncodeAck(p: AckPayload): (s: seq<uint8>)
    requires WellSized(p)
    ensures |s| == 16 + |p.bitmap|
  {
    ToBE(p.cumulativeAck, 4) + ToBE(p.largestPlusOne, 4) + ToBE(p.bitmapBase, 4) + ToBE(p.bitmapBits, 2)
    + [0, 0] + p.bitmap
  }

  function DecodeAck(data: seq<uint8>): Option<AckPayload> {
    if |data| < 16 then None
    else
      var bits := U16(data[12..14]);
      if |data| != 16 + BitmapBytes(bits) then None
      else Some(AckPayload(U32(data[0..4]), U32(data[4..8]), U32(data[8..12]), bits, data[16..]))
  }

  lemma AckFields(p: AckPayload)
    requires WellSized(p)
    ensures var s := EncodeAck(p);
            && s[0..4] == ToBE(p.cumulativeAck, 4) && s[4..8] == ToBE(p.largestPlusOne, 4)
            && s[8..12] == ToBE(p.bitmapBase, 4) && s[12..14] == ToBE(p.bitmapBits, 2) && s[14..16] == [0, 0]
            && s[16..] == p.bitmap && |p.bitmap| == (p.bitmapBits + 7) / 8
  {
  }

  lemma DecodeEncodeAck(p: AckPayload)
    requires WellSized(p)
    ensures DecodeAck(EncodeAck(p)) == Some(p)
  {
    AckFields(p);
    FromToBE32(p.cumulativeAck);
    FromToBE32(p.largestPlusOne);
    FromToBE32(p.bitmapBase);
    FromToBE16(p.bitmapBits);
  }

  /** A decoded ACK always has the bitmap length its width calls for, and the bytes are
      recovered exactly when the reserved ones are zero. */
  lemma EncodeDecodeAck(data: seq<uint8>)
    requires DecodeAck(data).Some?
    ensures WellSized(DecodeAck(data).value)
    ensures EncodeAck(DecodeAck(data).value) == data <==> data[14..16] == [0, 0]
  {
    var s := EncodeAck(DecodeAck(data).value);
    assert s[14..16] == [0, 0];
    assert data == data[0..4] + data[4..8] + data[8..12] + data[12..14] + data[14..16] + data[16..];
  }

  // ----- COMPLETE_ACK

  function EncodeCompleteAck(p: CompleteAckPayload): (s: seq<uint8>)
    ensures |s| == 24
  {
    ToBE(p.status, 2) + [0, 0] + ToBE(p.receivedChunks, 4) + ToBE(p.receivedBytes, 8) + ToBE(p.transferTimeUs, 8)
  }

  function DecodeCompleteAck(data: seq<uint8>): Option<CompleteAckPayload> {
    if |data| != 24 then None
    else Some(CompleteAckPayload(U16(data[0..2]), U32(data[4..8]), U64(data[8..16]), U64(data[16..24])))
  }

  lemma CompleteAckFields(p: CompleteAckPayload)
    ensures var s := EncodeCompleteAck(p);
            && s[0..2] == ToBE(p.status, 2) && s[2..4] == [0, 0] && s[4..8] == ToBE(p.receivedChunks, 4)
            && s[8..16] == ToBE(p.receivedBytes, 8) && s[16..24] == ToBE(p.transferTimeUs, 8)
  {
    assert EncodeCompleteAck(p)[2] == EncodeCompleteAck(p)[3] == 0;
  }

  lemma DecodeEncodeCompleteAck(p: CompleteAckPayload)
    ensures DecodeCompleteAck(EncodeCompleteAck(p)) == Some(p)
  {
    CompleteAckFields(p);
    FromToBE16(p.status);
    FromToBE32(p.receivedChunks);
    FromToBE64(p.receivedBytes);
    FromToBE64(p.transferTimeUs);
  }

  lemma EncodeDecodeCompleteAck(data: seq<uint8>)
    requires DecodeCompleteAck(data).Some?
    ensures EncodeCompleteAck(DecodeCompleteAck(data).value) == data <==> data[2..4] == [0, 0]
  {
    var s := EncodeCompleteAck(DecodeCompleteAck(data).value);
    assert s[2..4] == [0, 0];
    assert data == data[0..2] + data[2..4] + data[4..8] + data[8..16] + data[16..24];
  }
}

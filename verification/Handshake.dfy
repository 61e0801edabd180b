/** START and START_ACK: what the client proposes, what the server accepts, and what the client
    then builds its window from (src/client.cpp:414-490, src/server.cpp:248-285). */
module Handshake {
  import opened Bytes
  import opened Protocol
  import opened FileLayout

  datatype Proposal = Proposed(start: StartPayload) | NotProposed

  /** The client gives up on a bad MTU, a file with too many chunks, or chunks so small that the
      default window is wider than an ACK bitmap. */
  function Propose(fileSize: uint64, mtu: uint32): Proposal {
    var size := ChunkSizeForMtu(mtu);
    if size.None? then NotProposed
    else
      var count := ChunkCount(fileSize, size.value);
      if count.None? then NotProposed
      else
        var window: uint32 := WindowChunks(size.value);
        if window > DEFAULT_ACK_BITMAP_BITS then NotProposed
        else Proposed(StartPayload(fileSize, size.value, count.value, window,
                                   DEFAULT_ACK_BITMAP_BITS, DEFAULT_ACK_INTERVAL_MS))
  }

  function WindowChunks(chunkSize: uint32): (w: uint32)
    requires chunkSize > 0
    ensures 0 < w && w * chunkSize >= DEFAULT_WINDOW_BYTES > (w - 1) * chunkSize
  {
    var n := DEFAULT_WINDOW_BYTES + chunkSize - 1;
    var w := n / chunkSize;
    QuotientBounds(n, chunkSize);
    assert w * chunkSize > n - chunkSize;
    assert (w - 1) * chunkSize == w * chunkSize - chunkSize;
    assert w > 0;
    CeilSmall(DEFAULT_WINDOW_BYTES, chunkSize, w);
    w
  }

  lemma QuotientBounds(n: nat, d: nat)
    requires d > 0
    ensures n - d < (n / d) * d <= n
  {
    assert n == (n / d) * d + n % d;
  }

  lemma CeilSmall(n: nat, d: nat, w: nat)
    requires d > 0 && w > 0 && (w - 1) * d < n
    ensures w <= n
  {
    Ordered(1, d, w - 1);
    assert 1 * (w - 1) <= d * (w - 1) == (w - 1) * d;
  }

  /** The default window fits the bitmap exactly from 1024 bytes per chunk on. */
  lemma WindowFitsIff(chunkSize: uint32)
    requires chunkSize > 0
    ensures WindowChunks(chunkSize) <= DEFAULT_ACK_BITMAP_BITS <==> chunkSize >= 1024
  {
    var w := WindowChunks(chunkSize);
    if chunkSize >= 1024 {
      if w > 8192 {
        Product(8192, w - 1, 1024, chunkSize);
      }
    } else if w <= 8192 {
      Product(w, 8192, chunkSize, 1023);
    }
  }

  lemma Product(a: nat, b: nat, c: nat, d: nat)
    requires a <= b && c <= d
    ensures a * c <= b * d
  {
    Ordered(a, b, c);
    Ordered(c, d, b);
    assert b * c == c * b && b * d == d * b;
  }

  /** Exactly when the client proposes a transfer. */
  lemma ProposesIff(fileSize: uint64, mtu: uint32)
    ensures Propose(fileSize, mtu).Proposed?
            <==> 1076 <= mtu <= 0xFFFF && CeilDiv(fileSize, mtu - 52) <= 0xFFFF_FFFF
  {
    var size := ChunkSizeForMtu(mtu);
    if size.Some? {
      WindowFitsIff(size.value);
    }
  }

  /** What is proposed: the file in chunks of all but 52 bytes of the MTU, the least window that covers
      8 MiB, a bitmap of 8192 bits and an ACK interval of 10 ms. */
  lemma ProposalExactly(fileSize: uint64, mtu: uint32)
    requires Propose(fileSize, mtu).Proposed?
    ensures var start := Propose(fileSize, mtu).start; var w := start.windowChunks; var c := start.chunkSize;
            && start.fileSize == fileSize && c == mtu - 52
            && Layout(fileSize, c, start.totalChunks)
            && w > 0 && w * c >= 8_388_608 > (w - 1) * c
            && start.ackBitmapBits == 8192 && start.ackIntervalMs == 10
  {
    ChunkCountLayout(fileSize, mtu - 52);
    hide CeilDiv, Layout, WindowChunks;
  }

  function StartDatagram(session: uint32, start: StartPayload): seq<uint8> {
    EncodePacket(MakeHeader(Start, session, 0, 0), EncodeStart(start))
  }

  function StartAckDatagram(session: uint32, reply: StartAckPayload): seq<uint8> {
    EncodePacket(MakeHeader(StartAck, session, 0, 0), EncodeStartAck(reply))
  }

  datatype StartOutcome =
    | Ignored
    | Refused(session: uint32, reply: StartAckPayload)
    | Thrown
    | Admitted(session: uint32, start: StartPayload, reply: StartAckPayload)

  /** The server's first loop on one datagram; `mtu` has passed chunk_size_for_mtu at start-up.
      chunk_count throws out of the loop when the claimed file needs too many chunks. */
  function HandleStart(mtu: uint32, data: seq<uint8>): StartOutcome
    requires ChunkSizeForMtu(mtu).Some?
  {
    var decoded := DecodePacket(data);
    if decoded.Rejected? then Ignored
    else
      var h := decoded.packet.header;
      var start := DecodeStart(decoded.packet.payload);
      if !h.kind.Start? || h.session == 0 || h.number != 0 || start.None? then Ignored
      else
        var p := start.value;
        if p.chunkSize == ChunkSizeForMtu(mtu).value && ChunkCount(p.fileSize, p.chunkSize).None? then Thrown
        else if && p.chunkSize == ChunkSizeForMtu(mtu).value
                && Some(p.totalChunks) == ChunkCount(p.fileSize, p.chunkSize)
                && p.windowChunks > 0
                && p.ackBitmapBits == DEFAULT_ACK_BITMAP_BITS
        then Admitted(h.session, p, OkReply(p))
        else Refused(h.session, StartAckPayload(STATUS_INVALID_REQUEST, 0, 0, 0))
  }

  datatype StartResult = Started(window: uint32, coverage: uint32) | NoReply | Aborted

  /** The client on one datagram while it waits for START_ACK. */
  function HandleStartAck(session: uint32, data: seq<uint8>): StartResult {
    var decoded := DecodePacket(data);
    if decoded.Rejected? then NoReply
    else
      var h := decoded.packet.header;
      if h.session != session || !h.kind.StartAck? then NoReply
      else
        var reply := DecodeStartAck(decoded.packet.payload);
        if reply.None? || reply.value.status != STATUS_OK then Aborted
        else
          var r := reply.value;
          if r.windowChunks == 0 || r.windowChunks > r.bitmapBits || r.bitmapBits != DEFAULT_ACK_BITMAP_BITS
          then Aborted
          else Started(r.windowChunks, r.bitmapBits)
  }

  /** Whatever START_ACK the client accepts satisfies the conditions of the SenderWindow constructor. */
  lemma StartedFitsWindow(session: uint32, data: seq<uint8>)
    requires HandleStartAck(session, data).Started?
    ensures var r := HandleStartAck(session, data); 0 < r.window <= r.coverage == DEFAULT_ACK_BITMAP_BITS
  {
  }

  lemma StartDecodes(session: uint32, start: StartPayload)
    ensures DecodePacket(StartDatagram(session, start)).Decoded?
    ensures var p := DecodePacket(StartDatagram(session, start)).packet;
            && p.header.kind.Start? && p.header.session == session && p.header.number == 0 && p.header.flags == 0
            && DecodeStart(p.payload) == Some(start)
  {
    FlagBits();
    DecodeEncodePacket(MakeHeader(Start, session, 0, 0), EncodeStart(start));
    DecodeEncodeStart(start);
  }

  lemma StartAckDecodes(session: uint32, reply: StartAckPayload)
    ensures DecodePacket(StartAckDatagram(session, reply)).Decoded?
    ensures var p := DecodePacket(StartAckDatagram(session, reply)).packet;
            && p.header.kind.StartAck? && p.header.session == session && p.header.number == 0 && p.header.flags == 0
            && DecodeStartAck(p.payload) == Some(reply)
  {
    FlagBits();
    DecodeEncodePacket(MakeHeader(StartAck, session, 0, 0), EncodeStartAck(reply));
    DecodeEncodeStartAck(reply);
  }

  function OkReply(start: StartPayload): StartAckPayload {
    StartAckPayload(STATUS_OK, Min(start.windowChunks, DEFAULT_ACK_BITMAP_BITS), DEFAULT_ACK_BITMAP_BITS,
                    start.ackIntervalMs)
  }

  lemma ProposalFits(fileSize: uint64, mtu: uint32)
    requires Propose(fileSize, mtu).Proposed?
    ensures var start := Propose(fileSize, mtu).start;
            && ChunkSizeForMtu(mtu) == Some(start.chunkSize)
            && ChunkCount(start.fileSize, start.chunkSize) == Some(start.totalChunks)
            && 0 < start.windowChunks <= DEFAULT_ACK_BITMAP_BITS == start.ackBitmapBits
            && start.fileSize == fileSize && start.ackIntervalMs == DEFAULT_ACK_INTERVAL_MS
  {
  }

  /** What becomes of any START payload once it is on the wire: which ones are dropped, which ones
      end the server with an exception, and which ones are admitted. */
  lemma StartOutcomes(mtu: uint32, session: uint32, start: StartPayload)
    requires ChunkSizeForMtu(mtu).Some?
    ensures var o := HandleStart(mtu, StartDatagram(session, start));
            var same := start.chunkSize == ChunkSizeForMtu(mtu).value;
            && (o.Ignored? <==> session == 0)
            && (o.Thrown? <==> session != 0 && same && CeilDiv(start.fileSize, start.chunkSize) > 0xFFFF_FFFF)
            && (o.Admitted? <==>
                  && session != 0 && same && start.totalChunks == CeilDiv(start.fileSize, start.chunkSize)
                  && start.windowChunks > 0 && start.ackBitmapBits == 8192)
            && (o.Admitted? ==>
                  o == Admitted(session, start, StartAckPayload(0, Min(start.windowChunks, 8192), 8192, start.ackIntervalMs)))
            && (o.Refused? ==> o == Refused(session, StartAckPayload(2, 0, 0, 0)))
  {
    StartDecodes(session, start);
    hide StartDatagram, DecodePacket, DecodeStart, CeilDiv;
  }

  /** What the server leaves without an answer while it waits for a client, and goes on waiting. */
  lemma StartIgnoredIff(mtu: uint32, data: seq<uint8>)
    requires ChunkSizeForMtu(mtu).Some?
    ensures HandleStart(mtu, data).Ignored? <==>
              !(&& DecodePacket(data).Decoded?
                && var p := DecodePacket(data).packet;
                   p.header.kind.Start? && p.header.session != 0 && p.header.number == 0 && |p.payload| == 24)
  {
    hide DecodePacket, ChunkCount;
  }

  /** What the client makes of a START_ACK of any session with any fields: it starts exactly on OK with a
      window from 1 to 8192 and a bitmap of 8192 bits, of its own session, and on any other reply of its
      session it gives up. */
  lemma StartAckOutcomes(session: uint32, from: uint32, p: StartAckPayload)
    ensures HandleStartAck(session, StartAckDatagram(from, p))
            == if from != session then NoReply
               else if p.status == 0 && 0 < p.windowChunks <= 8192 && p.bitmapBits == 8192 then Started(p.windowChunks, 8192)
               else Aborted
  {
    StartAckDecodes(from, p);
    hide StartAckDatagram, DecodePacket, DecodeStartAck;
  }

  /** It goes on waiting exactly on what is no START_ACK of its session, and gives up on one of the
      wrong length. */
  lemma StartAckIgnoredIff(session: uint32, data: seq<uint8>)
    ensures var d := DecodePacket(data);
            var mine := d.Decoded? && d.packet.header.session == session && d.packet.header.kind.StartAck?;
            && (HandleStartAck(session, data).NoReply? <==> !mine)
            && (mine && |d.packet.payload| != 12 ==> HandleStartAck(session, data).Aborted?)
  {
    hide DecodePacket;
  }

  /** Whatever the server admits, the client can start from, with the window cut to the bitmap. */
  lemma AdmittedStarts(mtu: uint32, data: seq<uint8>)
    requires ChunkSizeForMtu(mtu).Some? && HandleStart(mtu, data).Admitted?
    ensures var o := HandleStart(mtu, data);
            && Layout(o.start.fileSize, o.start.chunkSize, o.start.totalChunks)
            && HandleStartAck(o.session, StartAckDatagram(o.session, o.reply))
               == Started(Min(o.start.windowChunks, DEFAULT_ACK_BITMAP_BITS), DEFAULT_ACK_BITMAP_BITS)
  {
    var o := HandleStart(mtu, data);
    StartAckDecodes(o.session, o.reply);
    ChunkCountLayout(o.start.fileSize, o.start.chunkSize);
    hide StartAckDatagram, DecodePacket, DecodeStart, DecodeStartAck, ChunkCount, Layout;
  }

  /** Both ends on the same MTU: every transfer that the client proposes is accepted through the
      encoded bytes with its window unchanged, and the client starts with that window. */
  lemma HandshakeSucceeds(fileSize: uint64, mtu: uint32, session: uint32)
    requires Propose(fileSize, mtu).Proposed? && session != 0
    ensures ChunkSizeForMtu(mtu).Some?
    ensures var start := Propose(fileSize, mtu).start;
            && HandleStart(mtu, StartDatagram(session, start)) == Admitted(session, start, OkReply(start))
            && HandleStartAck(session, StartAckDatagram(session, OkReply(start)))
               == Started(start.windowChunks, DEFAULT_ACK_BITMAP_BITS)
  {
    var start := Propose(fileSize, mtu).start;
    hide StartDatagram, StartAckDatagram, HandleStart, HandleStartAck, Propose, CeilDiv, Layout;
    ProposalFits(fileSize, mtu);
    StartOutcomes(mtu, session, start);
    AdmittedStarts(mtu, StartDatagram(session, start));
  }

  /** On different MTUs the server refuses, and the client gives up on the refusal. */
  lemma HandshakeNeedsSameMtu(fileSize: uint64, mtu: uint32, serverMtu: uint32, session: uint32)
    requires Propose(fileSize, mtu).Proposed? && session != 0
    requires ChunkSizeForMtu(serverMtu).Some? && serverMtu != mtu
    ensures var start := Propose(fileSize, mtu).start;
            var refusal := StartAckPayload(STATUS_INVALID_REQUEST, 0, 0, 0);
            && HandleStart(serverMtu, StartDatagram(session, start)) == Refused(session, refusal)
            && HandleStartAck(session, StartAckDatagram(session, refusal)) == Aborted
  {
    var start := Propose(fileSize, mtu).start;
    StartDecodes(session, start);
    StartAckDecodes(session, StartAckPayload(STATUS_INVALID_REQUEST, 0, 0, 0));
    ProposalFits(fileSize, mtu);
    hide StartDatagram, StartAckDatagram, DecodePacket, DecodeStart, DecodeStartAck, ChunkCount, Propose;
  }

  /** On MTU 1500 a file of 2^32 chunks is one too many: such a START ends the server. */
  lemma ThrowingStart()
    ensures ChunkSizeForMtu(1500) == Some(1448)
    ensures HandleStart(1500, StartDatagram(1, StartPayload(1448 * 0x1_0000_0000, 1448, 0, 1, 8192, 10))) == Thrown
  {
    var start := StartPayload(1448 * 0x1_0000_0000, 1448, 0, 1, 8192, 10);
    assert CeilDiv(start.fileSize, 1448) == 0x1_0000_0000;
    hide CeilDiv, StartDatagram;
    StartOutcomes(1500, 1, start);
  }
}

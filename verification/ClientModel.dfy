/** What the client's transfer loop does with its window, and with each datagram it is given
    (src/client.cpp:216-224, 278-388, 501-616). */
module ClientModel {
  import opened Bytes
  import opened Protocol
  import opened FileLayout
  import opened Datagrams
  import opened SenderModel
  import opened SenderWindow
  import opened SenderInvariant
  import opened SenderRuns

  /** Failed stands for the exceptions that end the COMPLETE exchange. */
  datatype Phase = Sending | Completing | Finished | Failed

  datatype Client = Client(session: uint32, file: seq<uint8>, chunkSize: uint32, history: History, phase: Phase)

  datatype Arrival = Arrival(data: seq<uint8>, at: int)

  /** Datagrams read one after the other from `clock` on. */
  ghost predicate InOrder(clock: int, arrivals: seq<Arrival>)
    decreases |arrivals|
  {
    arrivals != [] ==> clock <= arrivals[0].at && InOrder(arrivals[0].at, arrivals[1..])
  }

  function Until(clock: int, arrivals: seq<Arrival>): int {
    if arrivals == [] then clock else arrivals[|arrivals| - 1].at
  }

  lemma InOrderSooner(clock: int, later: int, arrivals: seq<Arrival>)
    requires clock <= later && InOrder(later, arrivals)
    ensures InOrder(clock, arrivals) && Until(clock, arrivals) <= Until(later, arrivals)
  {
  }

  lemma {:induction false} InOrderOne(clock: int, xs: seq<Arrival>, x: Arrival)
    requires InOrder(clock, xs) && Until(clock, xs) <= x.at
    ensures InOrder(clock, xs + [x]) && Until(clock, xs + [x]) == x.at
    decreases |xs|
  {
    if xs == [] {
      assert xs + [x] == [x];
    } else {
      InOrderOne(xs[0].at, xs[1..], x);
      assert (xs + [x])[1..] == xs[1..] + [x];
    }
  }

  ghost predicate Ready(c: Client) {
    && Sized(c.history)
    && Layout(|c.file|, c.chunkSize, c.history.w.total)
    && c.chunkSize < 0x1_0000
    && |c.file| < 0x1_0000_0000_0000_0000
  }

  /** The DATA packet of a chunk. */
  function ChunkDatagram(session: uint32, file: seq<uint8>, c: uint32, n: nat, s: uint32, retransmission: bool): seq<uint8>
    requires Layout(|file|, c, n) && c < 0x1_0000 && s < n
  {
    ChunkInBounds(|file|, c, n, s);
    DataDatagram(session, s, retransmission, ChunkBytes(file, c, n, s))
  }

  /** select_next_packet, the send, and mark_sent with the time after the send. */
  ghost function SendNext(c: Client, at: int): (Client, Option<seq<uint8>>)
    requires Ready(c)
  {
    var d := Select(c.history.w).1;
    var c' := c.(history := Step(c.history, Transmission(at)));
    if d.None? then (c', None)
    else
      SelectShape(c.history.w);
      (c', Some(ChunkDatagram(c.session, c.file, c.chunkSize, c.history.w.total, d.value.sequence, d.value.retransmission)))
  }

  ghost function TimeoutPass(c: Client, at: int): Client
    requires Ready(c)
  {
    c.(history := Step(c.history, TimeoutCheck(at)))
  }

  /** apply_ack_packet: an ACK without the SACK flag, undecodable, or of another width is dropped. */
  ghost function ApplyAck(c: Client, p: Packet, at: int): Client
    requires Ready(c)
  {
    var ack := DecodeAck(p.payload);
    if !Bit(p.header.flags, FLAG_SACK) || ack.None? || ack.value.bitmapBits != DEFAULT_ACK_BITMAP_BITS then c
    else c.(history := Step(c.history, AckArrival(ack.value, at)))
  }

  function ApplyCompleteAck(c: Client, p: Packet): Client {
    var reply := DecodeCompleteAck(p.payload);
    if reply.None? then c.(phase := Failed)
    else if reply.value.status != STATUS_OK then c
    else if reply.value.receivedChunks != c.history.w.total || reply.value.receivedBytes != |c.file| then
      c.(phase := Failed)
    else c.(phase := Finished)
  }

  /** One datagram: ACKs count while sending, COMPLETE_ACKs while completing, nothing else ever. */
  ghost function Receive(c: Client, data: seq<uint8>, at: int): Client
    requires Ready(c)
  {
    var decoded := DecodePacket(data);
    if decoded.Rejected? || decoded.packet.header.session != c.session then c
    else if c.phase.Sending? && decoded.packet.header.kind.Ack? then ApplyAck(c, decoded.packet, at)
    else if c.phase.Completing? && decoded.packet.header.kind.CompleteAck? then ApplyCompleteAck(c, decoded.packet)
    else c
  }

  /** What a completing client makes of any COMPLETE_ACK of its session: it finishes exactly on OK with
      its own counts, fails exactly on OK with others, and asks again on anything else. */
  lemma ReplyOutcomes(c: Client, number: uint32, p: CompleteAckPayload, at: int)
    requires Ready(c) && c.phase.Completing?
    ensures var u := Receive(c, CompleteAckDatagram(c.session, number, p), at);
            var own := p.receivedChunks == c.history.w.total && p.receivedBytes == |c.file|;
            && (u.phase.Finished? <==> p.status == STATUS_OK && own)
            && (u.phase.Failed? <==> p.status == STATUS_OK && !own)
            && (u.phase.Completing? ==> u == c)
            && u == c.(phase := u.phase)
  {
    CompleteAckCarries(c.session, number, p);
    hide CompleteAckDatagram, DecodePacket, DecodeCompleteAck, Sized, Layout;
  }

  lemma StepReady(c: Client, e: Event)
    requires Ready(c)
    ensures Ready(c.(history := Step(c.history, e)))
  {
    match e
    case Transmission(at) => TransmitShape(c.history.w, at);
    case AckArrival(ack, at) => ProcessAckStates(c.history.w, ack, at);
    case TimeoutCheck(at) => TimeoutShape(c.history.w, at);
  }

  lemma TransmitShape(w: Window, at: int)
    requires Shape(w)
    ensures Shape(Transmit(w, at).0)
  {
    SelectShape(w);
    var (v, d) := Select(w);
    if d.Some? {
      NotAckedWhenSelected(w);
      CountSame(v.chunks, MarkSent(v, d.value.sequence, at).chunks, 0, v.next);
    }
  }

  lemma NotAckedWhenSelected(w: Window)
    requires Shape(w)
    ensures var (v, d) := Select(w); d.Some? ==> d.value.sequence < v.next && !v.chunks[d.value.sequence].state.Acked?
  {
  }

  lemma TimeoutShape(w: Window, at: int)
    requires Shape(w)
    ensures Shape(CheckTimeouts(w, at, DEFAULT_RTO))
  {
    CountSame(w.chunks, Expired(w.chunks, w.base, w.next, at, DEFAULT_RTO), 0, w.next);
  }

  lemma ReceiveReady(c: Client, data: seq<uint8>, at: int)
    requires Ready(c)
    ensures Ready(Receive(c, data, at))
  {
    hide DecodePacket, DecodeAck, DecodeCompleteAck, Step, Bit;
    if DecodePacket(data).Decoded? && DecodeAck(DecodePacket(data).packet.payload).Some? {
      StepReady(c, AckArrival(DecodeAck(DecodePacket(data).packet.payload).value, at));
    }
  }

  /** drain_acks over the datagrams that are waiting. */
  ghost function Drain(c: Client, arrivals: seq<Arrival>): (r: Client)
    requires Ready(c)
    ensures Ready(r)
    decreases |arrivals|
  {
    if arrivals == [] then c
    else
      ReceiveReady(c, arrivals[0].data, arrivals[0].at);
      Drain(Receive(c, arrivals[0].data, arrivals[0].at), arrivals[1..])
  }

  lemma {:induction false} DrainOne(c: Client, xs: seq<Arrival>, x: Arrival)
    requires Ready(c)
    ensures Drain(c, xs + [x]) == Receive(Drain(c, xs), x.data, x.at)
    decreases |xs|
  {
    hide Receive, Ready;
    if xs == [] {
      assert xs + [x] == [x];
      ReceiveReady(c, x.data, x.at);
      assert [x][1..] == [];
    } else {
      ReceiveReady(c, xs[0].data, xs[0].at);
      DrainOne(Receive(c, xs[0].data, xs[0].at), xs[1..], x);
      assert (xs + [x])[1..] == xs[1..] + [x];
    }
  }

  /** What one pass meets: the datagrams that it reads, each at its time, and the times of its timeout
      check and of its send. */
  datatype PassInput = PassInput(
    before: seq<Arrival>, timeoutAt: int, sentAt: int, after: seq<Arrival>, waited: Option<Arrival>)

  ghost predicate WellTimed(clock: int, p: PassInput) {
    && InOrder(clock, p.before) && Until(clock, p.before) <= p.timeoutAt <= p.sentAt
    && InOrder(p.sentAt, p.after) && (p.waited.Some? ==> p.sentAt <= p.waited.value.at)
  }

  /** One pass of the sending loop: drain, time out, send one packet if there is one and drain
      again, or else wait for one datagram. */
  ghost function Pass(c: Client, p: PassInput): (Client, Option<seq<uint8>>)
    requires Ready(c)
  {
    var c1 := Drain(c, p.before);
    StepReady(c1, TimeoutCheck(p.timeoutAt));
    var c2 := TimeoutPass(c1, p.timeoutAt);
    StepReady(c2, Transmission(p.sentAt));
    var (c3, d) := SendNext(c2, p.sentAt);
    if d.Some? then (Drain(c3, p.after), d)
    else if p.waited.Some? then (Receive(c3, p.waited.value.data, p.waited.value.at), None)
    else (c3, None)
  }
}

/** The client's sending loop (src/client.cpp:501-616) on a mutable SenderWindow, Pacer and
    WindowSampleStats; all times are readings of one monotone clock. */
module ClientLoop {
  import opened Bytes
  import opened Protocol
  import opened FileLayout
  import opened Datagrams
  import opened SenderModel
  import opened SenderWindow
  import opened SenderProperties
  import opened SenderRuns
  import opened ClientModel
  import opened Pacing

  const SAMPLE_INTERVAL := 100 * NS_PER_MS

  /** The bytes of each datagram on the wire, with its IPv4 and UDP headers. */
  function WireSizes(wire: seq<seq<uint8>>): (r: seq<nat>)
    ensures |r| == |wire|
  {
    seq(|wire|, i requires 0 <= i < |wire| => IPV4_UDP_OVERHEAD + |wire[i]|)
  }

  lemma OneMoreCall(rate: real, buckets: seq<Bucket>, wire: seq<seq<uint8>>, after: Bucket, d: seq<uint8>)
    requires Calls(rate, buckets, WireSizes(wire))
    requires Follows(rate, buckets[|wire|], after, IPV4_UDP_OVERHEAD + |d|)
    ensures Calls(rate, buckets + [after], WireSizes(wire + [d]))
  {
    hide Follows;
  }

  class ClientLoop {
    const session: uint32
    const input: seq<uint8>
    const chunkSize: uint32
    const window: SenderWindow
    const pacer: Pacer
    const clock: Clock
    const stats: WindowSampleStats
    var phase: Phase
    var nextSample: int
    // For the theorems only: the time of the last event, when each chunk was sent, the datagrams in
    // the order in which they were sent, and the bucket before and after each of them.
    ghost var last: int
    ghost var sent: seq<seq<int>>
    ghost var fast: seq<nat>
    ghost var wire: seq<seq<uint8>>
    ghost var buckets: seq<Bucket>

    ghost function Abs(): Client
      reads this, window
    {
      Client(session, input, chunkSize, History(window.Abs(), last, sent, fast), phase)
    }

    /** Every DATA packet so far was admitted by the pacer. */
    ghost predicate Paced()
      reads this, pacer
    {
      Calls(pacer.rate, buckets, WireSizes(wire)) && buckets[|wire|] == pacer.State()
    }

    ghost predicate Valid()
      reads this, window, pacer, clock
    {
      && window.Valid() && Ready(Abs()) && HistoryInv(Abs().history)
      && pacer.clock == clock && pacer.Valid() && last <= clock.time
      && Paced()
    }

    constructor (session: uint32, input: seq<uint8>, chunkSize: uint32, totalChunks: uint32,
                 windowChunks: uint32, coverage: uint32, rateBitsPerSecond: nat, clock: Clock)
      requires |input| < 0x1_0000_0000_0000_0000 && chunkSize < 0x1_0000
      requires ChunkCount(|input|, chunkSize) == Some(totalChunks)
      requires 0 < windowChunks <= coverage && rateBitsPerSecond > 0
      modifies clock
      ensures Valid() && this.clock == clock && fresh(window) && fresh(pacer) && fresh(stats)
      ensures Abs() == Client(session, input, chunkSize, NewHistory(totalChunks, windowChunks, coverage, last), Sending)
      ensures wire == [] && pacer.tokens == 9015.0 && pacer.rate * 8_000_000_000.0 == rateBitsPerSecond as real
    {
      this.session, this.input, this.chunkSize, phase := session, input, chunkSize, Sending;
      window := new SenderWindow(totalChunks, windowChunks, coverage);
      pacer := new Pacer(rateBitsPerSecond, clock);
      stats := new WindowSampleStats();
      this.clock := clock;
      var now := clock.Now();
      nextSample := now + SAMPLE_INTERVAL;
      last, sent, fast := now, seq(totalChunks, _ => []), seq(totalChunks, _ => 0);
      wire := [];
      new;
      buckets := [pacer.State()];
      ChunkCountLayout(|input|, chunkSize);
      NewHistoryInv(totalChunks, windowChunks, coverage, now);
    }

    method DataPacket(s: uint32, retransmission: bool) returns (d: seq<uint8>)
      requires Layout(|input|, chunkSize, window.total) && chunkSize < 0x1_0000 && s < window.total
      ensures d == ChunkDatagram(session, input, chunkSize, window.total, s, retransmission)
    {
      ChunkInBounds(|input|, chunkSize, window.total, s);
      var offset := Offset(chunkSize, s);
      var payload := input[offset..offset + Length(|input|, chunkSize, s)];
      d := DataDatagram(session, s, retransmission, payload);
    }

    /** The pacer's slot and the send. */
    method Send(d: seq<uint8>)
      requires pacer.clock == clock && pacer.Valid() && Paced()
      modifies this`wire, this`buckets, pacer, clock
      ensures pacer.Valid() && Paced()
      ensures clock.time >= old(clock.time) && wire == old(wire) + [d]
    {
      hide Follows;
      ghost var waits, first := pacer.WaitForSlot(IPV4_UDP_OVERHEAD + |d|);
      OneMoreCall(pacer.rate, buckets, wire, pacer.State(), d);
      buckets := buckets + [pacer.State()];
      wire := wire + [d];
    }

    /** Select, build the DATA packet, wait for the pacer, send, and mark_sent with the time after the
        send. */
    method TransmitNext() returns (r: Option<seq<uint8>>)
      requires Valid()
      modifies this`last, this`sent, this`fast, this`wire, this`buckets, window, pacer, clock
      ensures Valid()
      ensures old(clock.time) <= last <= clock.time
      ensures Abs() == SendNext(old(Abs()), last).0 && r == SendNext(old(Abs()), last).1
      ensures wire == if r.Some? then old(wire) + [r.value] else old(wire)
    {
      hide HistoryInv, Layout, CountAcked, Calls, Follows, WireSizes, Shape, Select, MarkSent, ChunkDatagram, Ready;
      ghost var c0 := Abs();
      ReadyShape(c0);
      var decision := window.SelectNextPacket();
      if decision.None? {
        last := clock.time;
        SendKeeps(c0, last);
        return None;
      }
      var s := decision.value.sequence;
      var d := DataPacket(s, decision.value.retransmission);
      r := Some(d);
      Send(d);
      var at := clock.Now();
      window.MarkChunkSent(s, at);
      last := at;
      sent := sent[s := sent[s] + [at]];
      fast := fast[s := fast[s] + (if decision.value.fast then 1 else 0)];
      SendKeeps(c0, last);
    }

    method TimeOut()
      requires Valid()
      modifies this`last, window, clock
      ensures Valid()
      ensures old(clock.time) <= last <= clock.time
      ensures Abs() == TimeoutPass(old(Abs()), last)
    {
      hide HistoryInv, Layout, CountAcked, Calls, CheckTimeouts, Shape;
      ghost var c0 := Abs();
      var at := clock.Now();
      EventKeeps(c0, TimeoutCheck(at));
      window.CheckForTimeouts(at, DEFAULT_RTO);
      last := at;
    }

    /** A sample every 100 ms. */
    method SampleWindow()
      requires Valid()
      modifies this`nextSample, stats, clock
      ensures Valid() && clock.time >= old(clock.time)
      ensures var due := clock.time >= old(nextSample);
              && stats.samples == old(stats.samples) + (if due then 1 else 0)
              && nextSample == if due then clock.time + 100_000_000 else old(nextSample)
    {
      hide Layout, CountAcked, Calls, CountPending;
      var at := clock.Now();
      if at >= nextSample {
        stats.Sample(window);
        nextSample := at + SAMPLE_INTERVAL;
      }
    }

    /** apply_ack_packet, which reads the clock when it comes to process_ack. */
    method OnAck(p: Packet) returns (ghost at: int)
      requires Valid()
      modifies this`last, window, clock
      ensures Valid()
      ensures old(clock.time) <= at <= clock.time
      ensures Abs() == ApplyAck(old(Abs()), p, at)
    {
      hide HistoryInv, Layout, CountAcked, Calls, ProcessAck, Shape, Bit, DecodeAck;
      ghost var c0 := Abs();
      at := clock.time;
      if !Bit(p.header.flags, FLAG_SACK) {
        return;
      }
      var ack := DecodeAck(p.payload);
      if ack.None? || ack.value.bitmapBits != DEFAULT_ACK_BITMAP_BITS {
        return;
      }
      var now := clock.Now();
      EventKeeps(c0, AckArrival(ack.value, now));
      window.ProcessAckPayload(ack.value, now);
      last := now;
      at := now;
    }

    method OnCompleteAck(p: Packet)
      requires Valid()
      modifies this`phase
      ensures Valid()
      ensures Abs() == ApplyCompleteAck(old(Abs()), p)
    {
      hide HistoryInv, Layout, CountAcked, Calls, DecodeCompleteAck;
      var reply := DecodeCompleteAck(p.payload);
      if reply.None? {
        phase := Failed;
      } else if reply.value.status == STATUS_OK {
        if reply.value.receivedChunks != window.total || reply.value.receivedBytes != |input| {
          phase := Failed;
        } else {
          phase := Finished;
        }
      }
    }

    method OnDatagram(data: seq<uint8>) returns (ghost at: int)
      requires Valid()
      modifies this`last, this`phase, window, clock
      ensures Valid()
      ensures old(clock.time) <= at <= clock.time
      ensures Abs() == Receive(old(Abs()), data, at)
      ensures old(phase).Sending? ==> phase.Sending?
    {
      hide HistoryInv, Layout, CountAcked, Calls, DecodePacket, ApplyAck, Ready;
      at := clock.time;
      var decoded := DecodePacket(data);
      if decoded.Rejected? || decoded.packet.header.session != session {
        return;
      }
      if phase.Sending? && decoded.packet.header.kind.Ack? {
        at := OnAck(decoded.packet);
      } else if phase.Completing? && decoded.packet.header.kind.CompleteAck? {
        OnCompleteAck(decoded.packet);
      }
    }

    /** drain_acks over the datagrams that are waiting, each read at its own time. */
    method DrainAcks(datagrams: seq<seq<uint8>>) returns (ghost arrivals: seq<Arrival>)
      requires Valid() && phase.Sending?
      modifies this`last, this`phase, window, clock
      ensures Valid() && phase.Sending? && clock.time >= old(clock.time)
      ensures Arrived(datagrams, arrivals) && InOrder(old(clock.time), arrivals)
      ensures Until(old(clock.time), arrivals) <= clock.time
      ensures Abs() == Drain(old(Abs()), arrivals)
    {
      hide HistoryInv, Layout, CountAcked, Calls, Receive, Ready, InOrder, Until;
      ghost var c0, start := Abs(), clock.time;
      arrivals := [];
      NoArrivals(start);
      assert Drain(c0, []) == c0;
      for i := 0 to |datagrams|
        invariant Valid() && phase.Sending? && clock.time >= start
        invariant Arrived(datagrams[..i], arrivals)
        invariant InOrder(start, arrivals) && Until(start, arrivals) <= clock.time
        invariant Abs() == Drain(c0, arrivals)
      {
        ghost var at := OnDatagram(datagrams[i]);
        ghost var x := Arrival(datagrams[i], at);
        DrainOne(c0, arrivals, x);
        InOrderOne(start, arrivals, x);
        arrivals := arrivals + [x];
      }
    }

    /** The second half of a pass: send and drain again, or else wait for one datagram. */
    method SendThenRead(after: seq<seq<uint8>>, waited: Option<seq<uint8>>)
      returns (r: Option<seq<uint8>>, ghost sentAt: int, ghost more: seq<Arrival>, ghost lone: Option<Arrival>)
      requires Valid() && phase.Sending?
      modifies this`last, this`sent, this`fast, this`wire, this`buckets, this`phase, window, pacer, clock
      ensures Valid() && old(clock.time) <= sentAt <= clock.time
      ensures wire == if r.Some? then old(wire) + [r.value] else old(wire)
      ensures if r.Some? then Arrived(after, more) && lone == None else more == [] && Arrived(Lone(waited), Lone(lone))
      ensures InOrder(sentAt, more) && (lone.Some? ==> sentAt <= lone.value.at)
      ensures var (c, d) := SendNext(old(Abs()), sentAt);
              && Ready(c) && r == d
              && Abs() == if d.Some? then Drain(c, more)
                          else if lone.Some? then Receive(c, lone.value.data, lone.value.at) else c
    {
      hide HistoryInv, Layout, CountAcked, Calls, Receive, Ready, Drain, InOrder, Until, SendNext, WireSizes;
      r := TransmitNext();
      sentAt, more, lone := last, [], None;
      NoArrivals(sentAt);
      if r.Some? {
        ghost var start := clock.time;
        more := DrainAcks(after);
        InOrderSooner(sentAt, start, more);
      } else if waited.Some? {
        ghost var at := OnDatagram(waited.value);
        lone := Some(Arrival(waited.value, at));
      }
    }

    /** One evaluation of the loop's guard and, if chunks are missing, one pass: drain, time out,
        sample, send and drain again, or else wait for one datagram. */
    method Iterate(before: seq<seq<uint8>>, after: seq<seq<uint8>>, waited: Option<seq<uint8>>)
      returns (r: Option<seq<uint8>>, ghost p: PassInput)
      requires Valid() && phase.Sending?
      modifies this, window, pacer, clock, stats
      ensures Valid() && clock.time >= old(clock.time)
      ensures wire == if r.Some? then old(wire) + [r.value] else old(wire)
      ensures var c := old(Abs());
              if c.history.w.base == c.history.w.total then Abs() == c.(phase := Completing) && r == None
              else (Abs(), r) == Pass(c, p) && WellTimed(old(clock.time), p) && Arrived(before, p.before)
                   && (if r.Some? then Arrived(after, p.after) else Arrived(Lone(waited), Lone(p.waited)))
    {
      hide HistoryInv, Layout, CountAcked, Calls, Receive, Ready, Drain, InOrder, Until, TimeoutPass, SendNext, WireSizes;
      ghost var c0 := Abs();
      r, p := None, PassInput([], 0, 0, [], None);
      var done := window.AllAcked();
      EndIsAllAcked(Abs().history);
      if done {
        phase := Completing;
        CompletingReady(c0);
        return;
      }
      ghost var first := DrainAcks(before);
      TimeOut();
      ghost var timeoutAt := last;
      SampleWindow();
      ghost var sentAt: int, more: seq<Arrival>, lone: Option<Arrival>;
      r, sentAt, more, lone := SendThenRead(after, waited);
      p := PassInput(first, timeoutAt, sentAt, more, lone);
    }

    /** What the client puts on the wire keeps to the rate: the bytes of the datagrams i..j, headers
        included, are at most one bucket plus the rate times the time between the admission of the
        first and that of the last. */
    lemma WireConformance(i: nat, j: nat)
      requires Valid() && i <= j < |wire|
      ensures |buckets| == |wire| + 1
      ensures forall k | 0 <= k < |wire| :: WireSizes(wire)[k] == 28 + |wire[k]|
      ensures Total(WireSizes(wire), i, j + 1) as real
              <= MaxReal(9015.0, (28 + |wire[i]|) as real)
                 + Gain(buckets[j + 1].lastRefill - buckets[i + 1].lastRefill, pacer.rate)
    {
      hide HistoryInv, Layout, CountAcked, Ready;
      Pacing.Conformance(pacer.rate, buckets, WireSizes(wire), i, j);
    }
  }

  lemma EndIsAllAcked(h: History)
    requires HistoryInv(h)
    ensures var w := h.w; |w.chunks| == w.total && AtHole(w) && (w.base == w.total <==> forall i | 0 <= i < w.total :: w.chunks[i].state.Acked?)
  {
    hide ChunkHistory;
  }

  lemma CompletingReady(c: Client)
    requires Ready(c)
    ensures Ready(c.(phase := Completing))
  {
  }

  lemma NoArrivals(clock: int)
    ensures InOrder(clock, []) && Until(clock, []) == clock
  {
  }

  function Lone<T>(x: Option<T>): seq<T> { if x.Some? then [x.value] else [] }

  ghost predicate Arrived(datagrams: seq<seq<uint8>>, arrivals: seq<Arrival>) {
    |arrivals| == |datagrams| && forall k | 0 <= k < |arrivals| :: arrivals[k].data == datagrams[k]
  }

  lemma EventKeeps(c: Client, e: Event)
    requires Ready(c) && HistoryInv(c.history) && c.history.clock <= e.at
    ensures var c' := c.(history := Step(c.history, e)); Ready(c') && HistoryInv(c'.history)
  {
    hide HistoryInv, Ready, Step;
    StepReady(c, e);
    StepKeeps(c.history, e);
  }

  lemma SendKeeps(c: Client, at: int)
    requires Ready(c) && HistoryInv(c.history) && c.history.clock <= at
    ensures var c' := SendNext(c, at).0; Ready(c') && HistoryInv(c'.history)
  {
    hide HistoryInv, Ready, Step;
    EventKeeps(c, Transmission(at));
  }

  lemma ReadyShape(c: Client)
    requires Ready(c)
    ensures var (v, d) := Select(c.history.w);
            && Shape(v) && v.total == c.history.w.total
            && (d.Some? ==> d.value.sequence < v.next <= v.total && !v.chunks[d.value.sequence].state.Acked?)
    ensures Layout(|c.file|, c.chunkSize, c.history.w.total) && c.chunkSize < 0x1_0000
    ensures |c.history.sent| == |c.history.fast| == c.history.w.total && Shape(c.history.w)
  {
    SelectShape(c.history.w);
    NotAckedWhenSelected(c.history.w);
  }
}

/** Every fair run finishes.  A run is fair if the client keeps going round its loop while its clock
    passes every time, if of the packets and replies that are sent over and over some get through,
    and if the same holds of COMPLETE.  Nothing is assumed about how many are lost before. */
module FairRuns {
  import opened Bytes
  import opened Protocol
  import opened Datagrams
  import opened SenderModel
  import opened SenderWindow
  import opened SenderInvariant
  import opened SenderProperties
  import opened SenderRuns
  import opened Receiver
  import opened ServerModel
  import opened TransferSystem
  import opened TransferTheorems
  import opened Progress
  import opened ProgramRuns
  import opened Rounds
  import opened QueueProgress
  import Sending = ClientModel

  /** An infinite run of the two programs: its states, and the actions between them. */
  ghost predicate Execution(t: Transfer, f: nat -> Running, g: nat -> Action) {
    && Reachable(t, f(0).sys) && Placed(f(0))
    && forall i: nat :: Takes(t, f(i), g(i), f(i + 1))
  }

  function WindowAt(f: nat -> Running, i: nat): Window { f(i).sys.client.history.w }

  predicate SendingAt(f: nat -> Running, i: nat) { f(i).sys.client.phase.Sending? }

  // ----- fairness

  predicate ChecksAt(g: nat -> Action, j: nat, time: int) { g(j).ClientTimesOut? && g(j).at >= time }

  ghost predicate ChecksAfter(f: nat -> Running, g: nat -> Action, i: nat, time: int) {
    exists j: nat :: i <= j && (!SendingAt(f, j) || ChecksAt(g, j, time))
  }

  /** As long as it is sending, the client checks timeouts again, at later and later times. */
  ghost predicate KeepsGoing(f: nat -> Running, g: nat -> Action) {
    forall i: nat, time: int :: ChecksAfter(f, g, i, time)
  }

  ghost predicate RetransmittedAt(f: nat -> Running, g: nat -> Action, s: nat, j: nat) {
    g(j).ClientSends? && Shape(WindowAt(f, j)) && Retransmits(WindowAt(f, j), s)
  }

  ghost predicate RetransmittedAfter(f: nat -> Running, g: nat -> Action, s: nat, k: nat) {
    exists j: nat :: k <= j && RetransmittedAt(f, g, s, j)
  }

  /** A packet of chunk `s` is delivered at `x`, and the reply that it gets is delivered at `y`. */
  ghost predicate AnsweredAt(t: Transfer, f: nat -> Running, g: nat -> Action, s: nat, x: nat, y: nat) {
    && Fits(t) && s < t.start.totalChunks && Configured(f(x).sys.server)
    && g(x).ServerGets? && g(x).data == ChunkPacket(t, s)
    && g(y).ClientGets? && Receive(f(x).sys.server, g(x).data, g(x).now, g(x).transferTimeUs).1 == Some(g(y).data)
  }

  ghost predicate AnsweredAfter(t: Transfer, f: nat -> Running, g: nat -> Action, s: nat, i: nat) {
    exists x: nat, y: nat :: i <= x < y && AnsweredAt(t, f, g, s, x, y)
  }

  ghost predicate RetransmittedForever(f: nat -> Running, g: nat -> Action, s: nat, i: nat) {
    forall k: nat | i <= k :: SendingAt(f, k) && RetransmittedAfter(f, g, s, k)
  }

  /** A chunk that is retransmitted over and over gets through at some time, and so does a reply. */
  ghost predicate NetworkFair(t: Transfer, f: nat -> Running, g: nat -> Action) {
    forall s: nat, i: nat :: RetransmittedForever(f, g, s, i) ==> AnsweredAfter(t, f, g, s, i)
  }

  /** A COMPLETE is delivered at `x`, and the reply that it gets is delivered at `y`. */
  ghost predicate ConfirmedAt(t: Transfer, f: nat -> Running, g: nat -> Action, x: nat, y: nat) {
    && Configured(f(x).sys.server)
    && g(x).ServerGets? && g(x).data == CompleteDatagram(t.session, t.start.totalChunks)
    && g(y).ClientGets? && Receive(f(x).sys.server, g(x).data, g(x).now, g(x).transferTimeUs).1 == Some(g(y).data)
  }

  ghost predicate ConfirmedAfter(t: Transfer, f: nat -> Running, g: nat -> Action, i: nat) {
    exists x: nat, y: nat :: i <= x < y && ConfirmedAt(t, f, g, x, y)
  }

  predicate CompletingAt(f: nat -> Running, i: nat) { f(i).sys.client.phase.Completing? }

  ghost predicate CompletingForever(f: nat -> Running, i: nat) { forall k: nat | i <= k :: CompletingAt(f, k) }

  /** A client that asks for confirmation over and over gets through at some time, and so does a reply. */
  ghost predicate CompletionFair(t: Transfer, f: nat -> Running, g: nat -> Action) {
    forall i: nat :: CompletingForever(f, i) ==> ConfirmedAfter(t, f, g, i)
  }

  // ----- along a run

  lemma {:induction false} AlwaysSafe(t: Transfer, f: nat -> Running, g: nat -> Action, i: nat)
    requires Execution(t, f, g)
    ensures Safe(t, f(i).sys) && Placed(f(i)) && Takes(t, f(i), g(i), f(i + 1))
  {
    hide Safe, Takes, Placed, Reachable;
    if i == 0 {
      ReachableSafe(t, f(0).sys);
    } else {
      AlwaysSafe(t, f, g, i - 1);
      TakesPlaced(t, f(i - 1), g(i - 1), f(i));
    }
  }

  lemma NextGrows(t: Transfer, sys: System, a: Action)
    requires Safe(t, sys) && Enabled(sys, a)
    ensures Sending.Ready(sys.client) && Configured(sys.server)
    ensures sys.client.history.w.next <= Next(sys, a).client.history.w.next
  {
    hide Safe, ServerSafe, Fits, Configured, HistoryInv, Inv, Sending.Ready, Receive, DecodePacket, DecodeAck, Bit;
    SafeParts(t, sys);
    InvShape(sys.client.history.w);
    if a.ClientSends? {
      TransmitKeepsStates(sys.client.history.w, a.at);
    }
  }

  lemma {:induction false} Grows(t: Transfer, f: nat -> Running, g: nat -> Action, i: nat, j: nat)
    requires Execution(t, f, g) && i <= j
    ensures AckedSet(WindowAt(f, i)) <= AckedSet(WindowAt(f, j)) && WindowAt(f, i).next <= WindowAt(f, j).next
    decreases j
  {
    hide Safe, Enabled, Next, AckedSet, Execution;
    if i < j {
      Grows(t, f, g, i, j - 1);
      AlwaysSafe(t, f, g, j - 1);
      AckedGrows(t, f(j - 1).sys, g(j - 1));
      NextGrows(t, f(j - 1).sys, g(j - 1));
    }
  }

  /** Between two timeout checks there is a selection. */
  lemma NextSelection(t: Transfer, f: nat -> Running, g: nat -> Action, i: nat) returns (j: nat)
    requires Execution(t, f, g) && KeepsGoing(f, g)
    ensures i <= j && (!SendingAt(f, j) || (g(j).ClientSends? && f(j).stage.Selecting?))
  {
    hide Execution, Safe, Follows;
    assert ChecksAfter(f, g, i, 0);
    var a: nat :| i <= a && (!SendingAt(f, a) || ChecksAt(g, a, 0));
    j := a;
    if SendingAt(f, a) {
      assert ChecksAfter(f, g, a + 1, 0);
      var b: nat :| a + 1 <= b && (!SendingAt(f, b) || ChecksAt(g, b, 0));
      AlwaysSafe(t, f, g, a);
      j := a + 1;
      while j < b && !g(j).ClientSends?
        invariant a + 1 <= j <= b && f(j).stage.Selecting?
      {
        AlwaysSafe(t, f, g, j);
        j := j + 1;
      }
      AlwaysSafe(t, f, g, b);
    }
  }

  // ----- one step, seen from a chunk that is not ACKED by it

  lemma ReceiveMove(c: Sending.Client, data: seq<uint8>, at: int)
    requires Sending.Ready(c)
    ensures var v := Sending.Receive(c, data, at).history.w;
            || v == c.history.w
            || (&& DecodePacket(data).Decoded? && DecodeAck(DecodePacket(data).packet.payload).Some?
                && v == ProcessAck(c.history.w, DecodeAck(DecodePacket(data).packet.payload).value, at))
  {
    hide DecodePacket, DecodeAck, DecodeCompleteAck, Bit, ProcessAck, Shape;
  }

  lemma StepKeepsQueued(t: Transfer, sys: System, a: Action, b: nat)
    requires Safe(t, sys) && Enabled(sys, a)
    requires Queued(sys.client.history.w, b)
    ensures Sending.Ready(sys.client) && Configured(sys.server)
    ensures Below(sys.client.history.w.queue, |sys.client.history.w.chunks|)
    ensures var w := sys.client.history.w; var v := Next(sys, a).client.history.w;
            b in AckedSet(v) || (a.ClientSends? && Retransmits(w, b))
            || (&& Queued(v, b) && Position(v.queue, b) <= Position(w.queue, b)
                && (a.ClientSends? ==> Position(v.queue, b) < Position(w.queue, b)))
  {
    hide Safe, ServerSafe, Fits, Configured, HistoryInv, Inv, Sending.Ready, Receive, Select, Transmit, ProcessAck;
    hide Queued, Retransmits, AckedSet, CheckTimeouts, Sending.Receive;
    SafeParts(t, sys);
    var w := sys.client.history.w;
    InvShape(w);
    match a
    case ClientSends(at) => SelectionForward(w, b, at);
    case ClientTimesOut(at) => TimeoutForward(w, b, at);
    case ClientGets(data, at) =>
      ReceiveMove(sys.client, data, at);
      if DecodePacket(data).Decoded? && DecodeAck(DecodePacket(data).packet.payload).Some? {
        var ack := DecodeAck(DecodePacket(data).packet.payload).value;
        if b !in AckedSet(ProcessAck(w, ack, at)) {
          AckForward(w, b, ack, at);
        }
      }
    case _ =>
  }

  lemma StepKeepsTime(t: Transfer, sys: System, a: Action, b: nat)
    requires Safe(t, sys) && Enabled(sys, a) && b < sys.client.history.w.next
    ensures Sending.Ready(sys.client) && Configured(sys.server)
    ensures b < |sys.client.history.w.chunks| == |Next(sys, a).client.history.w.chunks|
    ensures Below(sys.client.history.w.queue, |sys.client.history.w.chunks|)
    ensures var w := sys.client.history.w; var v := Next(sys, a).client.history.w;
            (a.ClientSends? && Retransmits(w, b)) || v.chunks[b].lastSent == w.chunks[b].lastSent
  {
    hide Safe, ServerSafe, Fits, Configured, HistoryInv, Inv, Sending.Ready, Receive, Select, Transmit, ProcessAck;
    hide Retransmits, CheckTimeouts, Sending.Receive;
    SafeParts(t, sys);
    NextSafe(t, sys, a);
    SafeParts(t, Next(sys, a));
    var w := sys.client.history.w;
    InvShape(w);
    SelectedExists(w);
    match a
    case ClientSends(at) =>
      if !Retransmits(w, b) {
        SelectionKeepsTime(w, b, at);
      }
    case ClientTimesOut(at) => CheckKeepsTime(w, b, at);
    case ClientGets(data, at) =>
      ReceiveMove(sys.client, data, at);
      if DecodePacket(data).Decoded? && DecodeAck(DecodePacket(data).packet.payload).Some? {
        AckKeepsTime(w, b, DecodeAck(DecodePacket(data).packet.payload).value, at);
      }
    case _ =>
  }

  lemma SelectedExists(w: Window)
    requires Inv(w)
    ensures w.base <= w.next <= |w.chunks|
  {
  }

  lemma CheckKeepsTime(w: Window, b: nat, at: int)
    requires w.base <= w.next <= |w.chunks| && b < |w.chunks|
    ensures CheckTimeouts(w, at, DEFAULT_RTO).chunks[b].lastSent == w.chunks[b].lastSent
  {
  }

  // ----- a sender that makes no progress

  /** From `i` on nothing more is ACKED and nothing new selected. */
  ghost predicate Stalled(f: nat -> Running, i: nat) {
    forall j: nat | i <= j ::
      && SendingAt(f, j)
      && AckedSet(WindowAt(f, j)) == AckedSet(WindowAt(f, i))
      && WindowAt(f, j).next == WindowAt(f, i).next
  }

  lemma WindowInv(t: Transfer, f: nat -> Running, g: nat -> Action, i: nat)
    requires Execution(t, f, g)
    ensures var w := WindowAt(f, i);
            && Inv(w) && Shape(w) && w.total == t.start.totalChunks == |w.chunks| && w.base <= w.next <= w.total
            && (w.base < w.total ==> w.base !in AckedSet(w))
  {
    AlwaysSafe(t, f, g, i);
    hide Execution, ServerSafe;
  }

  /** The base stands still with it, in flight if it has been selected at all. */
  lemma StalledBase(t: Transfer, f: nat -> Running, g: nat -> Action, i: nat, j: nat)
    requires Execution(t, f, g) && Stalled(f, i) && i <= j
    ensures var w := WindowAt(f, i); var v := WindowAt(f, j);
            && v.base == w.base && v.next == w.next && SendingAt(f, j) && |v.chunks| == |w.chunks|
            && (w.base < w.total ==> w.base !in AckedSet(v))
            && (w.base < w.next ==> w.base < |v.chunks| && v.chunks[w.base].state.InFlight?)
  {
    hide Execution, Safe, AckedSet, Inv, Shape;
    WindowInv(t, f, g, i);
    WindowInv(t, f, g, j);
    SameAcked(WindowAt(f, i), WindowAt(f, j));
    SelectedOrAcked(WindowAt(f, j), WindowAt(f, i).base);
  }

  lemma SelectedOrAcked(w: Window, s: nat)
    requires Inv(w)
    ensures s < w.next && s !in AckedSet(w) ==> w.chunks[s].state.InFlight?
  {
  }

  lemma EmptySpanSelects(w: Window, at: int)
    requires Inv(w) && w.base == w.next < w.total
    ensures Shape(w) && Transmit(w, at).0.next == w.next + 1
  {
    FreshInv(w);
    CountFull(w.chunks, 0, w.base);
    NoneLive(w.chunks, w.queue, w.next);
  }

  lemma {:induction false} NoneLive(cs: seq<Chunk>, queue: seq<nat>, n: nat)
    requires n <= |cs| && Below(queue, n) && forall i | 0 <= i < n :: cs[i].state.Acked?
    ensures DropStale(cs, queue) == []
    decreases |queue|
  {
    if queue != [] {
      NoneLive(cs, queue[1..], n);
    }
  }

  lemma SendsMore(t: Transfer, sys: System, at: int)
    requires Safe(t, sys) && Enabled(sys, ClientSends(at))
    requires sys.client.history.w.base == sys.client.history.w.next < sys.client.history.w.total
    ensures Sending.Ready(sys.client) && Configured(sys.server)
    ensures Next(sys, ClientSends(at)).client.history.w.next > sys.client.history.w.next
  {
    hide Safe, ServerSafe, Fits, Configured, HistoryInv, Inv, Transmit;
    SafeParts(t, sys);
    EmptySpanSelects(sys.client.history.w, at);
  }

  lemma StalledIsSelected(t: Transfer, f: nat -> Running, g: nat -> Action, i: nat)
    requires Execution(t, f, g) && KeepsGoing(f, g) && Stalled(f, i) && WindowAt(f, i).base < WindowAt(f, i).total
    ensures WindowAt(f, i).base < WindowAt(f, i).next
  {
    hide Execution, KeepsGoing, Safe, Enabled, Next, AckedSet;
    WindowInv(t, f, g, i);
    if WindowAt(f, i).base == WindowAt(f, i).next {
      var j := NextSelection(t, f, g, i);
      StalledBase(t, f, g, i, j);
      WindowInv(t, f, g, j);
      AlwaysSafe(t, f, g, j);
      SendsMore(t, f(j).sys, g(j).at);
      StalledBase(t, f, g, i, j + 1);
    }
  }

  /** A queued base is retransmitted: each selection brings it forward. */
  lemma {:induction false} QueuedRetransmits(t: Transfer, f: nat -> Running, g: nat -> Action, i: nat, m: nat)
    requires Execution(t, f, g) && KeepsGoing(f, g) && Stalled(f, i) && WindowAt(f, i).base < WindowAt(f, i).total
    requires i <= m && Queued(WindowAt(f, m), WindowAt(f, i).base)
    ensures RetransmittedAfter(f, g, WindowAt(f, i).base, m)
    decreases Position(WindowAt(f, m).queue, WindowAt(f, i).base)
  {
    hide Execution, KeepsGoing, Stalled, Safe, Enabled, Next, AckedSet, Queued, Retransmits, Shape, Inv, StageAfter;
    var b := WindowAt(f, i).base;
    var n := NextSelection(t, f, g, m);
    var j := m;
    while j < n && !RetransmittedAt(f, g, b, j)
      invariant m <= j <= n
      invariant Queued(WindowAt(f, j), b) && Position(WindowAt(f, j).queue, b) <= Position(WindowAt(f, m).queue, b)
    {
      QueuedNext(t, f, g, i, j);
      j := j + 1;
    }
    if !RetransmittedAt(f, g, b, j) {
      StalledBase(t, f, g, i, j);
      QueuedNext(t, f, g, i, j);
      QueuedRetransmits(t, f, g, i, j + 1);
      var k: nat :| j + 1 <= k && RetransmittedAt(f, g, b, k);
    }
  }

  lemma QueuedNext(t: Transfer, f: nat -> Running, g: nat -> Action, i: nat, j: nat)
    requires Execution(t, f, g) && Stalled(f, i) && WindowAt(f, i).base < WindowAt(f, i).total
    requires i <= j && Queued(WindowAt(f, j), WindowAt(f, i).base)
    requires !RetransmittedAt(f, g, WindowAt(f, i).base, j)
    ensures var b := WindowAt(f, i).base; var w := WindowAt(f, j); var v := WindowAt(f, j + 1);
            && Queued(v, b) && Position(v.queue, b) <= Position(w.queue, b)
            && (g(j).ClientSends? ==> Position(v.queue, b) < Position(w.queue, b))
  {
    hide Execution, Stalled, Safe, Enabled, Next, AckedSet, Queued, Retransmits, Shape, Inv, StageAfter;
    AlwaysSafe(t, f, g, j);
    WindowInv(t, f, g, j);
    StalledBase(t, f, g, i, j + 1);
    StepKeepsQueued(t, f(j).sys, g(j), WindowAt(f, i).base);
  }

  /** The base of a stalled sender is retransmitted over and over. */
  lemma StalledRetransmits(t: Transfer, f: nat -> Running, g: nat -> Action, i: nat, k: nat)
    requires Execution(t, f, g) && KeepsGoing(f, g) && Stalled(f, i) && WindowAt(f, i).base < WindowAt(f, i).total
    requires i <= k
    ensures RetransmittedAfter(f, g, WindowAt(f, i).base, k)
  {
    hide Execution, KeepsGoing, Stalled, Safe, Enabled, Next, AckedSet, Queued, Retransmits, Shape, Inv, StageAfter;
    var b := WindowAt(f, i).base;
    StalledIsSelected(t, f, g, i);
    StalledBase(t, f, g, i, k);
    var time := WindowAt(f, k).chunks[b].lastSent;
    var c := NextCheck(f, g, k, time + DEFAULT_RTO);
    var j := k;
    while j < c && !RetransmittedAt(f, g, b, j)
      invariant k <= j <= c
      invariant b < |WindowAt(f, j).chunks| && WindowAt(f, j).chunks[b].lastSent == time
    {
      TimeNext(t, f, g, i, j);
      j := j + 1;
    }
    if !RetransmittedAt(f, g, b, j) {
      CheckNext(t, f, g, i, j);
      QueuedRetransmits(t, f, g, i, j + 1);
      var m: nat :| j + 1 <= m && RetransmittedAt(f, g, b, m);
    }
  }

  lemma NextCheck(f: nat -> Running, g: nat -> Action, k: nat, time: int) returns (c: nat)
    requires KeepsGoing(f, g)
    ensures k <= c && (!SendingAt(f, c) || ChecksAt(g, c, time))
  {
    assert ChecksAfter(f, g, k, time);
    c :| k <= c && (!SendingAt(f, c) || ChecksAt(g, c, time));
  }

  lemma TimeNext(t: Transfer, f: nat -> Running, g: nat -> Action, i: nat, j: nat)
    requires Execution(t, f, g) && Stalled(f, i) && WindowAt(f, i).base < WindowAt(f, i).next
    requires i <= j && !RetransmittedAt(f, g, WindowAt(f, i).base, j)
    ensures var b := WindowAt(f, i).base; var w := WindowAt(f, j); var v := WindowAt(f, j + 1);
            b < |w.chunks| == |v.chunks| && v.chunks[b].lastSent == w.chunks[b].lastSent
  {
    hide Execution, Stalled, Safe, Enabled, Next, AckedSet, Retransmits, Shape, Inv, StageAfter;
    AlwaysSafe(t, f, g, j);
    WindowInv(t, f, g, j);
    StalledBase(t, f, g, i, j);
    StepKeepsTime(t, f(j).sys, g(j), WindowAt(f, i).base);
  }

  lemma CheckNext(t: Transfer, f: nat -> Running, g: nat -> Action, i: nat, j: nat)
    requires Execution(t, f, g) && Stalled(f, i) && WindowAt(f, i).base < WindowAt(f, i).next
    requires i <= j && WindowAt(f, i).base < |WindowAt(f, j).chunks|
    requires !SendingAt(f, j) || ChecksAt(g, j, WindowAt(f, j).chunks[WindowAt(f, i).base].lastSent + DEFAULT_RTO)
    ensures Queued(WindowAt(f, j + 1), WindowAt(f, i).base)
  {
    hide Execution, Stalled, Safe, AckedSet, Queued, Shape, Inv, StageAfter, CheckTimeouts, Receive;
    AlwaysSafe(t, f, g, j);
    WindowInv(t, f, g, j);
    StalledBase(t, f, g, i, j);
    CheckQueues(WindowAt(f, j), WindowAt(f, i).base, g(j).at);
    SafeReady(t, f(j).sys);
  }

  /** A fair run does not stall: sooner or later the base gets through. */
  lemma NeverStalls(t: Transfer, f: nat -> Running, g: nat -> Action, i: nat)
    requires Execution(t, f, g) && KeepsGoing(f, g) && NetworkFair(t, f, g)
    requires WindowAt(f, i).base < WindowAt(f, i).total
    ensures !Stalled(f, i)
  {
    hide Execution, KeepsGoing, Safe, AnsweredAt;
    if Stalled(f, i) {
      var b := WindowAt(f, i).base;
      forall k: nat | i <= k ensures SendingAt(f, k) && RetransmittedAfter(f, g, b, k) {
        StalledRetransmits(t, f, g, i, k);
      }
      assert RetransmittedForever(f, g, b, i);
      assert AnsweredAfter(t, f, g, b, i);
      var x: nat, y: nat :| i <= x < y && AnsweredAt(t, f, g, b, x, y);
      hide NetworkFair, Stalled;
      AnswerCounts(t, f, g, b, x, y);
      StalledBase(t, f, g, i, y + 1);
    }
  }

  lemma AnswerCounts(t: Transfer, f: nat -> Running, g: nat -> Action, s: nat, x: nat, y: nat)
    requires Execution(t, f, g) && x < y && AnsweredAt(t, f, g, s, x, y)
    ensures s in AckedSet(WindowAt(f, y + 1))
  {
    hide Execution, Safe, Claims, WellSized, AckDatagram, Snapshot, Receive, ChunkPacket, AckedSet, StageAfter, Configured;
    AlwaysSafe(t, f, g, x);
    AlwaysSafe(t, f, g, x + 1);
    AlwaysSafe(t, f, g, y);
    TakesFollows(t, f(x), g(x), f(x + 1));
    TakesFollows(t, f(y), g(y), f(y + 1));
    hide Takes, Follows;
    ReplyClaims(t, f(x).sys, s, g(x).now, g(x).transferTimeUs, g(y).data, f(x + 1).sys);
    var ack := Snapshot(f(x + 1).sys.server.received, DEFAULT_ACK_BITMAP_BITS);
    SnapshotSized(f(x + 1).sys.server.received, DEFAULT_ACK_BITMAP_BITS);
    assert g(y) == ClientGets(AckDatagram(t.session, f(x).sys.server.ackNumber, ack), g(y).at);
    AckCounts(t, f(y).sys, f(x).sys.server.ackNumber, ack, s, g(y).at, f(y + 1).sys);
  }

  // ----- every fair run finishes

  /** Everything is ACKED, or the client has left its loop because it was. */
  predicate AllAckedAt(f: nat -> Running, j: nat) {
    !SendingAt(f, j) || WindowAt(f, j).base == WindowAt(f, j).total
  }

  lemma {:induction false} EventuallyAcked(t: Transfer, f: nat -> Running, g: nat -> Action, i: nat) returns (j: nat)
    requires Execution(t, f, g) && KeepsGoing(f, g) && NetworkFair(t, f, g)
    ensures i <= j && AllAckedAt(f, j)
    decreases |Unacked(WindowAt(f, i))|, t.start.totalChunks - WindowAt(f, i).next
  {
    hide Execution, KeepsGoing, NetworkFair, AckedSet, Unacked;
    j := i;
    WindowInv(t, f, g, i);
    if !AllAckedAt(f, i) {
      NeverStalls(t, f, g, i);
      var k: nat :| i <= k && !(&& SendingAt(f, k) && AckedSet(WindowAt(f, k)) == AckedSet(WindowAt(f, i))
                                && WindowAt(f, k).next == WindowAt(f, i).next);
      j := k;
      if SendingAt(f, k) {
        MovesOn(t, f, g, i, k);
        j := EventuallyAcked(t, f, g, k);
      }
    }
  }

  lemma MovesOn(t: Transfer, f: nat -> Running, g: nat -> Action, i: nat, k: nat)
    requires Execution(t, f, g) && i <= k
    requires !(AckedSet(WindowAt(f, k)) == AckedSet(WindowAt(f, i)) && WindowAt(f, k).next == WindowAt(f, i).next)
    ensures WindowAt(f, k).next <= t.start.totalChunks
    ensures || |Unacked(WindowAt(f, k))| < |Unacked(WindowAt(f, i))|
            || (|Unacked(WindowAt(f, k))| == |Unacked(WindowAt(f, i))| && WindowAt(f, i).next < WindowAt(f, k).next)
  {
    hide Execution, AckedSet, Unacked, Inv, Shape;
    Grows(t, f, g, i, k);
    WindowInv(t, f, g, i);
    WindowInv(t, f, g, k);
    if AckedSet(WindowAt(f, k)) == AckedSet(WindowAt(f, i)) {
      SameUnacked(WindowAt(f, i), WindowAt(f, k));
    } else {
      UnackedShrinks(WindowAt(f, i), WindowAt(f, k));
    }
  }

  lemma StaysAcked(w: Window, u: Window)
    requires Inv(w) && Inv(u) && w.total == u.total && w.base == w.total && AckedSet(w) <= AckedSet(u)
    ensures u.base == u.total
  {
    hide CountAcked, QueueAgrees, EvidenceExact, Limits;
    assert u.base < u.total ==> u.base in AckedSet(w);
  }

  /** With everything ACKED there is no further pass, so the next check but one never comes. */
  lemma EventuallyLeaves(t: Transfer, f: nat -> Running, g: nat -> Action, i: nat) returns (j: nat)
    requires Execution(t, f, g) && KeepsGoing(f, g) && AllAckedAt(f, i)
    ensures i <= j && !SendingAt(f, j)
  {
    hide Execution, KeepsGoing, Safe, AckedSet, Inv;
    j := i;
    if SendingAt(f, i) {
      var a := NextCheck(f, g, i, 0);
      var b := NextCheck(f, g, a + 1, 0);
      j := a;
      if SendingAt(f, a) {
        CheckLeadsOn(t, f, g, a);
        j := a + 1;
        while j < b
          invariant a + 1 <= j <= b && !f(j).stage.Draining?
        {
          NoFurtherPass(t, f, g, i, j);
          j := j + 1;
        }
        AlwaysSafe(t, f, g, b);
        hide Enabled, Next;
        assert !ChecksAt(g, b, 0) by { CheckIsDraining(t, f, g, b); }
      }
    }
  }

  lemma CheckLeadsOn(t: Transfer, f: nat -> Running, g: nat -> Action, a: nat)
    requires Execution(t, f, g) && g(a).ClientTimesOut?
    ensures f(a + 1).stage.Selecting?
  {
    AlwaysSafe(t, f, g, a);
    hide Safe, Enabled, Next;
  }

  lemma CheckIsDraining(t: Transfer, f: nat -> Running, g: nat -> Action, a: nat)
    requires Execution(t, f, g)
    ensures g(a).ClientTimesOut? ==> f(a).stage.Draining?
  {
    AlwaysSafe(t, f, g, a);
    hide Safe, Enabled, Next;
  }

  lemma NoFurtherPass(t: Transfer, f: nat -> Running, g: nat -> Action, i: nat, j: nat)
    requires Execution(t, f, g) && i <= j && SendingAt(f, i) && AllAckedAt(f, i) && !f(j).stage.Draining?
    ensures !f(j + 1).stage.Draining?
  {
    hide Execution, Safe, Next, AckedSet, Inv, Shape, IsExpected, Select, Receive, Placed;
    AlwaysSafe(t, f, g, j);
    Grows(t, f, g, i, j);
    WindowInv(t, f, g, i);
    WindowInv(t, f, g, j);
    StaysAcked(WindowAt(f, i), WindowAt(f, j));
  }

  lemma {:induction false} StaysOut(t: Transfer, f: nat -> Running, g: nat -> Action, i: nat, j: nat)
    requires Execution(t, f, g) && i <= j && !SendingAt(f, i)
    ensures !SendingAt(f, j)
    decreases j
  {
    hide Execution, Safe, Takes, Placed;
    if i < j {
      StaysOut(t, f, g, i, j - 1);
      AlwaysSafe(t, f, g, j - 1);
      PhaseKept(t, f(j - 1), g(j - 1), f(j));
    }
  }

  lemma PhaseKept(t: Transfer, r: Running, a: Action, u: Running)
    requires Takes(t, r, a, u) && !r.sys.client.phase.Sending?
    ensures !u.sys.client.phase.Sending?
  {
    hide Safe, Receive, DecodePacket, DecodeAck, DecodeCompleteAck, Bit, Step, Sending.Ready;
    SafeReady(t, r.sys);
  }

  lemma ConfirmationEnds(t: Transfer, f: nat -> Running, g: nat -> Action, x: nat, y: nat)
    requires Execution(t, f, g) && x < y && ConfirmedAt(t, f, g, x, y) && CompletingAt(f, x) && CompletingAt(f, y)
    ensures !CompletingAt(f, y + 1)
  {
    AlwaysSafe(t, f, g, x);
    AlwaysSafe(t, f, g, y);
    hide Execution, Safe, Placed, Receive, Sending.Receive, CompleteDatagram, CompleteAckDatagram, GoodReport, AllReceived;
    hide ServerSafe, Fits, Configured, HistoryInv, Inv, StageAfter;
    SafeParts(t, f(x).sys);
    CompletingIsAcked(t, f(x).sys);
    DoneIsReceived(t, f(x).sys);
    CompleteConfirmed(t, f(x).sys.server, g(x).now, g(x).transferTimeUs);
    var u := Receive(f(x).sys.server, g(x).data, g(x).now, g(x).transferTimeUs).0;
    ConfirmationFinishes(t, f(y).sys, u.completed.value, g(y).at);
  }

  /** In every fair run the client finishes, and the file is then in place at the server. */
  lemma EveryFairRunFinishes(t: Transfer, f: nat -> Running, g: nat -> Action) returns (j: nat)
    requires Execution(t, f, g) && KeepsGoing(f, g) && NetworkFair(t, f, g) && CompletionFair(t, f, g)
    ensures Done(t, f(j))
  {
    hide Execution, KeepsGoing, NetworkFair, Safe;
    var i := EventuallyAcked(t, f, g, 0);
    var k := EventuallyLeaves(t, f, g, i);
    if CompletingForever(f, k) {
      assert ConfirmedAfter(t, f, g, k);
      var x: nat, y: nat :| k <= x < y && ConfirmedAt(t, f, g, x, y);
      hide ConfirmedAt;
      ConfirmationEnds(t, f, g, x, y);
    }
    j :| k <= j && !CompletingAt(f, j);
    StaysOut(t, f, g, k, j);
    AlwaysSafe(t, f, g, j);
    FinishedIsInPlace(t, f(j));
  }

  lemma FinishedIsInPlace(t: Transfer, r: Running)
    requires Safe(t, r.sys) && !r.sys.client.phase.Sending? && !r.sys.client.phase.Completing?
    ensures Done(t, r)
  {
    DoneIsReceived(t, r.sys);
    AllReceivedIsFile(t, r.sys.server);
  }

  // ----- fair runs exist

  /** The states of a finite run. */
  ghost function StateIn(t: Transfer, r: Running, actions: seq<Action>, to: Running, i: nat): Running
    requires RunsTo(t, r, actions, to) && i <= |actions|
    decreases i
  {
    if i == 0 then r
    else
      var mid: Running :| Takes(t, r, actions[0], mid) && RunsTo(t, mid, actions[1..], to);
      StateIn(t, mid, actions[1..], to, i - 1)
  }

  lemma {:induction false} StateInTakes(t: Transfer, r: Running, actions: seq<Action>, to: Running, i: nat)
    requires RunsTo(t, r, actions, to) && i < |actions|
    ensures Takes(t, StateIn(t, r, actions, to, i), actions[i], StateIn(t, r, actions, to, i + 1))
    decreases i
  {
    hide Takes;
    var mid: Running :| Takes(t, r, actions[0], mid) && RunsTo(t, mid, actions[1..], to)
                        && StateIn(t, r, actions, to, i + 1) == StateIn(t, mid, actions[1..], to, i)
                        && (i > 0 ==> StateIn(t, r, actions, to, i) == StateIn(t, mid, actions[1..], to, i - 1));
    if i > 0 {
      StateInTakes(t, mid, actions[1..], to, i - 1);
    }
  }

  lemma {:induction false} StateInEnd(t: Transfer, r: Running, actions: seq<Action>, to: Running)
    requires RunsTo(t, r, actions, to)
    ensures StateIn(t, r, actions, to, |actions|) == to
    decreases |actions|
  {
    hide Takes;
    if actions != [] {
      var mid: Running :| Takes(t, r, actions[0], mid) && RunsTo(t, mid, actions[1..], to)
                          && StateIn(t, r, actions, to, |actions|) == StateIn(t, mid, actions[1..], to, |actions| - 1);
      StateInEnd(t, mid, actions[1..], to);
    }
  }

  /** What is left of a run once nothing happens but that one datagram keeps coming. */
  ghost function Idle(t: Transfer, r: Running, d: seq<uint8>, n: nat): (u: Running)
    requires Safe(t, r.sys) && d in r.sys.toServer
    ensures Safe(t, u.sys) && d in u.sys.toServer && u.sys.client == r.sys.client && u.served == r.served
  {
    if n == 0 then r
    else
      var p := Idle(t, r, d, n - 1);
      IdleStep(t, p, d);
      p.(sys := Next(p.sys, ServerGets(d, p.served, 0)))
  }

  lemma IdleStep(t: Transfer, r: Running, d: seq<uint8>)
    requires Safe(t, r.sys) && d in r.sys.toServer
    ensures Sending.Ready(r.sys.client) && Configured(r.sys.server)
    ensures var u := r.(sys := Next(r.sys, ServerGets(d, r.served, 0)));
            && Takes(t, r, ServerGets(d, r.served, 0), u) && Safe(t, u.sys)
            && d in u.sys.toServer && u.sys.client == r.sys.client
  {
    hide Safe, Receive;
    SafeReady(t, r.sys);
    ServerGetsSafe(t, r.sys, d, r.served, 0);
  }

  lemma RunKeepsNetwork(t: Transfer, r: Running, actions: seq<Action>, to: Running)
    requires RunsTo(t, r, actions, to)
    ensures r.sys.toServer <= to.sys.toServer
    decreases |actions|
  {
    hide Takes;
    if actions != [] {
      var mid: Running :| Takes(t, r, actions[0], mid) && RunsTo(t, mid, actions[1..], to);
      NetworkGrows(t, r, actions[0], mid);
      RunKeepsNetwork(t, mid, actions[1..], to);
    }
  }

  lemma NetworkGrows(t: Transfer, r: Running, a: Action, u: Running)
    requires Takes(t, r, a, u)
    ensures r.sys.toServer <= u.sys.toServer
  {
    hide Safe, Receive, Sending.Receive, Sending.SendNext, Sending.TimeoutPass, CompleteDatagram;
    SafeReady(t, r.sys);
  }

  /** A finite run to the goal, and idling from there. */
  ghost predicate Ends(t: Transfer, r: Running, actions: seq<Action>, goal: Running, d: seq<uint8>) {
    && RunsTo(t, r, actions, goal)
    && Safe(t, goal.sys) && d in goal.sys.toServer
    && goal.sys.client.phase.Finished?
  }

  ghost function Whole(t: Transfer, r: Running, actions: seq<Action>, goal: Running, d: seq<uint8>, i: nat): Running
    requires Ends(t, r, actions, goal, d)
  {
    if i <= |actions| then StateIn(t, r, actions, goal, i) else Idle(t, goal, d, i - |actions|)
  }

  function WholeAction(actions: seq<Action>, served: int, d: seq<uint8>, i: nat): Action {
    if i < |actions| then actions[i] else ServerGets(d, served, 0)
  }

  lemma WholeIdles(t: Transfer, r: Running, actions: seq<Action>, goal: Running, d: seq<uint8>, i: nat)
    requires Ends(t, r, actions, goal, d) && |actions| <= i
    ensures Whole(t, r, actions, goal, d, i) == Idle(t, goal, d, i - |actions|)
    ensures Whole(t, r, actions, goal, d, i).sys.client.phase.Finished?
  {
    hide Safe, RunsTo, StateIn;
    StateInEnd(t, r, actions, goal);
  }

  lemma WholeTakes(t: Transfer, r: Running, actions: seq<Action>, goal: Running, d: seq<uint8>, i: nat)
    requires Ends(t, r, actions, goal, d)
    ensures Takes(t, Whole(t, r, actions, goal, d, i), WholeAction(actions, goal.served, d, i),
                  Whole(t, r, actions, goal, d, i + 1))
  {
    hide Safe, RunsTo, StateIn, Takes;
    if i < |actions| {
      StateInTakes(t, r, actions, goal, i);
    } else {
      WholeIdles(t, r, actions, goal, d, i);
      IdleStep(t, Idle(t, goal, d, i - |actions|), d);
    }
  }

  /** Every reachable state of the programs has a fair run from it: the hypotheses above can be met. */
  lemma FairRunExists(t: Transfer, r: Running, d: seq<uint8>) returns (f: nat -> Running, g: nat -> Action)
    requires Reachable(t, r.sys) && Placed(r) && d in r.sys.toServer
    ensures f(0) == r && Execution(t, f, g)
    ensures KeepsGoing(f, g) && NetworkFair(t, f, g) && CompletionFair(t, f, g)
  {
    hide Safe, Reachable, Takes, Placed, Whole, WholeAction, RunsTo, AnsweredAfter, ConfirmedAfter;
    ReachableSafe(t, r.sys);
    FinishAlwaysPossible(t, r);
    var actions: seq<Action>, goal: Running :| RunsTo(t, r, actions, goal) && Done(t, goal);
    ProgramRunsAreRuns(t, r, actions, goal);
    RunKeepsNetwork(t, r, actions, goal);
    assert Ends(t, r, actions, goal, d);
    hide Ends;
    f := (i: nat) => Whole(t, r, actions, goal, d, i);
    g := (i: nat) => WholeAction(actions, goal.served, d, i);
    WholeStarts(t, r, actions, goal, d);
    forall i: nat ensures Takes(t, f(i), g(i), f(i + 1)) {
      WholeTakes(t, r, actions, goal, d, i);
    }
    forall i: nat | |actions| <= i ensures !SendingAt(f, i) && !CompletingAt(f, i) {
      WholeIdles(t, r, actions, goal, d, i);
    }
    EndedIsFair(t, f, g, |actions|);
  }

  lemma WholeStarts(t: Transfer, r: Running, actions: seq<Action>, goal: Running, d: seq<uint8>)
    requires Ends(t, r, actions, goal, d)
    ensures Whole(t, r, actions, goal, d, 0) == r
  {
    hide Safe, Takes;
  }

  lemma EndedIsFair(t: Transfer, f: nat -> Running, g: nat -> Action, n: nat)
    requires forall i: nat | n <= i :: !SendingAt(f, i) && !CompletingAt(f, i)
    ensures KeepsGoing(f, g) && NetworkFair(t, f, g) && CompletionFair(t, f, g)
  {
    hide RetransmittedAfter, AnsweredAfter, ConfirmedAfter;
    forall i: nat, time: int ensures ChecksAfter(f, g, i, time) {
      assert !SendingAt(f, i + n);
    }
    forall s: nat, i: nat ensures !RetransmittedForever(f, g, s, i) {
      assert !SendingAt(f, i + n);
    }
    forall i: nat ensures !CompletingForever(f, i) {
      assert !CompletingAt(f, i + n);
    }
  }
}

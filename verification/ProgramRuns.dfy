/** The two programs as they run: where the client is in its loops, which action it can take from
    there, and server times that never go back.  Whatever has happened, such a run can still end the
    transfer. */
module ProgramRuns {
  import opened Bytes
  import opened Protocol
  import opened Datagrams
  import opened SenderModel
  import opened SenderInvariant
  import opened SenderProperties
  import opened SenderRuns
  import opened ServerModel
  import opened TransferSystem
  import opened TransferTheorems
  import opened Progress
  import Sending = ClientModel

  /** Where the client is (src/client.cpp:501-604): before the loop's guard; in the drain that opens
      a pass; between check_timeouts and select_next_packet; in the drain after a send; waiting for
      one ACK because there was nothing to send; before a COMPLETE, or at the end; waiting for one
      COMPLETE_ACK. */
  datatype Stage = AtGuard | Draining | Selecting | DrainingAgain | Waiting | Completing | Replying

  /** The guard comes next, maybe after more ACKs. */
  predicate BetweenPasses(s: Stage) { s.AtGuard? || s.DrainingAgain? || s.Waiting? }

  /** `served` is the time of the server's last datagram. */
  datatype Running = Running(sys: System, stage: Stage, served: int)

  /** What receive_expected returns on (src/client.cpp:326-334); it reads on past anything else. */
  predicate IsExpected(c: Sending.Client, data: seq<uint8>, kind: PacketType) {
    && DecodePacket(data).Decoded?
    && DecodePacket(data).packet.header.session == c.session
    && DecodePacket(data).packet.header.kind == kind
  }

  /** Where an action takes the client, if the program can take it there. */
  ghost function StageAfter(stage: Stage, c: Sending.Client, a: Action): Option<Stage>
    requires Sending.Ready(c)
  {
    match a
    case ServerGets(_, _, _) => Some(stage)
    case ClientStaysInLoop => if BetweenPasses(stage) then Some(Draining) else None
    case ClientLeavesLoop => if BetweenPasses(stage) then Some(Completing) else None
    case ClientTimesOut(_) => if stage.Draining? then Some(Selecting) else None
    case ClientSends(_) =>
      if !stage.Selecting? then None
      else Some(if Select(c.history.w).1.Some? then DrainingAgain else Waiting)
    case ClientGets(data, _) =>
      if stage.Draining? || stage.DrainingAgain? then Some(stage)
      else if stage.Waiting? then Some(if IsExpected(c, data, Ack) then AtGuard else Waiting)
      else if stage.Replying? then Some(if IsExpected(c, data, CompleteAck) then Completing else Replying)
      else None
    case ClientSendsComplete => if stage.Completing? || stage.Replying? then Some(Replying) else None
  }

  /** One step of the two programs. */
  ghost predicate Takes(t: Transfer, r: Running, a: Action, u: Running) {
    && Follows(t, r.sys, a, u.sys)
    && (SafeReady(t, r.sys); StageAfter(r.stage, r.sys.client, a) == Some(u.stage))
    && (if a.ServerGets? then r.served <= a.now == u.served else u.served == r.served)
  }

  ghost predicate RunsTo(t: Transfer, r: Running, actions: seq<Action>, to: Running)
    decreases |actions|
  {
    if actions == [] then r == to
    else exists mid: Running :: Takes(t, r, actions[0], mid) && RunsTo(t, mid, actions[1..], to)
  }

  lemma RunsStep(t: Transfer, r: Running, a: Action, mid: Running, actions: seq<Action>, to: Running)
    requires Takes(t, r, a, mid) && RunsTo(t, mid, actions, to)
    ensures RunsTo(t, r, [a] + actions, to)
  {
    hide Takes;
    assert ([a] + actions)[0] == a && ([a] + actions)[1..] == actions;
  }

  lemma {:induction false} RunsJoin(t: Transfer, r: Running, before: seq<Action>, mid: Running, after: seq<Action>, to: Running)
    requires RunsTo(t, r, before, mid) && RunsTo(t, mid, after, to)
    ensures RunsTo(t, r, before + after, to)
    decreases |before|
  {
    hide Takes;
    if before == [] {
      assert before + after == after;
    } else {
      var next: Running :| Takes(t, r, before[0], next) && RunsTo(t, next, before[1..], mid);
      RunsJoin(t, next, before[1..], mid, after, to);
      RunsStep(t, r, before[0], next, before[1..] + after, to);
      assert before + after == [before[0]] + (before[1..] + after);
    }
  }

  /** The stage fits the phase. */
  predicate Placed(r: Running) {
    if r.stage.Replying? then r.sys.client.phase.Completing?
    else if r.stage.Completing? then r.sys.client.phase.Completing? || r.sys.client.phase.Finished?
    else r.sys.client.phase.Sending?
  }

  lemma TakesPlaced(t: Transfer, r: Running, a: Action, u: Running)
    requires Takes(t, r, a, u) && Placed(r)
    ensures Safe(t, u.sys) && Placed(u)
  {
    hide Safe, DecodePacket, DecodeAck, DecodeCompleteAck, Bit, Step, Select, ServerSafe;
    SafeReady(t, r.sys);
    NextSafe(t, r.sys, a);
    NeverFailed(t, u.sys);
  }

  lemma NeverFailed(t: Transfer, sys: System)
    requires Safe(t, sys)
    ensures !sys.client.phase.Failed?
  {
  }

  /** A run of the programs is a run of the transfer system, and every stage it passes fits. */
  lemma {:induction false} ProgramRunsAreRuns(t: Transfer, r: Running, actions: seq<Action>, to: Running)
    requires Safe(t, r.sys) && Placed(r) && RunsTo(t, r, actions, to)
    ensures Via(t, r.sys, actions, to.sys) && Safe(t, to.sys) && Placed(to)
    decreases |actions|
  {
    hide Safe, Takes, Via, Follows, Placed;
    if actions == [] {
      ViaNothing(t, r.sys);
    } else {
      var mid: Running :| Takes(t, r, actions[0], mid) && RunsTo(t, mid, actions[1..], to);
      TakesPlaced(t, r, actions[0], mid);
      ProgramRunsAreRuns(t, mid, actions[1..], to);
      TakesFollows(t, r, actions[0], mid);
      ViaFollows(t, r.sys, actions[0], mid.sys, actions[1..], to.sys);
      assert actions == [actions[0]] + actions[1..];
    }
  }

  lemma TakesFollows(t: Transfer, r: Running, a: Action, u: Running)
    requires Takes(t, r, a, u)
    ensures Follows(t, r.sys, a, u.sys)
  {
  }

  // ----- completion

  ghost predicate Done(t: Transfer, r: Running) {
    r.sys.client.phase.Finished? && r.sys.server.output == t.file
  }

  /** Some continuation that the programs can take ends the transfer with the file in place. */
  ghost predicate CanFinish(t: Transfer, r: Running) {
    exists actions: seq<Action>, goal: Running :: RunsTo(t, r, actions, goal) && Done(t, goal)
  }

  lemma CanFinishVia(t: Transfer, r: Running, actions: seq<Action>, mid: Running)
    requires RunsTo(t, r, actions, mid) && CanFinish(t, mid)
    ensures CanFinish(t, r)
  {
    hide RunsTo, Done;
    var rest: seq<Action>, goal: Running :| RunsTo(t, mid, rest, goal) && Done(t, goal);
    RunsJoin(t, r, actions, mid, rest, goal);
  }

  lemma CanFinishAfter(t: Transfer, r: Running, a: Action, mid: Running)
    requires Takes(t, r, a, mid) && CanFinish(t, mid)
    ensures CanFinish(t, r)
  {
    hide Takes, CanFinish;
    assert RunsTo(t, mid, [], mid);
    RunsStep(t, r, a, mid, [], mid);
    CanFinishVia(t, r, [a] + [], mid);
  }

  lemma FinishedIsDone(t: Transfer, r: Running)
    requires Safe(t, r.sys) && r.sys.client.phase.Finished?
    ensures CanFinish(t, r)
  {
    DoneIsReceived(t, r.sys);
    AllReceivedIsFile(t, r.sys.server);
    hide Safe;
    assert RunsTo(t, r, [], r);
  }

  lemma CompleteSent(t: Transfer, r: Running) returns (a: Running)
    requires Safe(t, r.sys) && r.sys.client.phase.Completing? && (r.stage.Completing? || r.stage.Replying?)
    ensures Takes(t, r, ClientSendsComplete, a)
    ensures Safe(t, a.sys) && a.sys.client.phase.Completing? && a.stage.Replying?
    ensures AllReceived(a.sys.server.received)
    ensures CompleteDatagram(t.session, t.start.totalChunks) in a.sys.toServer
  {
    hide Safe, ServerSafe, CompleteDatagram, HistoryInv, Fits, AllReceived;
    SafeParts(t, r.sys);
    SendsCompleteSafe(t, r.sys);
    CompletingIsAcked(t, r.sys);
    DoneIsReceived(t, r.sys);
    a := Running(Next(r.sys, ClientSendsComplete), Replying, r.served);
    SafeSizes(t, r.sys);
  }

  lemma CompletingIsAcked(t: Transfer, sys: System)
    requires Safe(t, sys) && !sys.client.phase.Sending?
    ensures sys.client.history.w.base == sys.client.history.w.total
  {
  }

  lemma SafeSizes(t: Transfer, sys: System)
    requires Safe(t, sys)
    ensures sys.client.session == t.session && sys.client.history.w.total == t.start.totalChunks
  {
  }

  lemma CompleteAnswered(t: Transfer, a: Running) returns (b: Running, p: CompleteAckPayload)
    requires Safe(t, a.sys) && a.sys.client.phase.Completing? && a.stage.Replying? && AllReceived(a.sys.server.received)
    requires CompleteDatagram(t.session, t.start.totalChunks) in a.sys.toServer
    ensures Takes(t, a, ServerGets(CompleteDatagram(t.session, t.start.totalChunks), a.served, 0), b)
    ensures Safe(t, b.sys) && b.sys.client == a.sys.client && b.stage == a.stage && GoodReport(t, p)
    ensures CompleteAckDatagram(t.session, t.start.totalChunks, p) in b.sys.toClient
  {
    hide Safe, Receive, CompleteDatagram, CompleteAckDatagram, ServerSafe, Fits, Configured, HistoryInv, Inv, AllReceived;
    var complete := CompleteDatagram(t.session, t.start.totalChunks);
    SafeParts(t, a.sys);
    CompleteConfirmed(t, a.sys.server, a.served, 0);
    ServerGetsSafe(t, a.sys, complete, a.served, 0);
    b := a.(sys := Next(a.sys, ServerGets(complete, a.served, 0)));
    p := Receive(a.sys.server, complete, a.served, 0).0.completed.value;
  }

  lemma ConfirmationDelivered(t: Transfer, b: Running, p: CompleteAckPayload) returns (c: Running)
    requires Safe(t, b.sys) && b.sys.client.phase.Completing? && b.stage.Replying? && GoodReport(t, p)
    requires CompleteAckDatagram(t.session, t.start.totalChunks, p) in b.sys.toClient
    ensures var ack := CompleteAckDatagram(t.session, t.start.totalChunks, p);
            Takes(t, b, ClientGets(ack, b.sys.client.history.clock), c)
    ensures Safe(t, c.sys) && c.sys.client.phase.Finished?
  {
    hide Safe, Sending.Receive, CompleteAckDatagram, ServerSafe, Fits, Configured, HistoryInv, Inv, GoodReport, DecodePacket;
    var ack := CompleteAckDatagram(t.session, t.start.totalChunks, p);
    SafeParts(t, b.sys);
    CompleteAckCarries(t.session, t.start.totalChunks, p);
    ConfirmationFinishes(t, b.sys, p, b.sys.client.history.clock);
    ClientGetsSafe(t, b.sys, ack, b.sys.client.history.clock);
    c := Running(Next(b.sys, ClientGets(ack, b.sys.client.history.clock)), Completing, b.served);
  }

  /** COMPLETE, its delivery, and the delivery of the confirmation end the transfer. */
  lemma CompletingFinishes(t: Transfer, r: Running)
    requires Safe(t, r.sys) && r.sys.client.phase.Completing? && (r.stage.Completing? || r.stage.Replying?)
    ensures CanFinish(t, r)
  {
    hide Safe, Takes, CanFinish, CompleteDatagram, CompleteAckDatagram, GoodReport, AllReceived;
    var a := CompleteSent(t, r);
    var b, p := CompleteAnswered(t, a);
    var c := ConfirmationDelivered(t, b, p);
    FinishedIsDone(t, c);
    var ack := CompleteAckDatagram(t.session, t.start.totalChunks, p);
    CanFinishAfter(t, b, ClientGets(ack, b.sys.client.history.clock), c);
    CanFinishAfter(t, a, ServerGets(CompleteDatagram(t.session, t.start.totalChunks), a.served, 0), b);
    CanFinishAfter(t, r, ClientSendsComplete, a);
  }

  // ----- sending

  /** A timeout check that is late enough for the base always leaves something to send. */
  lemma LateCheckSelects(w: Window, at: int)
    requires Inv(w) && w.base < w.total && at - w.chunks[w.base].lastSent >= DEFAULT_RTO
    ensures Inv(CheckTimeouts(w, at, DEFAULT_RTO)) && Select(CheckTimeouts(w, at, DEFAULT_RTO)).1.Some?
  {
    CheckTimeoutsInv(w, at, DEFAULT_RTO);
    var u := CheckTimeouts(w, at, DEFAULT_RTO);
    InvShape(u);
    hide Inv, Select, TimeoutQueue;
    if Select(u).1.None? {
      BlockedOnBase(u);
    }
  }

  lemma NewChunkSent(t: Transfer, sys: System) returns (a: System)
    requires Safe(t, sys) && sys.client.phase.Sending?
    requires var d := Select(sys.client.history.w).1; d.Some? && !d.value.retransmission
    ensures Follows(t, sys, ClientSends(sys.client.history.clock), a)
    ensures Safe(t, a) && a.client.phase.Sending?
    ensures AckedSet(a.client.history.w) == AckedSet(sys.client.history.w)
    ensures sys.client.history.w.next < a.client.history.w.next <= t.start.totalChunks
  {
    hide Safe, ServerSafe, Fits, Configured, HistoryInv, Inv, FromClient, FromServer;
    var w := sys.client.history.w;
    SafeParts(t, sys);
    InvShape(w);
    TransmitDecision(w);
    TransmitKeepsStates(w, sys.client.history.clock);
    hide CountAcked, Shape, DropStale, Taken, CanSendNew;
    SendsSafe(t, sys, sys.client.history.clock);
    a := Next(sys, ClientSends(sys.client.history.clock));
    SafeParts(t, a);
    InvShape(a.client.history.w);
  }

  /** Fewer chunks to wait for, or as many and more of them selected. */
  ghost predicate Nearer(t: Transfer, r: Running, u: Running) {
    var w, v := r.sys.client.history.w, u.sys.client.history.w;
    && v.next <= t.start.totalChunks
    && (|Unacked(v)| < |Unacked(w)| || (|Unacked(v)| == |Unacked(w)| && w.next < v.next))
  }

  /** A selection that yields a chunk brings the end nearer: a new chunk at once, a retransmission
      with its delivery and the ACK. */
  lemma SelectionAdvances(t: Transfer, r: Running) returns (actions: seq<Action>, u: Running)
    requires Safe(t, r.sys) && r.sys.client.phase.Sending? && r.stage.Selecting?
    requires Inv(r.sys.client.history.w) && Select(r.sys.client.history.w).1.Some?
    ensures RunsTo(t, r, actions, u) && Nearer(t, r, u)
    ensures Safe(t, u.sys) && u.sys.client.phase.Sending? && u.stage.DrainingAgain?
  {
    hide Safe, RunsTo, Takes, Select, Inv, Nearer;
    var w := r.sys.client.history.w;
    InvShape(w);
    var d := Select(w).1.value;
    if d.retransmission {
      assert Retransmits(w, d.sequence);
      actions, u := RetransmissionAdvances(t, r, d.sequence);
    } else {
      u := NewChunkAdvances(t, r);
      actions := [ClientSends(r.sys.client.history.clock)];
      OneStep(t, r, actions[0], u);
    }
  }

  lemma NewChunkAdvances(t: Transfer, r: Running) returns (u: Running)
    requires Safe(t, r.sys) && r.sys.client.phase.Sending? && r.stage.Selecting?
    requires Inv(r.sys.client.history.w)
    requires var d := Select(r.sys.client.history.w).1; d.Some? && !d.value.retransmission
    ensures Takes(t, r, ClientSends(r.sys.client.history.clock), u) && Nearer(t, r, u)
    ensures Safe(t, u.sys) && u.sys.client.phase.Sending? && u.stage.DrainingAgain?
  {
    hide Safe, Select, Unacked, AckedSet, ServerSafe, Fits, Configured, HistoryInv, Inv, Follows;
    SafeParts(t, r.sys);
    var a := NewChunkSent(t, r.sys);
    u := r.(sys := a, stage := DrainingAgain);
    SafeParts(t, a);
    SameUnacked(r.sys.client.history.w, a.client.history.w);
  }

  lemma RetransmissionAdvances(t: Transfer, r: Running, s: nat) returns (actions: seq<Action>, u: Running)
    requires Safe(t, r.sys) && r.sys.client.phase.Sending? && r.stage.Selecting?
    requires Retransmits(r.sys.client.history.w, s)
    ensures RunsTo(t, r, actions, u) && Nearer(t, r, u)
    ensures Safe(t, u.sys) && u.sys.client.phase.Sending? && u.stage.DrainingAgain?
  {
    hide Safe, RunsTo, Unacked, AckedSet, ChunkPacket, CurrentAck;
    hide ServerSafe, Fits, Configured, HistoryInv, Inv, Follows;
    var now := r.sys.client.history.clock;
    SafeParts(t, r.sys);
    var a, b, after := RoundStates(t, r.sys, s, now, r.served, 0, now);
    actions := RoundActions(t, s, r.sys.server, now, r.served, 0, now);
    var ra, rb := Running(a, DrainingAgain, r.served), Running(b, DrainingAgain, r.served);
    u := Running(after, DrainingAgain, r.served);
    FollowsSafe(t, r.sys, actions[0], a);
    FollowsSafe(t, a, actions[1], b);
    assert Takes(t, r, actions[0], ra) && Takes(t, ra, actions[1], rb) && Takes(t, rb, actions[2], u);
    hide Takes;
    OneStep(t, rb, actions[2], u);
    RunsStep(t, ra, actions[1], rb, [actions[2]], u);
    RunsStep(t, r, actions[0], ra, [actions[1]] + [actions[2]], u);
    assert actions == [actions[0]] + ([actions[1]] + [actions[2]]);
    SafeParts(t, after);
    SafeNext(t, after);
    assert AckedSet(r.sys.client.history.w) < AckedSet(after.client.history.w);
    UnackedShrinks(r.sys.client.history.w, after.client.history.w);
  }

  lemma FollowsSafe(t: Transfer, sys: System, a: Action, to: System)
    requires Follows(t, sys, a, to)
    ensures Safe(t, to) && Sending.Ready(to.client)
  {
    hide Safe, Enabled, Next;
    NextSafe(t, sys, a);
    SafeReady(t, to);
  }

  lemma SafeNext(t: Transfer, sys: System)
    requires Safe(t, sys)
    ensures sys.client.history.w.next <= t.start.totalChunks
  {
  }

  lemma OneStep(t: Transfer, r: Running, a: Action, u: Running)
    requires Takes(t, r, a, u)
    ensures RunsTo(t, r, [a], u)
  {
    hide Takes;
    assert RunsTo(t, u, [], u);
    RunsStep(t, r, a, u, [], u);
    assert [a] + [] == [a];
  }

  /** From the guard on: stay in the loop, and check timeouts late enough. */
  lemma NextPass(t: Transfer, r: Running) returns (actions: seq<Action>, u: Running)
    requires Safe(t, r.sys) && r.sys.client.phase.Sending? && BetweenPasses(r.stage)
    requires r.sys.client.history.w.base < r.sys.client.history.w.total
    ensures RunsTo(t, r, actions, u) && Safe(t, u.sys) && u.sys.client.phase.Sending? && u.stage.Selecting?
    ensures Sending.Ready(u.sys.client) && Select(u.sys.client.history.w).1.Some?
    ensures AckedSet(u.sys.client.history.w) == AckedSet(r.sys.client.history.w)
    ensures u.sys.client.history.w.next == r.sys.client.history.w.next
  {
    var w := r.sys.client.history.w;
    hide Safe, RunsTo, Select, ServerSafe, Fits, Configured, HistoryInv, Inv, AckedSet;
    SafeParts(t, r.sys);
    var at := Max(r.sys.client.history.clock, w.chunks[w.base].lastSent + DEFAULT_RTO);
    var a := r.(stage := Draining);
    assert Takes(t, r, ClientStaysInLoop, a);
    LateCheckSelects(w, at);
    u := TimeoutTaken(t, a, at);
    OneStep(t, a, ClientTimesOut(at), u);
    actions := [ClientStaysInLoop] + [ClientTimesOut(at)];
    RunsStep(t, r, ClientStaysInLoop, a, [ClientTimesOut(at)], u);
    SafeReady(t, u.sys);
  }

  lemma TimeoutTaken(t: Transfer, r: Running, at: int) returns (u: Running)
    requires Safe(t, r.sys) && r.sys.client.phase.Sending? && r.stage.Draining? && r.sys.client.history.clock <= at
    ensures Inv(r.sys.client.history.w)
    ensures Takes(t, r, ClientTimesOut(at), u) && Safe(t, u.sys) && u.sys.client.phase.Sending? && u.stage.Selecting?
    ensures u.sys.client.history.w == CheckTimeouts(r.sys.client.history.w, at, DEFAULT_RTO)
    ensures AckedSet(u.sys.client.history.w) == AckedSet(r.sys.client.history.w)
    ensures u.sys.client.history.w.next == r.sys.client.history.w.next
  {
    hide Safe, ServerSafe, Fits, Configured, HistoryInv, Inv, AckedSet;
    SafeParts(t, r.sys);
    TimesOutSafe(t, r.sys, at);
    u := Running(Next(r.sys, ClientTimesOut(at)), Selecting, r.served);
    TimeoutKeepsAcked(r.sys.client.history.w, r.sys.client.history.w, at);
  }

  /** A selection that yields nothing leaves the client waiting, with nothing else changed. */
  lemma NothingSelected(t: Transfer, r: Running) returns (u: Running)
    requires Safe(t, r.sys) && r.sys.client.phase.Sending? && r.stage.Selecting?
    requires Sending.Ready(r.sys.client) && Select(r.sys.client.history.w).1.None?
    ensures Takes(t, r, ClientSends(r.sys.client.history.clock), u)
    ensures Safe(t, u.sys) && u.sys.client.phase.Sending? && u.stage.Waiting?
    ensures AckedSet(u.sys.client.history.w) == AckedSet(r.sys.client.history.w)
    ensures u.sys.client.history.w.next == r.sys.client.history.w.next
  {
    hide Safe, ServerSafe, Fits, Configured, HistoryInv, Inv;
    SafeParts(t, r.sys);
    SendsSafe(t, r.sys, r.sys.client.history.clock);
    u := Running(Next(r.sys, ClientSends(r.sys.client.history.clock)), Waiting, r.served);
  }

  lemma LoopLeft(t: Transfer, r: Running) returns (u: Running)
    requires Safe(t, r.sys) && r.sys.client.phase.Sending? && BetweenPasses(r.stage)
    requires r.sys.client.history.w.base == r.sys.client.history.w.total
    ensures Takes(t, r, ClientLeavesLoop, u)
    ensures Safe(t, u.sys) && u.sys.client.phase.Completing? && u.stage.Completing?
  {
    SafeReady(t, r.sys);
    LeavesSafe(t, r.sys);
    u := Running(Next(r.sys, ClientLeavesLoop), Completing, r.served);
    hide Safe;
  }

  /** Induction on the chunks that are missing, and then on those not yet selected: each pass brings
      the end nearer. */
  lemma {:induction false} SelectionFinishes(t: Transfer, r: Running)
    requires Safe(t, r.sys) && r.sys.client.phase.Sending? && r.stage.Selecting?
    requires Inv(r.sys.client.history.w) && Select(r.sys.client.history.w).1.Some?
    requires r.sys.client.history.w.next <= t.start.totalChunks
    ensures CanFinish(t, r)
    decreases |Unacked(r.sys.client.history.w)|, t.start.totalChunks - r.sys.client.history.w.next
  {
    hide Safe, RunsTo, CanFinish, ServerSafe, Fits, Configured, HistoryInv, Inv, Select, AckedSet, Unacked;
    var actions, u := SelectionAdvances(t, r);
    SafeParts(t, u.sys);
    if u.sys.client.history.w.base == u.sys.client.history.w.total {
      LeavingFinishes(t, u);
    } else {
      var pass, s := NextPass(t, u);
      SafeParts(t, s.sys);
      SameUnacked(u.sys.client.history.w, s.sys.client.history.w);
      SelectionFinishes(t, s);
      CanFinishVia(t, u, pass, s);
    }
    CanFinishVia(t, r, actions, u);
  }

  lemma LeavingFinishes(t: Transfer, r: Running)
    requires Safe(t, r.sys) && r.sys.client.phase.Sending? && BetweenPasses(r.stage)
    requires r.sys.client.history.w.base == r.sys.client.history.w.total
    ensures CanFinish(t, r)
  {
    hide Safe, Takes, CanFinish;
    var u := LoopLeft(t, r);
    CompletingFinishes(t, u);
    CanFinishAfter(t, r, ClientLeavesLoop, u);
  }

  lemma GuardFinishes(t: Transfer, r: Running)
    requires Safe(t, r.sys) && r.sys.client.phase.Sending? && BetweenPasses(r.stage)
    ensures CanFinish(t, r)
  {
    hide Safe, Takes, RunsTo, CanFinish, ServerSafe, Fits, Configured, HistoryInv, Inv, Select, AckedSet;
    SafeParts(t, r.sys);
    BaseWithin(r.sys.client.history.w);
    if r.sys.client.history.w.base == r.sys.client.history.w.total {
      LeavingFinishes(t, r);
    } else {
      var pass, s := NextPass(t, r);
      SafeParts(t, s.sys);
      SafeNext(t, s.sys);
      SelectionFinishes(t, s);
      CanFinishVia(t, r, pass, s);
    }
  }

  lemma BaseWithin(w: Window)
    requires Inv(w)
    ensures w.base <= w.total
  {
  }

  lemma SelectingFinishes(t: Transfer, r: Running)
    requires Safe(t, r.sys) && r.sys.client.phase.Sending? && r.stage.Selecting?
    ensures CanFinish(t, r)
  {
    hide Safe, Takes, CanFinish, ServerSafe, Fits, Configured, HistoryInv, Inv, Select;
    SafeParts(t, r.sys);
    SafeNext(t, r.sys);
    InvShape(r.sys.client.history.w);
    if Select(r.sys.client.history.w).1.Some? {
      SelectionFinishes(t, r);
    } else {
      var u := NothingSelected(t, r);
      GuardFinishes(t, u);
      CanFinishAfter(t, r, ClientSends(r.sys.client.history.clock), u);
    }
  }

  lemma DrainingFinishes(t: Transfer, r: Running)
    requires Safe(t, r.sys) && r.sys.client.phase.Sending? && r.stage.Draining?
    ensures CanFinish(t, r)
  {
    hide Safe, Takes, CanFinish;
    var u := TimeoutTaken(t, r, r.sys.client.history.clock);
    SelectingFinishes(t, u);
    CanFinishAfter(t, r, ClientTimesOut(r.sys.client.history.clock), u);
  }

  /** In every reachable state, wherever the client is in its loops and whatever the server's clock
      says, the two programs can still finish the transfer with the file in place. */
  lemma FinishAlwaysPossible(t: Transfer, r: Running)
    requires Reachable(t, r.sys) && Placed(r)
    ensures CanFinish(t, r)
  {
    ReachableSafe(t, r.sys);
    hide Safe, Reachable, CanFinish;
    match r.sys.client.phase
    case Sending =>
      if r.stage.Draining? {
        DrainingFinishes(t, r);
      } else if r.stage.Selecting? {
        SelectingFinishes(t, r);
      } else {
        GuardFinishes(t, r);
      }
    case Completing => CompletingFinishes(t, r);
    case Finished => FinishedIsDone(t, r);
    case Failed =>
  }
}

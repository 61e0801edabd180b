/** The client's loop among the steps of the server: what the client does depends on nothing but the
    datagrams it reads, so its actions can be interleaved with server steps at will, and whatever is
    interleaved, a pass leaves the client as `ClientModel.Pass` does. */
module LoopRuns {
  import opened Bytes
  import opened Protocol
  import opened Datagrams
  import opened SenderModel
  import opened SenderInvariant
  import opened SenderRuns
  import opened ServerModel
  import opened TransferSystem
  import opened ProgramRuns
  import Sending = ClientModel

  // ----- the client on its own

  /** The client's part of `Enabled`. */
  ghost predicate ClientCan(c: Sending.Client, a: Action) {
    match a
    case ClientSends(at) => c.phase.Sending? && c.history.clock <= at
    case ClientTimesOut(at) => c.phase.Sending? && c.history.clock <= at
    case ClientGets(_, at) => c.history.clock <= at
    case ClientStaysInLoop => c.phase.Sending? && c.history.w.base != c.history.w.total
    case ClientLeavesLoop => c.phase.Sending? && c.history.w.base == c.history.w.total
    case ClientSendsComplete => c.phase.Completing?
    case ServerGets(_, _, _) => false
  }

  /** The client's part of `Next`: its state, and what it sends. */
  ghost function ClientStep(c: Sending.Client, a: Action): (r: (Sending.Client, Option<seq<uint8>>))
    requires Sending.Ready(c)
    ensures Sending.Ready(r.0)
  {
    match a
    case ClientSends(at) =>
      Sending.StepReady(c, Transmission(at));
      Sending.SendNext(c, at)
    case ClientTimesOut(at) =>
      Sending.StepReady(c, TimeoutCheck(at));
      (Sending.TimeoutPass(c, at), None)
    case ClientGets(data, at) =>
      Sending.ReceiveReady(c, data, at);
      (Sending.Receive(c, data, at), None)
    case ClientLeavesLoop => (c.(phase := Sending.Completing), None)
    case ClientSendsComplete => (c, Some(CompleteDatagram(c.session, c.history.w.total)))
    case _ => (c, None)
  }

  lemma StepOfClient(sys: System, a: Action)
    requires Sending.Ready(sys.client) && Configured(sys.server) && !a.ServerGets?
    ensures var (c, d) := ClientStep(sys.client, a); Next(sys, a) == sys.(client := c, toServer := Post(sys.toServer, d))
    ensures Enabled(sys, a) <==> ClientCan(sys.client, a) && (a.ClientGets? ==> a.data in sys.toClient)
  {
    hide Sending.SendNext, Sending.Receive, Sending.TimeoutPass, Sending.Ready, CompleteDatagram;
  }

  lemma StepOfServer(sys: System, a: Action)
    requires Sending.Ready(sys.client) && Configured(sys.server) && a.ServerGets?
    ensures Next(sys, a).client == sys.client && Next(sys, a).toServer == sys.toServer
    ensures Enabled(sys, a) <==> a.data in sys.toServer
  {
    hide Receive, Sending.Ready;
  }

  /** What the program can do from a stage on its own, given what it reads. */
  ghost predicate Legal(stage: Stage, c: Sending.Client, actions: seq<Action>)
    requires Sending.Ready(c)
    decreases |actions|
  {
    actions == [] ||
    (&& ClientCan(c, actions[0])
     && StageAfter(stage, c, actions[0]).Some?
     && Legal(StageAfter(stage, c, actions[0]).value, ClientStep(c, actions[0]).0, actions[1..]))
  }

  ghost function ClientEnd(c: Sending.Client, actions: seq<Action>): (r: Sending.Client)
    requires Sending.Ready(c)
    ensures Sending.Ready(r)
    decreases |actions|
  {
    if actions == [] then c else ClientEnd(ClientStep(c, actions[0]).0, actions[1..])
  }

  ghost function StageEnd(stage: Stage, c: Sending.Client, actions: seq<Action>): Stage
    requires Sending.Ready(c) && Legal(stage, c, actions)
    decreases |actions|
  {
    if actions == [] then stage
    else StageEnd(StageAfter(stage, c, actions[0]).value, ClientStep(c, actions[0]).0, actions[1..])
  }

  /** Everything the client sends. */
  ghost function Sent(c: Sending.Client, actions: seq<Action>): set<seq<uint8>>
    requires Sending.Ready(c)
    decreases |actions|
  {
    if actions == [] then {}
    else Post(Sent(ClientStep(c, actions[0]).0, actions[1..]), ClientStep(c, actions[0]).1)
  }

  // ----- interleaving

  function ClientPart(actions: seq<Action>): seq<Action>
    decreases |actions|
  {
    if actions == [] then []
    else if actions[0].ServerGets? then ClientPart(actions[1..])
    else [actions[0]] + ClientPart(actions[1..])
  }

  /** All that the network and the server's clock have to do with it: every datagram is in the
      network, as it has grown by then, when it is read, and the server's times do not go back. */
  ghost predicate Delivered(t: Transfer, sys: System, served: int, actions: seq<Action>)
    requires Safe(t, sys)
    decreases |actions|
  {
    actions != [] ==>
      var a := actions[0];
      && (a.ServerGets? ==> a.data in sys.toServer && served <= a.now)
      && (a.ClientGets? ==> a.data in sys.toClient)
      && (Enabled(sys, a) ==>
            (NextSafe(t, sys, a); Delivered(t, Next(sys, a), if a.ServerGets? then a.now else served, actions[1..])))
  }

  ghost predicate Joins(r: Running, clientActions: seq<Action>, to: Running)
    requires Sending.Ready(r.sys.client) && Legal(r.stage, r.sys.client, clientActions)
  {
    && to.sys.client == ClientEnd(r.sys.client, clientActions)
    && to.stage == StageEnd(r.stage, r.sys.client, clientActions)
    && to.sys.toServer == r.sys.toServer + Sent(r.sys.client, clientActions)
  }

  lemma ServerJoins(t: Transfer, r: Running, a: Action, mid: Running, clientActions: seq<Action>, to: Running)
    requires Takes(t, r, a, mid) && a.ServerGets?
    ensures Sending.Ready(r.sys.client) && Sending.Ready(mid.sys.client)
    ensures mid.sys.client == r.sys.client && mid.stage == r.stage
    ensures Legal(r.stage, r.sys.client, clientActions) ==> (Joins(mid, clientActions, to) <==> Joins(r, clientActions, to))
  {
    hide Safe, Enabled, Next, Legal, ClientEnd, StageEnd, Sent;
    SafeReady(t, r.sys);
    StepOfServer(r.sys, a);
  }

  lemma ClientJoins(t: Transfer, r: Running, a: Action, mid: Running, rest: seq<Action>, to: Running)
    requires Takes(t, r, a, mid) && !a.ServerGets?
    ensures Sending.Ready(r.sys.client) && Sending.Ready(mid.sys.client)
    ensures Legal(mid.stage, mid.sys.client, rest) <==> Legal(r.stage, r.sys.client, [a] + rest)
    ensures Legal(mid.stage, mid.sys.client, rest) && Joins(mid, rest, to) ==> Joins(r, [a] + rest, to)
  {
    hide Safe, Enabled, Next, StageAfter, ClientStep, ClientCan;
    SafeReady(t, r.sys);
    StepOfClient(r.sys, a);
    assert ([a] + rest)[0] == a && ([a] + rest)[1..] == rest;
  }

  /** The two programs do not depend on each other's pace: what the client can do on its own,
      interleaved with server steps in any way in which every datagram is there when it is read, is
      a run of both, and its effect on the client is the same. */
  lemma {:induction false} Interleaved(t: Transfer, r: Running, actions: seq<Action>) returns (to: Running)
    requires Safe(t, r.sys) && Delivered(t, r.sys, r.served, actions)
    requires (SafeReady(t, r.sys); Legal(r.stage, r.sys.client, ClientPart(actions)))
    ensures Sending.Ready(r.sys.client)
    ensures RunsTo(t, r, actions, to) && Joins(r, ClientPart(actions), to)
    decreases |actions|
  {
    hide Safe, Enabled, Next, Joins, Takes, RunsTo;
    SafeReady(t, r.sys);
    if actions == [] {
      to := r;
      NothingJoins(t, r);
    } else {
      var a := actions[0];
      var mid := Taken(t, r, a, ClientPart(actions));
      TakesFollows(t, r, a, mid);
      if a.ServerGets? {
        ServerJoins(t, r, a, mid, ClientPart(actions), r);
        to := Interleaved(t, mid, actions[1..]);
        ServerJoins(t, r, a, mid, ClientPart(actions), to);
      } else {
        ClientJoins(t, r, a, mid, ClientPart(actions[1..]), r);
        to := Interleaved(t, mid, actions[1..]);
        ClientJoins(t, r, a, mid, ClientPart(actions[1..]), to);
      }
      RunsStep(t, r, a, mid, actions[1..], to);
      assert [a] + actions[1..] == actions;
    }
  }

  lemma NothingJoins(t: Transfer, r: Running)
    requires Sending.Ready(r.sys.client)
    ensures RunsTo(t, r, [], r) && Legal(r.stage, r.sys.client, []) && Joins(r, [], r)
  {
  }

  lemma Taken(t: Transfer, r: Running, a: Action, clientActions: seq<Action>) returns (mid: Running)
    requires Safe(t, r.sys)
    requires a.ServerGets? ==> a.data in r.sys.toServer && r.served <= a.now
    requires a.ClientGets? ==> a.data in r.sys.toClient
    requires (SafeReady(t, r.sys); Legal(r.stage, r.sys.client, clientActions))
    requires !a.ServerGets? ==> clientActions != [] && clientActions[0] == a
    ensures Takes(t, r, a, mid) && Safe(t, mid.sys)
    ensures Enabled(r.sys, a) && (SafeReady(t, r.sys); mid.sys == Next(r.sys, a))
    ensures mid.served == if a.ServerGets? then a.now else r.served
  {
    hide Safe, Enabled, Next, ClientStep, ClientCan;
    SafeReady(t, r.sys);
    if a.ServerGets? {
      StepOfServer(r.sys, a);
    } else {
      StepOfClient(r.sys, a);
    }
    NextSafe(t, r.sys, a);
    mid := Running(Next(r.sys, a), StageAfter(r.stage, r.sys.client, a).value, if a.ServerGets? then a.now else r.served);
  }

  /** And every run of both is such an interleaving. */
  lemma {:induction false} RunIsInterleaved(t: Transfer, r: Running, actions: seq<Action>, to: Running)
    requires Safe(t, r.sys) && RunsTo(t, r, actions, to)
    ensures Sending.Ready(r.sys.client)
    ensures Legal(r.stage, r.sys.client, ClientPart(actions)) && Joins(r, ClientPart(actions), to)
    decreases |actions|
  {
    hide Safe, Enabled, Next, Joins, Takes, Legal;
    SafeReady(t, r.sys);
    if actions == [] {
      NothingJoins(t, r);
    } else {
      var a := actions[0];
      var mid: Running :| Takes(t, r, a, mid) && RunsTo(t, mid, actions[1..], to);
      TakesFollows(t, r, a, mid);
      FollowsSafe(t, r.sys, a, mid.sys);
      RunIsInterleaved(t, mid, actions[1..], to);
      if a.ServerGets? {
        ServerJoins(t, r, a, mid, ClientPart(actions), to);
      } else {
        ClientJoins(t, r, a, mid, ClientPart(actions[1..]), to);
      }
    }
  }

  // ----- one pass of the sending loop

  function Deliveries(arrivals: seq<Sending.Arrival>): seq<Action>
    decreases |arrivals|
  {
    if arrivals == [] then []
    else [ClientGets(arrivals[0].data, arrivals[0].at)] + Deliveries(arrivals[1..])
  }

  function PassActions(p: Sending.PassInput, sent: bool): seq<Action> {
    Deliveries(p.before) + ([ClientTimesOut(p.timeoutAt), ClientSends(p.sentAt)] + Deliveries(Read(p, sent)))
  }

  /** What is read after the selection: everything waiting if a packet was sent, and otherwise at
      most one datagram. */
  function Read(p: Sending.PassInput, sent: bool): seq<Sending.Arrival> {
    if sent then p.after else if p.waited.Some? then [p.waited.value] else []
  }

  lemma {:induction false} LegalJoin(stage: Stage, c: Sending.Client, xs: seq<Action>, ys: seq<Action>)
    requires Sending.Ready(c) && Legal(stage, c, xs)
    requires Legal(StageEnd(stage, c, xs), ClientEnd(c, xs), ys)
    ensures Legal(stage, c, xs + ys)
    ensures ClientEnd(c, xs + ys) == ClientEnd(ClientEnd(c, xs), ys)
    ensures StageEnd(stage, c, xs + ys) == StageEnd(StageEnd(stage, c, xs), ClientEnd(c, xs), ys)
    ensures Sent(c, xs + ys) == Sent(c, xs) + Sent(ClientEnd(c, xs), ys)
    decreases |xs|
  {
    hide ClientCan, StageAfter, ClientStep, Sending.Ready;
    if xs == [] {
      assert xs + ys == ys;
    } else {
      LegalJoin(StageAfter(stage, c, xs[0]).value, ClientStep(c, xs[0]).0, xs[1..], ys);
      assert (xs + ys)[0] == xs[0] && (xs + ys)[1..] == xs[1..] + ys;
    }
  }

  lemma OneLegal(stage: Stage, c: Sending.Client, a: Action)
    requires Sending.Ready(c) && ClientCan(c, a) && StageAfter(stage, c, a).Some?
    ensures Legal(stage, c, [a]) && StageEnd(stage, c, [a]) == StageAfter(stage, c, a).value
    ensures ClientEnd(c, [a]) == ClientStep(c, a).0 && Sent(c, [a]) == Post({}, ClientStep(c, a).1)
  {
    hide ClientCan, StageAfter, ClientStep, Sending.Ready;
    assert [a][1..] == [];
  }

  lemma ReceiveClock(c: Sending.Client, data: seq<uint8>, at: int)
    requires Sending.Ready(c) && c.history.clock <= at
    ensures Sending.Receive(c, data, at).history.clock <= at
    ensures c.phase.Sending? ==> Sending.Receive(c, data, at).phase.Sending?
    ensures c.phase.Sending? && !IsExpected(c, data, Ack) ==> Sending.Receive(c, data, at) == c
  {
    hide DecodePacket, DecodeAck, DecodeCompleteAck, Bit, SenderModel.ProcessAck;
  }

  lemma {:induction false} DrainLegal(stage: Stage, c: Sending.Client, arrivals: seq<Sending.Arrival>)
    requires Sending.Ready(c) && c.phase.Sending? && (stage.Draining? || stage.DrainingAgain?)
    requires Sending.InOrder(c.history.clock, arrivals)
    ensures Legal(stage, c, Deliveries(arrivals)) && StageEnd(stage, c, Deliveries(arrivals)) == stage
    ensures ClientEnd(c, Deliveries(arrivals)) == Sending.Drain(c, arrivals) && Sent(c, Deliveries(arrivals)) == {}
    ensures var d := Sending.Drain(c, arrivals);
            d.phase.Sending? && d.history.clock <= Sending.Until(c.history.clock, arrivals)
    decreases |arrivals|
  {
    hide Sending.Receive, Sending.Ready;
    if arrivals != [] {
      var a := arrivals[0];
      Sending.ReceiveReady(c, a.data, a.at);
      ReceiveClock(c, a.data, a.at);
      var d := Sending.Receive(c, a.data, a.at);
      Sending.InOrderSooner(d.history.clock, a.at, arrivals[1..]);
      OneLegal(stage, c, ClientGets(a.data, a.at));
      hide Legal, ClientEnd, StageEnd, Sent;
      DrainLegal(stage, d, arrivals[1..]);
      LegalJoin(stage, c, [ClientGets(a.data, a.at)], Deliveries(arrivals[1..]));
    }
  }

  lemma StepsReady(c: Sending.Client, at: int)
    requires Sending.Ready(c)
    ensures Sending.Ready(Sending.TimeoutPass(c, at)) && Sending.Ready(Sending.SendNext(c, at).0)
    ensures Sending.TimeoutPass(c, at).history.clock == at && Sending.SendNext(c, at).0.history.clock == at
    ensures Sending.TimeoutPass(c, at).phase == c.phase && Sending.SendNext(c, at).0.phase == c.phase
    ensures Sending.SendNext(c, at).1.Some? <==> Select(c.history.w).1.Some?
  {
    hide CheckTimeouts, Select, Transmit, Sending.ChunkDatagram;
    Sending.StepReady(c, TimeoutCheck(at));
    Sending.StepReady(c, Transmission(at));
    TransmitSelects(c.history.w, at);
  }

  lemma TransmitSelects(w: Window, at: int)
    requires Shape(w)
    ensures Transmit(w, at).1 == Select(w).1
  {
  }

  /** The check and the selection. */
  lemma SelectionLegal(c: Sending.Client, timeoutAt: int, sentAt: int)
    requires Sending.Ready(c) && c.phase.Sending? && c.history.clock <= timeoutAt <= sentAt
    ensures Sending.Ready(Sending.TimeoutPass(c, timeoutAt))
    ensures var actions := [ClientTimesOut(timeoutAt), ClientSends(sentAt)];
            var (d, sent) := Sending.SendNext(Sending.TimeoutPass(c, timeoutAt), sentAt);
            && Sending.Ready(d) && d.phase.Sending? && d.history.clock == sentAt
            && Legal(Draining, c, actions) && ClientEnd(c, actions) == d && Sent(c, actions) == Post({}, sent)
            && StageEnd(Draining, c, actions) == if sent.Some? then DrainingAgain else Waiting
  {
    hide Sending.SendNext, Sending.TimeoutPass, Sending.Ready, Select;
    var x := Sending.TimeoutPass(c, timeoutAt);
    StepsReady(c, timeoutAt);
    StepsReady(x, sentAt);
    OneLegal(Draining, c, ClientTimesOut(timeoutAt));
    OneLegal(Selecting, x, ClientSends(sentAt));
    hide Legal, ClientEnd, StageEnd, Sent;
    LegalJoin(Draining, c, [ClientTimesOut(timeoutAt)], [ClientSends(sentAt)]);
    assert [ClientTimesOut(timeoutAt), ClientSends(sentAt)] == [ClientTimesOut(timeoutAt)] + [ClientSends(sentAt)];
  }

  /** What is read at the end of a pass. */
  lemma ReadLegal(c: Sending.Client, p: Sending.PassInput, sent: bool)
    requires Sending.Ready(c) && c.phase.Sending? && Sending.InOrder(c.history.clock, p.after)
    requires p.waited.Some? ==> c.history.clock <= p.waited.value.at
    ensures var actions := Deliveries(Read(p, sent)); var stage := if sent then DrainingAgain else Waiting;
            && Legal(stage, c, actions) && BetweenPasses(StageEnd(stage, c, actions)) && Sent(c, actions) == {}
            && ClientEnd(c, actions) == Sending.Drain(c, Read(p, sent))
  {
    hide Sending.Receive, Sending.Ready, IsExpected;
    if sent {
      DrainLegal(DrainingAgain, c, p.after);
    } else if p.waited.Some? {
      var a := p.waited.value;
      Sending.ReceiveReady(c, a.data, a.at);
      assert [a][1..] == [];
      assert Deliveries([a]) == [ClientGets(a.data, a.at)];
      OneLegal(Waiting, c, ClientGets(a.data, a.at));
      hide Legal, ClientEnd, StageEnd, Sent;
      assert Sending.Drain(c, [a]) == Sending.Receive(c, a.data, a.at);
    }
  }

  /** Waiting for one datagram is draining that one. */
  lemma PassEnds(c: Sending.Client, p: Sending.PassInput)
    requires Sending.Ready(c)
    ensures var c1 := Sending.Drain(c, p.before);
            Sending.Ready(c1) && Sending.Ready(Sending.TimeoutPass(c1, p.timeoutAt))
    ensures var c2 := Sending.TimeoutPass(Sending.Drain(c, p.before), p.timeoutAt);
            var (c3, d) := Sending.SendNext(c2, p.sentAt);
            Sending.Ready(c3) && Sending.Pass(c, p) == (Sending.Drain(c3, Read(p, d.Some?)), d)
  {
    hide Sending.Receive, Sending.SendNext, Sending.TimeoutPass, Sending.Ready;
    var c1 := Sending.Drain(c, p.before);
    StepsReady(c1, p.timeoutAt);
    var c2 := Sending.TimeoutPass(c1, p.timeoutAt);
    StepsReady(c2, p.sentAt);
    var c3 := Sending.SendNext(c2, p.sentAt).0;
    if p.waited.Some? {
      var a := p.waited.value;
      Sending.ReceiveReady(c3, a.data, a.at);
      assert Sending.Drain(c3, [a]) == Sending.Receive(c3, a.data, a.at);
    }
  }

  /** A pass on its own. */
  lemma PassLegal(c: Sending.Client, p: Sending.PassInput)
    requires Sending.Ready(c) && c.phase.Sending? && Sending.WellTimed(c.history.clock, p)
    ensures var (d, sent) := Sending.Pass(c, p); var actions := PassActions(p, sent.Some?);
            && Legal(Draining, c, actions) && BetweenPasses(StageEnd(Draining, c, actions))
            && ClientEnd(c, actions) == d && Sent(c, actions) == Post({}, sent)
  {
    hide Sending.SendNext, Sending.TimeoutPass, Sending.Ready, Sending.Pass, Legal, ClientEnd, StageEnd, Sent, Deliveries, Read;
    PassEnds(c, p);
    DrainLegal(Draining, c, p.before);
    var c1 := Sending.Drain(c, p.before);
    SelectionLegal(c1, p.timeoutAt, p.sentAt);
    var (c3, sent) := Sending.SendNext(Sending.TimeoutPass(c1, p.timeoutAt), p.sentAt);
    ReadLegal(c3, p, sent.Some?);
    var middle := [ClientTimesOut(p.timeoutAt), ClientSends(p.sentAt)];
    var last := Deliveries(Read(p, sent.Some?));
    LegalJoin(Draining, c1, middle, last);
    LegalJoin(Draining, c, Deliveries(p.before), middle + last);
  }

  /** A pass of the client's loop, interleaved with any server steps: as long as every datagram is in
      the network by the time it is read, it is a run of the two programs from the guard on, after
      which the client is what `Pass` makes of it and its packet is in the network. */
  lemma PassRuns(t: Transfer, r: Running, actions: seq<Action>, p: Sending.PassInput) returns (to: Running)
    requires Safe(t, r.sys) && r.sys.client.phase.Sending? && r.stage.Draining?
    requires Delivered(t, r.sys, r.served, actions) && Sending.WellTimed(r.sys.client.history.clock, p)
    requires (SafeReady(t, r.sys); ClientPart(actions) == PassActions(p, Sending.Pass(r.sys.client, p).1.Some?))
    ensures Sending.Ready(r.sys.client) && RunsTo(t, r, actions, to) && BetweenPasses(to.stage)
    ensures var (d, sent) := Sending.Pass(r.sys.client, p);
            to.sys.client == d && to.sys.toServer == Post(r.sys.toServer, sent)
  {
    hide Safe, RunsTo, Legal, Delivered, Sending.Ready, Sending.Pass, PassActions, ClientEnd, StageEnd, Sent, Sending.WellTimed;
    SafeReady(t, r.sys);
    PassLegal(r.sys.client, p);
    to := Interleaved(t, r, actions);
  }

  // ----- every pass

  /** Only the guard of the loop separates passes. */
  predicate WithinPass(actions: seq<Action>) {
    forall k | 0 <= k < |actions| :: !actions[k].ClientStaysInLoop? && !actions[k].ClientLeavesLoop?
  }

  predicate ReadIn(actions: seq<Action>, arrivals: seq<Sending.Arrival>) {
    forall k | 0 <= k < |arrivals| :: ClientGets(arrivals[k].data, arrivals[k].at) in actions
  }

  lemma {:induction false} DrainingAgainReads(c: Sending.Client, actions: seq<Action>) returns (after: seq<Sending.Arrival>)
    requires Sending.Ready(c) && Legal(DrainingAgain, c, actions) && WithinPass(actions)
    ensures ClientEnd(c, actions) == Sending.Drain(c, after) && Sent(c, actions) == {} && ReadIn(actions, after)
    decreases |actions|
  {
    hide Sending.Receive, Sending.Ready;
    after := [];
    if actions != [] {
      var rest := DrainingAgainReads(ClientStep(c, actions[0]).0, actions[1..]);
      var a := Sending.Arrival(actions[0].data, actions[0].at);
      after := [a] + rest;
      assert after[1..] == rest;
    }
  }

  lemma {:induction false} WaitingReads(c: Sending.Client, actions: seq<Action>) returns (waited: Option<Sending.Arrival>)
    requires Sending.Ready(c) && c.phase.Sending? && Legal(Waiting, c, actions) && WithinPass(actions)
    ensures ClientEnd(c, actions)
            == if waited.Some? then Sending.Receive(c, waited.value.data, waited.value.at) else c
    ensures Sent(c, actions) == {} && (waited.Some? ==> ReadIn(actions, [waited.value]))
    decreases |actions|
  {
    hide Sending.Receive, Sending.Ready, IsExpected;
    waited := None;
    if actions != [] {
      var a := actions[0];
      ReceiveClock(c, a.data, a.at);
      if IsExpected(c, a.data, Ack) {
        waited := Some(Sending.Arrival(a.data, a.at));
        GuardIsNext(ClientStep(c, a).0, actions[1..]);
      } else {
        waited := WaitingReads(c, actions[1..]);
      }
    }
  }

  lemma GuardIsNext(c: Sending.Client, actions: seq<Action>)
    requires Sending.Ready(c) && Legal(AtGuard, c, actions) && WithinPass(actions)
    ensures actions == [] && ClientEnd(c, actions) == c && Sent(c, actions) == {}
  {
  }

  lemma DrainingReads(c: Sending.Client, actions: seq<Action>)
    returns (before: seq<Sending.Arrival>, timeoutAt: int, rest: seq<Action>)
    requires Sending.Ready(c) && c.phase.Sending? && Legal(Draining, c, actions) && WithinPass(actions)
    requires BetweenPasses(StageEnd(Draining, c, actions))
    ensures var d := Sending.Drain(c, before);
            && Sending.Ready(Sending.TimeoutPass(d, timeoutAt)) && d.phase.Sending?
            && Legal(Selecting, Sending.TimeoutPass(d, timeoutAt), rest) && WithinPass(rest)
            && BetweenPasses(StageEnd(Selecting, Sending.TimeoutPass(d, timeoutAt), rest))
            && ClientEnd(c, actions) == ClientEnd(Sending.TimeoutPass(d, timeoutAt), rest)
            && Sent(c, actions) == Sent(Sending.TimeoutPass(d, timeoutAt), rest)
    ensures ReadIn(actions, before) && ClientTimesOut(timeoutAt) in actions
    ensures forall a | a in rest :: a in actions
    decreases |actions|
  {
    hide Sending.Receive, Sending.Ready, Sending.TimeoutPass;
    var a := actions[0];
    if a.ClientTimesOut? {
      before, timeoutAt, rest := [], a.at, actions[1..];
      StepsReady(c, timeoutAt);
    } else {
      ReceiveClock(c, a.data, a.at);
      var more: seq<Sending.Arrival>;
      more, timeoutAt, rest := DrainingReads(ClientStep(c, a).0, actions[1..]);
      before := [Sending.Arrival(a.data, a.at)] + more;
      assert before[1..] == more;
    }
  }

  /** And every pass that the program makes in a run, whatever the server and the network do
      meanwhile, has the effect of `Pass` on datagrams that it read, at the times of its actions. */
  lemma EveryPassIsPass(t: Transfer, r: Running, actions: seq<Action>, to: Running) returns (p: Sending.PassInput)
    requires Safe(t, r.sys) && r.sys.client.phase.Sending? && r.stage.Draining?
    requires RunsTo(t, r, actions, to) && WithinPass(actions) && BetweenPasses(to.stage)
    ensures Sending.Ready(r.sys.client)
    ensures var (d, sent) := Sending.Pass(r.sys.client, p);
            && to.sys.client == d && to.sys.toServer == Post(r.sys.toServer, sent)
            && ReadIn(actions, p.before) && ReadIn(actions, Read(p, sent.Some?))
            && ClientTimesOut(p.timeoutAt) in actions && ClientSends(p.sentAt) in actions
  {
    hide Safe, RunsTo, Legal, ClientEnd, StageEnd, Sent, Sending.Ready, Sending.Pass, Sending.Receive, Sending.TimeoutPass;
    var c := r.sys.client;
    RunIsInterleaved(t, r, actions, to);
    PartWithinPass(actions);
    var before, timeoutAt, rest := DrainingReads(c, ClientPart(actions));
    StepsReady(Sending.Drain(c, before), timeoutAt);
    p := SelectionReads(Sending.TimeoutPass(Sending.Drain(c, before), timeoutAt), rest);
    p := p.(before := before, timeoutAt := timeoutAt);
    PassEnds(c, p);
  }

  lemma {:induction false} PartWithinPass(actions: seq<Action>)
    requires WithinPass(actions)
    ensures WithinPass(ClientPart(actions)) && forall a | a in ClientPart(actions) :: a in actions
    decreases |actions|
  {
    if actions != [] {
      PartWithinPass(actions[1..]);
    }
  }

  lemma SelectionReads(c: Sending.Client, actions: seq<Action>) returns (p: Sending.PassInput)
    requires Sending.Ready(c) && c.phase.Sending? && Legal(Selecting, c, actions) && WithinPass(actions)
    requires BetweenPasses(StageEnd(Selecting, c, actions))
    ensures var (d, sent) := Sending.SendNext(c, p.sentAt);
            && Sending.Ready(d) && ClientEnd(c, actions) == Sending.Drain(d, Read(p, sent.Some?))
            && Sent(c, actions) == Post({}, sent)
            && ReadIn(actions, Read(p, sent.Some?)) && ClientSends(p.sentAt) in actions
  {
    hide Sending.Receive, Sending.Ready, Sending.SendNext, Select;
    var a := actions[0];
    StepsReady(c, a.at);
    var (d, sent) := Sending.SendNext(c, a.at);
    p := Sending.PassInput([], a.at, a.at, [], None);
    if sent.Some? {
      var after := DrainingAgainReads(d, actions[1..]);
      p := p.(after := after);
    } else {
      var waited := WaitingReads(d, actions[1..]);
      p := p.(waited := waited);
      if waited.Some? {
        Sending.ReceiveReady(d, waited.value.data, waited.value.at);
        assert [waited.value][1..] == [];
        assert Sending.Drain(d, [waited.value]) == Sending.Receive(d, waited.value.data, waited.value.at);
      }
    }
  }
}

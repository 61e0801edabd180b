/** The transfer system begins where the handshake ends, and takes every enabled step. */
module Beginnings {
  import opened Bytes
  import opened Protocol
  import opened FileLayout
  import opened Handshake
  import opened SenderRuns
  import opened ServerModel
  import opened TransferSystem
  import opened Progress
  import Sending = ClientModel

  /** The state in which both loops start: the client with its own proposal and the window it got from
      START_ACK, the server with the START it admitted. */
  function Begun(proposed: StartPayload, admitted: StartOutcome, started: StartResult,
                 file: seq<uint8>, output: seq<uint8>, clientNow: int, serverNow: int): System
    requires admitted.Admitted? && started.Started?
  {
    System(
      Sending.Client(admitted.session, file, proposed.chunkSize,
                     NewHistory(proposed.totalChunks, started.window, started.coverage, clientNow),
                     Sending.Phase.Sending),
      NewServer(admitted.session, admitted.start, admitted.reply, output, serverNow),
      {StartDatagram(admitted.session, proposed)},
      {StartAckDatagram(admitted.session, admitted.reply)})
  }

  lemma BegunReachable(t: Transfer, output: seq<uint8>, clientNow: int, serverNow: int)
    requires Fits(t) && |output| == |t.file|
    ensures Reachable(t, Begun(t.start, Admitted(t.session, t.start, OkReply(t.start)),
                               Started(t.start.windowChunks, DEFAULT_ACK_BITMAP_BITS), t.file, output, clientNow, serverNow))
  {
    hide Safe, StartDatagram, StartAckDatagram;
    var start := Begun(t.start, Admitted(t.session, t.start, OkReply(t.start)),
                       Started(t.start.windowChunks, DEFAULT_ACK_BITMAP_BITS), t.file, output, clientNow, serverNow);
    BeginsSafe(t, start);
    ViaNothing(t, start);
    assert IsRun(t, start, [], start);
  }

  /** Every file and MTU that the client accepts begin a transfer: the server admits the START it is
      sent, the client starts on the START_ACK that comes back, and the state that the two are then
      in is reachable. */
  lemma TransferBegins(file: seq<uint8>, mtu: uint32, session: uint32, output: seq<uint8>, clientNow: int, serverNow: int)
    requires session != 0 && |file| < 0x1_0000_0000_0000_0000 && |output| == |file|
    requires 1076 <= mtu <= 0xFFFF && CeilDiv(|file|, mtu - 52) <= 0xFFFF_FFFF
    ensures Propose(|file|, mtu).Proposed? && ChunkSizeForMtu(mtu).Some?
    ensures var proposed := Propose(|file|, mtu).start;
            var admitted := HandleStart(mtu, StartDatagram(session, proposed));
            && admitted.Admitted?
            && var started := HandleStartAck(session, StartAckDatagram(admitted.session, admitted.reply));
               && started.Started?
               && Reachable(Transfer(session, file, proposed),
                            Begun(proposed, admitted, started, file, output, clientNow, serverNow))
  {
    ProposesIff(|file|, mtu);
    ProposalFits(|file|, mtu);
    HandshakeSucceeds(|file|, mtu, session);
    var proposed := Propose(|file|, mtu).start;
    ChunkCountLayout(|file|, proposed.chunkSize);
    hide Propose, HandleStart, HandleStartAck, Reachable, Begun, StartDatagram, StartAckDatagram, ChunkSizeForMtu;
    BegunReachable(Transfer(session, file, proposed), output, clientNow, serverNow);
  }

  /** Reachability is closed under runs. */
  lemma ReachableVia(t: Transfer, sys: System, actions: seq<Action>, to: System)
    requires Reachable(t, sys)
    requires (ReachableSafe(t, sys); Via(t, sys, actions, to))
    ensures Reachable(t, to)
  {
    hide Safe, Fits, Begins, ValidRun, Final;
    ReachableSafe(t, sys);
    var start: System, before: seq<Action> :| IsRun(t, start, before, sys);
    BeginsSafe(t, start);
    ViaJoin(t, start, before, sys, actions, to);
    assert IsRun(t, start, before + actions, to);
  }

  lemma ReachableStep(t: Transfer, sys: System, a: Action)
    requires Reachable(t, sys) && Enabled(sys, a)
    ensures Safe(t, sys) && Reachable(t, Next(sys, a))
  {
    hide Safe, Reachable, Enabled, Next;
    ReachableSafe(t, sys);
    SafeReady(t, sys);
    NextSafe(t, sys, a);
    ViaNothing(t, Next(sys, a));
    ViaStep(t, sys, a, [], Next(sys, a));
    ReachableVia(t, sys, [a] + [], Next(sys, a));
  }
}

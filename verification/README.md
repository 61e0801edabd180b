# FRFT: a verified model of the reliable-transfer core

FRFT sends one file over UDP. The client cuts it into chunks, keeps a sliding window of them, and
retransmits on SACK evidence or on a timeout; the server stores each chunk once and answers with
cumulative ACKs that carry a bitmap. This project models that core in Dafny and proves what it is for:
the file arrives intact over any loss, duplication and reordering, ACKs lose nothing, every fair run
finishes, and retransmission stays bounded.

Check everything with `dafny verify dfyconfig.toml`.

## How it is built

| file | what it holds |
|---|---|
| `Bytes.dfy`, `Protocol.dfy`, `Serializers.dfy` | big-endian fields and bits, the wire format as functions, the buffer-filling serializers |
| `SenderModel.dfy`, `SenderWindow.dfy` | what each sender operation does, chunk by chunk, and the class that does it in place with loops |
| `SenderInvariant.dfy`, `SenderProperties.dfy`, `SenderRuns.dfy` | the sender's invariant, ACKs as a set union, whole runs under a monotone clock |
| `Receiver.dfy` | `ReceiverTracker`, its summaries, and the SACK snapshot |
| `Pacing.dfy` | the token bucket over the reals, with an uncontrolled monotone clock |
| `FileLayout.dfy`, `Handshake.dfy`, `Datagrams.dfy` | chunks of a file, START and START_ACK, the datagrams of the transfer |
| `ClientModel.dfy`, `ClientLoop.dfy`, `ServerModel.dfy`, `ServerLoop.dfy` | the two event loops, as functions and as classes over mutable state |
| `TransferSystem.dfy` | client, server and network as one step system over encoded datagrams, and its safety invariant |
| `Beginnings.dfy`, `TransferTheorems.dfy`, `Progress.dfy`, `Rounds.dfy` | where it begins, and the theorems about every reachable state and every run |
| `ProgramRuns.dfy`, `LoopRuns.dfy` | the runs that the two programs can take: where the client is in its loops, and its passes among the server's steps |
| `QueueProgress.dfy`, `FairRuns.dfy` | a queued retransmission gets its turn, and every fair run finishes |
| `SenderDecisions.dfy`, `ClientDecisions.dfy`, `ServerDecisions.dfy` | exactly what each end decides and sends, over sets and with the numbers of the source |
| `AckCadence.dfy` | which DATA packets the server leaves without an ACK |

Each class method is proved equal to a function of its old state, and the theorems are about those
functions. What they decide is pinned from both sides: the theorems say what a decision must not do, and the
`Decisions` modules say exactly when it is taken, without naming the functions that take it. Time is an integer number of nanoseconds. The network is the set of all datagrams ever sent in
each direction: any of them may be delivered at any time, any number of times, in any order, or never.
`select_next_packet` and the `mark_sent` that always follows it are one step, as in the client's loop
(src/client.cpp:517-570).

Safety is proved of a system that is freer than the programs: the client may take its steps in any order
and the server's clock may jump. What can happen, and what must happen in the end, is proved of the
programs' own runs (`ProgramRuns.dfy`): the client goes through its loops in their order, and both clocks
are monotone. An infinite run of the programs is fair if, as long as it is sending, the client goes on
checking timeouts while its clock passes every time; if of a chunk that is retransmitted over and over some
packet and some reply to it get through; and if the same holds of COMPLETE (`FairRuns.dfy`). How many are
lost before does not matter.

What the proofs say about places where code and expectations differ:

- `tests/protocol_test.cpp` builds `SenderWindow` with two arguments; the class takes three
  (src/reliability.cpp:15-32), and the model follows the class.
- Not every START gets an answer. A START of the right chunk size whose file would need more than
  2^32 - 1 chunks makes `chunk_count` throw out of the server's START loop (src/server.cpp:257-260);
  `Handshake.StartOutcomes` says exactly when, and `Handshake.ThrowingStart` gives one: MTU 1500 and a file
  of 1448 · 2^32 bytes.
- The ACK interval is no timer: `next_ack_time` is looked at only when a DATA packet arrives
  (src/server.cpp:363-379), so a lone packet is left without an ACK until another datagram comes, however
  late (`AckCadence.AckedIff`, `AckCadence.LonePacketWaits`).
- An ACK that answers an early COMPLETE does not restart the ACK cadence (src/server.cpp:400-407), so
  `AckCadence.WaitingBounded` counts from the last ACK that a DATA packet caused.
- A datagram is recovered byte for byte from its decoded START_ACK, ACK or COMPLETE_ACK exactly when the
  reserved bytes are zero, because the decoders do not look at them.

## Model

| member | source | states |
|---|---|---|
| TransferTheorems.EndToEndIntegrity | src/client.cpp:501-616 | In every reachable state ACKED chunks are received, received chunks have been selected, every byte of a received chunk is in the output; once the client has left its loop, or the server has confirmed, the output is the file; the client never ends in an exception. |
| TransferTheorems.SnapshotsLoseNothing | src/reliability.cpp:255-277 | In every reachable state base ≤ cumulative ACK and all received chunks lie within the coverage, so a snapshot claims exactly the received set and processing it makes exactly that set ACKED. |
| TransferTheorems.SackThroughBytes | src/reliability.cpp:114-141 | For any sender, receiver and bitmap width: snapshot, serialize, deserialize, process_ack adds exactly the selected chunks below the cumulative ACK and the received ones within the width. |
| TransferTheorems.RetransmissionsBounded | src/reliability.cpp:143-163 | In every reachable state each chunk has been retransmitted fast at most 2730 times, and after its first retransmission its transmissions are 250 ms apart. |
| Progress.BlockedProgress | src/client.cpp:501-570 | In every reachable state with chunks missing and nothing to send, the base is in flight; after 500 ms, timeout check, selection, delivery of that packet and delivery of the ACK it provokes are possible in a row and leave strictly fewer chunks missing. |
| Rounds.BlockedRecovers | src/client.cpp:501-570 | The same for every run in which anything at all happens between the retransmission, its delivery and the delivery of the reply, and after it. |
| Rounds.SpreadRound | src/server.cpp:361-391 | Any run that contains a retransmission, its delivery and the delivery of the reply, in this order and with any actions between and after, ends with fewer chunks missing. |
| Rounds.AnyAckCounts | src/client.cpp:339-348 | Whatever an ACK in the network claims is ACKED once it is delivered, however old it is and whatever the client does by then. |
| Rounds.AckedGrowsVia | src/reliability.cpp:73-84 | No run takes an ACKED chunk back. |
| FairRuns.EveryFairRunFinishes | src/client.cpp:501-616 | Every fair infinite run of the two programs reaches a state in which the client has finished and the file is in place. |
| FairRuns.FairRunExists | src/client.cpp:501-616 | From every reachable state there is a fair run, so the hypotheses of that theorem can be met. |
| FairRuns.NeverStalls | src/client.cpp:501-570 | In a fair run there is no point from which on nothing more is ACKED or selected, as long as chunks are missing. |
| FairRuns.StalledRetransmits | src/reliability.cpp:41-62 | A sender that neither gets ACKs nor selects new chunks retransmits its base over and over. |
| QueueProgress.SelectionForward | src/reliability.cpp:42-54 | Each selection takes a queued chunk itself or brings it forward in the queue. |
| QueueProgress.AckForward | src/reliability.cpp:143-163 | An ACK that does not cover a queued chunk leaves its place in the queue. |
| QueueProgress.CheckQueues | src/reliability.cpp:166-175 | A check 500 ms after a chunk in flight was sent leaves it queued. |
| ProgramRuns.FinishAlwaysPossible | src/client.cpp:501-616 | In every reachable state, wherever the client is in its loops and whatever the server's clock says, steps that the programs can take end the transfer with the file in place. |
| ProgramRuns.ProgramRunsAreRuns | src/client.cpp:501-604 | Every run of the programs is a run of the transfer system, so all that holds of reachable states holds along it. |
| Progress.CompleteAlwaysConfirmed | src/server.cpp:396-430 | Every COMPLETE that is delivered is answered with OK and the right counts, and the output is then the file. |
| ProgramRuns.SelectionFinishes | src/client.cpp:501-570 | Induction on missing and unselected chunks over passes as the loop makes them: each pass brings the end nearer. |
| ProgramRuns.LateCheckSelects | src/reliability.cpp:166-175 | After a check that is late enough for the base, the selection always yields a chunk. |
| Progress.RetransmissionAnswered | src/server.cpp:361-391 | A delivered retransmission marks its chunk and is ACKed at once with the current snapshot, whenever it arrives. |
| Progress.AckDelivered | src/client.cpp:339-348 | Once the current ACK is delivered, exactly the received chunks are ACKED; `Rounds.AnyAckCounts` is about older ones. |
| Progress.TimeoutUnblocks | src/reliability.cpp:166-175 | For a blocked sender whose base has timed out, check_timeouts makes the base the next retransmission, and not a fast one. |
| Progress.BlockedOnBase | src/reliability.cpp:34-62 | If selection yields nothing before the end, the base is in flight and not queued, and the queue is drained. |
| TransferSystem.NextSafe | src/client.cpp:501-616 | Every enabled step of client, server or network keeps the joint safety invariant. |
| TransferSystem.ReachableSafe | src/client.cpp:501-616 | The invariant holds at the end of every run from an accepted handshake on. |
| TransferSystem.BeginsSafe | src/client.cpp:488-500 | It holds when both loops start after an accepted handshake, for any clocks and any old output contents. |
| Beginnings.TransferBegins | src/client.cpp:414-500 | For every file and MTU that the client accepts, the server admits the START as encoded, the client starts on the START_ACK as encoded, and the state both loops are then in, built from what was admitted and started, is reachable. |
| Beginnings.ReachableStep | src/client.cpp:501-616 | Every enabled step leads from a reachable state to a reachable state. |
| LoopRuns.PassRuns | src/client.cpp:501-586 | A pass of the client's loop interleaved with any server steps, each datagram in the network by the time it is read, is a run of the programs, and its effect on the client and its packet are those of Pass. |
| LoopRuns.EveryPassIsPass | src/client.cpp:501-586 | Every pass that the client makes in a run, whatever the server and the network do meanwhile, has the effect of Pass on datagrams that it read and at the times of its actions. |
| LoopRuns.Interleaved | src/client.cpp:278-383 | Whatever the client can do on its own, interleaved with server steps in any way in which every datagram is there when it is read, is a run with the same effect on the client. |
| LoopRuns.RunIsInterleaved | src/client.cpp:278-383 | Every run is such an interleaving: the client's state and what it sends depend on its own actions alone. |
| AckCadence.WaitingBounded | src/server.cpp:358-391 | After any datagrams at any times, at most 31 DATA packets have arrived since the last ACK caused by one, each within one interval of the first of them, and none of them completed the file. |
| AckCadence.AckedIff | src/server.cpp:358-391 | Exactly which DATA packets are ACKed when they arrive. |
| AckCadence.AckedInRuns | src/server.cpp:358-391 | At any point of any history, in terms of the packets that wait: exactly when the next one is ACKed, so none is within the interval of the first without another reason. |
| AckCadence.LonePacketWaits | src/server.cpp:363-379 | A lone new packet of a longer file gets no ACK, whenever it comes. |
| TransferSystem.ServerReceives | src/server.cpp:308-430 | Whatever the client can have sent, the server stays faithful to the file, forgets nothing, receives only selected chunks, and replies honestly. |
| TransferSystem.ChunkReceived | src/server.cpp:326-391 | A delivered DATA packet marks exactly its chunk, keeps the output faithful, and gets an immediate ACK when it is a duplicate or a retransmission. |
| TransferSystem.ClientGetsSafe | src/client.cpp:339-383 | Any datagram of the server, however old, keeps the invariant. |
| TransferSystem.ReportSafe | src/client.cpp:605-616 | The statistics check after COMPLETE_ACK cannot fail. |
| SenderInvariant.NewWindowInv | src/reliability.cpp:15-32 | Every constructed window satisfies the sender's invariant. |
| SenderInvariant.TransmitInv | src/reliability.cpp:41-71 | Selection followed by mark_sent keeps the invariant: exact evidence, queue and flags in agreement, least base, both window limits, exact counter. |
| SenderInvariant.TransmitDecision | src/reliability.cpp:41-62 | What is selected is never ACKED, so mark_sent never throws; a retransmission is in flight and pending, a new chunk is the next in order and within coverage. |
| SenderInvariant.ProcessAckInv | src/reliability.cpp:114-164 | process_ack keeps the invariant for any ACK payload at any time. |
| SenderInvariant.CheckTimeoutsInv | src/reliability.cpp:166-175 | check_timeouts keeps the invariant for any time and any timeout. |
| SenderInvariant.ProcessAckStates | src/reliability.cpp:114-141 | The state of each chunk after process_ack: ACKED if selected and claimed, otherwise unchanged. |
| SenderProperties.AckIsUnion | src/reliability.cpp:73-141 | process_ack turns ACKED into ACKED ∪ (claimed ∩ selected). |
| SenderProperties.AckBase | src/reliability.cpp:99-103 | The new base is the least chunk that is not ACKED, or the end. |
| SenderProperties.AcksCommute | src/reliability.cpp:114-141 | Two ACKs in either order leave the same ACKED set, base and outstanding count. |
| SenderProperties.StaleAckIsInert | src/reliability.cpp:143-163 | An ACK with nothing new, at any later time, leaves the whole sender state unchanged. |
| SenderDecisions.SelectionExactly | src/reliability.cpp:34-62 | A retransmission is selected exactly when some chunk in flight is asked for; otherwise the next new chunk exactly when one is left, fewer than the window's are unACKed and the span is short of the coverage; otherwise nothing. |
| SenderDecisions.RetransmissionExactly | src/reliability.cpp:42-54 | Which chunk is retransmitted (the first in the queue that is asked for), whether it is reported as fast, and the whole new state, with the evidence known now on record. |
| SenderDecisions.NewChunkExactly | src/reliability.cpp:56-60 | Without a retransmission the queue is left empty, and a new chunk moves the two counters alone. |
| SenderDecisions.ClaimsExactly | src/reliability.cpp:116-139 | Which chunks an ACK claims, read off its fields: below the cumulative ACK, or in the bitmap within its width, its bytes and the largest number. |
| SenderDecisions.FastExactly | src/reliability.cpp:143-163 | What an ACK makes of each chunk that it leaves in flight: it is queued as fast exactly when more chunks above it are ACKED than before, at least 3 more than its evidence, and it was never retransmitted or not for 250 ms; otherwise only the count of ACKED chunks above it changes. |
| SenderDecisions.FastOrder | src/reliability.cpp:143-163 | An ACK appends to the queue from the highest chunk down and takes nothing out; the limits and the next number stay. |
| SenderDecisions.TimeoutExactly | src/reliability.cpp:166-175 | A check queues a chunk exactly when it is selected, in flight, not queued and was sent the timeout ago or earlier; nothing else changes; the client's timeout is 500 ms. |
| SenderDecisions.TimeoutOrder | src/reliability.cpp:166-175 | A check appends to the queue from the lowest chunk up and takes nothing out. |
| SenderDecisions.RetransmissionTimesInRuns | src/reliability.cpp:152-175 | In every run a retransmission without SACK evidence comes at least 500 ms after the last transmission of its chunk, and one with it at least 250 ms after, unless that was the first. |
| SenderDecisions.NeverRetransmitted | src/reliability.cpp:41-71 | Along runs, a chunk in flight and not queued was transmitted once exactly when its flag is clear, and then has no evidence on record. |
| SenderDecisions.NewWindowExactly | src/reliability.cpp:15-22 | A new window has the three limits that it was given, and nothing selected, queued or ACKED. |
| SenderProperties.RecountAgrees | src/client.cpp:62-90 | The incremental counter equals a full recount, never exceeds the window, and the span never exceeds the coverage. |
| SenderProperties.WindowSampleStats.Recount | src/client.cpp:70-79 | The counting loop yields the ACKED and pending counts of the open window, and its two counts add up to the span. |
| SenderProperties.WindowSampleStats.Sample | src/client.cpp:62-90 | A sample records outstanding as unacked and span minus outstanding as ACKED behind the hole, and its maxima stay within the limits. |
| SenderRuns.StepKeeps | src/reliability.cpp:41-175 | Any event at or after the last keeps each chunk's history invariant, which ties fast retransmissions to evidence and spacing to the delay. |
| SenderRuns.FastRetransmissionBound | src/reliability.cpp:143-163 | In every run with any ACK payloads, each chunk is retransmitted fast at most (coverage - 1) / 3 times. |
| SenderRuns.TransmissionsInInterval | src/reliability.cpp:152-160 | In every run, the transmissions of a chunk within a span number at most span / 250 ms + 2. |
| SenderRuns.SpacedGap | src/reliability.cpp:10-11 | Transmissions i to j after the first retransmission are at least (j - i) · 250 ms apart. |
| SenderWindow.SelectShape | src/reliability.cpp:41-62 | Selection keeps the counters and regions right even without the client's discipline. |
| SenderWindow.SenderWindow.constructor | src/reliability.cpp:15-32 | A fresh window, under the three conditions whose failure throws. |
| SenderWindow.SenderWindow.CanSend | src/reliability.cpp:34-39 | The incremental test agrees with a full count of unACKed selected chunks against the logical window, and with the span against the coverage. |
| SenderWindow.SenderWindow.PopLive | src/reliability.cpp:42-54 | The loop discards stale entries up to the first live one, or drains the queue. |
| SenderWindow.SenderWindow.SelectNextPacket | src/reliability.cpp:41-62 | Its decision and the whole new state are those of Select, which `SenderDecisions.SelectionExactly`, `RetransmissionExactly` and `NewChunkExactly` determine. |
| SenderWindow.SenderWindow.MarkChunkSent | src/reliability.cpp:64-71 | The chunk is in flight with its send time, and nothing else changes. |
| SenderWindow.SenderWindow.MarkAcked | src/reliability.cpp:73-84 | A selected chunk becomes ACKED once, with the counter still exact; any other number changes nothing. |
| SenderWindow.SenderWindow.QueueRetransmission | src/reliability.cpp:86-97 | An in-flight chunk is queued at most once, with its flags. |
| SenderWindow.SenderWindow.AdvanceToFirstUnacked | src/reliability.cpp:99-103 | The base moves to the first chunk that is not ACKED. |
| SenderWindow.SenderWindow.MarkClaimed | src/reliability.cpp:116-139 | The prefix loop and the bitmap loop together ACK exactly the claimed selected chunks, with all indices in bounds. |
| SenderWindow.SenderWindow.ScanLaterAcked | src/reliability.cpp:143-163 | The downward scan leaves each in-flight chunk with the exact number of later ACKED chunks and queues exactly those that are due. |
| SenderWindow.SenderWindow.ProcessAckPayload | src/reliability.cpp:114-164 | The whole new state after an ACK is that of ProcessAck, which `SenderProperties.AckIsUnion`, `AckBase` and `SenderDecisions.FastExactly` determine. |
| SenderWindow.SenderWindow.CheckForTimeouts | src/reliability.cpp:166-175 | Exactly the expired, unqueued in-flight chunks are queued, lowest first. |
| SenderWindow.SenderWindow.AllAcked | src/reliability.cpp:177-179 | True only if every chunk is ACKED, and, when the base is the least unACKed chunk, whenever every chunk is. |
| Receiver.ReceiverTracker.constructor | src/reliability.cpp:219-219 | Nothing is received and the summaries agree. |
| Receiver.ReceiverTracker.Mark | src/reliability.cpp:225-237 | The flags change exactly when the number is new and in range, and the three summaries stay the cardinality, the least missing index and the maximum plus one. |
| Receiver.ReceiverTracker.AdvanceCumulative | src/reliability.cpp:233-235 | The scan goes on from the old value to the first missing chunk. |
| Receiver.ReceiverTracker.Complete | src/reliability.cpp:239-241 | True exactly when every flag is set, and exactly when the cumulative ACK is the total. |
| Receiver.ReceiverTracker.MakeAckSnapshot | src/reliability.cpp:255-277 | The bitmap loop builds the snapshot of the flags, with all indices in bounds. |
| Receiver.CompleteIff | src/reliability.cpp:239-249 | The count, the cumulative ACK and the flags agree on completeness. |
| Receiver.OrderIrrelevant | src/reliability.cpp:225-237 | Arrival order, duplicates and out-of-range numbers do not affect the flags, hence no summary and no snapshot. |
| Receiver.ScanBitsAt | src/reliability.cpp:263-275 | Bit k of the bitmap is the flag of chunk base + k, and unscanned bits are zero. |
| Receiver.SnapshotClaims | src/reliability.cpp:255-277 | What a snapshot claims: everything below the first missing chunk, and beyond it exactly the received chunks within the width. |
| Receiver.SnapshotLossless | src/reliability.cpp:255-277 | A snapshot never claims a missing chunk, and claims every received one when they lie within the width. |
| Receiver.SnapshotFields | src/reliability.cpp:255-277 | Each field of a snapshot: the least missing chunk twice, one more than the greatest received chunk or zero, the width, and each bit of each byte of the bitmap. |
| Protocol.DecodeEncodePacket | src/protocol.cpp:94-160 | Decoding an encoded packet succeeds exactly for the right magic and version and no CRC flag, and gives the fields (lengths normalised) and payload back. |
| Protocol.EncodeDecodePacket | src/protocol.cpp:110-160 | Every accepted datagram re-encodes byte for byte. |
| Protocol.MadeHeader | src/client.cpp:216-224 | The 24 header bytes of every packet that is built, with the bytes of the magic, the version, each type code, both lengths and the checksum. |
| Protocol.AcceptedExactly | src/protocol.cpp:110-160 | Which datagrams are accepted, read off their bytes. |
| Protocol.StartFields | src/protocol.cpp:175-184 | Which bytes of START hold which field. |
| Protocol.StartAckFields | src/protocol.cpp:205-212 | Which bytes of START_ACK hold which field, and which are zero. |
| Protocol.AckFields | src/protocol.cpp:231-244 | Which bytes of ACK hold which field, and which are zero. |
| Protocol.CompleteAckFields | src/protocol.cpp:268-275 | Which bytes of COMPLETE_ACK hold which field, and which are zero. |
| Protocol.DecodeEncodeStart | src/protocol.cpp:175-203 | START round-trips as a value. |
| Protocol.EncodeDecodeStart | src/protocol.cpp:188-203 | START is accepted exactly at 24 bytes and re-encodes byte for byte. |
| Protocol.DecodeEncodeStartAck | src/protocol.cpp:205-229 | START_ACK round-trips as a value. |
| Protocol.EncodeDecodeStartAck | src/protocol.cpp:205-229 | START_ACK re-encodes byte for byte exactly when its reserved bytes are zero. |
| Protocol.DecodeEncodeAck | src/protocol.cpp:231-266 | Every ACK of the right bitmap length round-trips as a value. |
| Protocol.EncodeDecodeAck | src/protocol.cpp:247-266 | A decoded ACK has the bitmap length of its width; it re-encodes byte for byte exactly when its reserved bytes are zero. |
| Protocol.DecodeEncodeCompleteAck | src/protocol.cpp:268-293 | COMPLETE_ACK round-trips as a value. |
| Protocol.EncodeDecodeCompleteAck | src/protocol.cpp:268-293 | COMPLETE_ACK re-encodes byte for byte exactly when its reserved bytes are zero. |
| Serializers.SerializePacketHeader | src/protocol.cpp:74-92 | The zeroed buffer ends up holding the encoded header. |
| Serializers.SerializePacket | src/protocol.cpp:94-108 | Header and payload copied into one buffer are the encoded packet. |
| Serializers.SerializeStart | src/protocol.cpp:175-186 | The filled buffer is the encoded START. |
| Serializers.SerializeStartAck | src/protocol.cpp:205-214 | The filled buffer is the encoded START_ACK, reserved bytes zero. |
| Serializers.SerializeAck | src/protocol.cpp:231-245 | The filled buffer is the encoded ACK with its bitmap. |
| Serializers.SerializeCompleteAck | src/protocol.cpp:268-277 | The filled buffer is the encoded COMPLETE_ACK. |
| Bytes.WriteU16 | src/protocol.cpp:10-13 | Two big-endian bytes at the offset, the rest of the buffer untouched. |
| Bytes.WriteU32 | src/protocol.cpp:15-19 | Four big-endian bytes at the offset, the rest of the buffer untouched. |
| Bytes.WriteU64 | src/protocol.cpp:21-25 | Eight big-endian bytes at the offset, the rest of the buffer untouched. |
| Bytes.ReadU32 | src/protocol.cpp:32-38 | The accumulator loop inverts the big-endian writer. |
| Bytes.ReadU64 | src/protocol.cpp:40-46 | The accumulator loop inverts the big-endian writer. |
| Bytes.ByteOfBE | src/protocol.cpp:15-25 | The i-th byte from the end is the number shifted right by 8i bits and cut to a byte. |
| Bytes.BitIs | src/reliability.cpp:132-132 | A bit of a byte is its quotient by a power of two, modulo 2. |
| Pacing.Pacer.constructor | src/pacer.cpp:20-29 | A full bucket and the rate in bytes per nanosecond. |
| Pacing.Pacer.Refill | src/pacer.cpp:31-41 | Tokens grow by elapsed time times rate up to the capacity; a clock that has not advanced changes nothing. |
| Pacing.Pacer.NextWait | src/pacer.cpp:53-61 | Every wait is long enough to reach the target or a full second, and no longer than that rounded up to a nanosecond. |
| Pacing.Pacer.WaitForSlot | src/pacer.cpp:43-79 | The loop terminates for any packet size; all waits but the last bring in a second of rate each, which bounds their number; the time waited, apart from what passes beyond deadlines and between readings, is less than it takes to earn the missing part of the target, plus a nanosecond; tokens stay in [0, 9015]; the bucket ends as elapsed time and one charge leave it; there is no wait exactly when the bucket refilled at the first reading of the clock holds the packet. |
| Pacing.WaitSuffices | src/pacer.cpp:51-76 | A pass whose wait is not capped ends the loop; a capped one ends it or adds a second of rate. |
| Pacing.WaitFillsTwoThirds | src/pacer.cpp:51-76 | A wait that ends at its deadline fills the bucket to the packet or two thirds of the capacity, whichever is more, to within a nanosecond of rate; one that is cut short at a second brings a second of rate. |
| Pacing.Conformance | src/pacer.cpp:31-79 | The bytes of any calls i..j are at most max(9015, p_i) plus rate times the time between their ends, for any mix of sizes. |
| FileLayout.ChunkCountLayout | src/protocol.cpp:63-72 | An accepted chunk count covers the file and leaves no empty chunk. |
| FileLayout.ChunkSizeIff | src/protocol.cpp:55-61 | A chunk size is the MTU less 52, for MTUs 53 to 65535 and no others. |
| FileLayout.ChunkCountIff | src/protocol.cpp:63-72 | A count is refused exactly for empty chunks and for files of more than 2^32 - 1 chunks. |
| FileLayout.ChunkInBounds | src/client.cpp:553-555 | Every chunk is non-empty and inside the file, so neither subtraction nor addition of offsets can wrap. |
| FileLayout.ChunkOfByte | src/server.cpp:331-333 | Byte p lies in chunk p / c, which exists, and in no other: the chunks cover the file. |
| FileLayout.ChunksDisjoint | src/server.cpp:331-333 | Different chunks do not overlap. |
| FileLayout.CopyInAnyOrder | src/server.cpp:331-343 | Copying all chunks, in any order and any number of times, rebuilds the file. |
| Handshake.WindowFitsIff | src/client.cpp:418-422 | The default window fits the bitmap exactly from 1024 bytes per chunk on. |
| Handshake.ProposesIff | src/client.cpp:416-422 | The client proposes a transfer exactly for MTUs 1076 to 65535 and files of at most 2^32 - 1 chunks. |
| Handshake.ProposalExactly | src/client.cpp:416-448 | All fields of a proposal: file size, chunk size, chunk count, the least window that covers 8 MiB, 8192 bits, 10 ms. |
| Handshake.StartOutcomes | src/server.cpp:248-285 | For every START payload sent as bytes: exactly when it is dropped, ends the server, or is admitted, and all fields of the reply if it is admitted or refused. |
| Handshake.ThrowingStart | src/server.cpp:257-260 | A START that ends the server. |
| Handshake.StartIgnoredIff | src/server.cpp:250-255 | Exactly which datagrams get no answer while the server waits for a client. |
| Handshake.StartAckOutcomes | src/client.cpp:470-486 | For every START_ACK sent as bytes, of any session: exactly when the client starts, gives up, or goes on waiting. |
| Handshake.StartAckIgnoredIff | src/client.cpp:459-473 | Exactly which datagrams leave the client waiting, and that a START_ACK of the wrong length ends it. |
| Handshake.AdmittedStarts | src/client.cpp:470-490 | Whatever the server admits, the client can start from, with the window cut to the bitmap. |
| Handshake.StartedFitsWindow | src/client.cpp:482-490 | Any START_ACK the client accepts satisfies the window constructor. |
| Handshake.HandshakeSucceeds | src/client.cpp:441-490 | On equal MTUs every proposal is accepted with its window unchanged and the client starts with it. |
| Handshake.HandshakeNeedsSameMtu | src/server.cpp:257-265 | On different MTUs the server refuses and the client gives up. |
| Datagrams.DataCarries | src/client.cpp:556-569 | The server decodes from a DATA datagram the number, flag and payload that were sent. |
| Datagrams.AckCarries | src/server.cpp:146-157 | The client decodes from an ACK datagram the payload that was sent, with the SACK flag. |
| Datagrams.CompleteCarries | src/client.cpp:589-595 | COMPLETE arrives with the total and no payload. |
| Datagrams.CompleteAckCarries | src/server.cpp:411-418 | COMPLETE_ACK arrives with the payload that was sent. |
| ServerLoop.ServerLoop.constructor | src/server.cpp:287-306 | The loop's variables start as in the source. |
| ServerLoop.ServerLoop.OnDatagram | src/server.cpp:308-430 | One iteration: new state and reply are those of Receive, for any datagram; fewer than 32 packets are ever left un-ACKed. |
| ServerLoop.ServerLoop.OnData | src/server.cpp:326-394 | A DATA packet is checked, stored once, counted, and ACKed when due. |
| ServerLoop.ServerLoop.StoreChunk | src/server.cpp:338-345 | Copy and mark happen exactly when the chunk is new. |
| ServerLoop.ServerLoop.AckIfDue | src/server.cpp:371-391 | An ACK goes out at once, on completion, after 32 packets or after the interval, and resets the cadence. |
| ServerLoop.ServerLoop.OnComplete | src/server.cpp:396-423 | COMPLETE is answered with an ACK until everything is there, then with the counts. |
| ServerLoop.ServerLoop.SendAckSnapshot | src/server.cpp:146-157 | The current snapshot under the current number, which goes round at 2^32. |
| ServerDecisions.StartAnswered | src/server.cpp:313-321 | During the transfer every START is answered: one of its session with the START_ACK of the transfer, any other with BUSY under its own session. |
| ServerDecisions.StartRepeated | src/server.cpp:313-315 | In every reachable unconfirmed state a repeated START draws a reply on which the client starts with the proposed window. |
| ServerDecisions.DataStored | src/server.cpp:326-345 | What a DATA packet does to every flag and every byte of the output; one out of range or of the wrong size changes nothing. |
| ServerDecisions.DataAcked | src/server.cpp:361-391 | Exactly when a DATA packet is ACKed, with what number and snapshot, and every variable of the cadence afterwards. |
| ServerDecisions.CompleteExactly | src/server.cpp:396-430 | COMPLETE: status, counts and the confirmed state if everything is there, and otherwise an ACK that leaves the cadence alone. |
| ServerDecisions.ConfirmedExactly | src/server.cpp:159-214 | Once confirmed, COMPLETE gets the same answer and nothing else gets any. |
| ServerDecisions.OthersDropped | src/server.cpp:322-399 | All other datagrams change nothing and get no reply. |
| ServerDecisions.AckNumbersCount | src/server.cpp:382-406 | Consecutive ACKs carry consecutive numbers modulo 2^32, whatever caused them and whatever comes between. |
| ServerDecisions.AckNumbersStart | src/server.cpp:302-302 | They start from zero. |
| ClientLoop.ClientLoop.constructor | src/client.cpp:488-500 | The loop starts with a fresh window, a full bucket and nothing sent. |
| ClientLoop.ClientLoop.TransmitNext | src/client.cpp:517-570 | Select, build that chunk's packet with its flag, wait for the pacer, send, mark_sent with the time after the send: new state and datagram are those of SendNext. |
| ClientDecisions.SentExactly | src/client.cpp:553-569 | What the receiver decodes from each packet of the client: DATA, session, number, the bytes of that chunk, and the retransmission flag exactly when the chunk was sent before. |
| ClientDecisions.SentRecorded | src/client.cpp:569-570 | What the client remembers of a send: the whole new state, with the chunk in flight since the time after the send. |
| ClientDecisions.MarkedMeansResent | src/client.cpp:556-559 | In every reachable state a DATA packet in the network with the flag carries a chunk that was sent at least twice. |
| ClientDecisions.RetransmissionsApart | src/client.cpp:501-570 | In every reachable state the next retransmission is 500 ms, or with SACK evidence 250 ms, after the last transmission of its chunk, except for the first fast one. |
| ClientDecisions.TimeoutIsHalfASecond | src/client.cpp:508-509 | The client checks with a timeout of 500 ms. |
| ClientLoop.ClientLoop.Send | src/client.cpp:562-569 | Every datagram is admitted by the pacer at its size on the wire before it is sent. |
| ClientLoop.ClientLoop.WireConformance | src/client.cpp:562-569 | The bytes of any consecutive DATA datagrams that the loop has sent, headers included, are at most one bucket plus the rate times the time between the admissions of the first and the last. |
| ClientLoop.ClientLoop.SampleWindow | src/client.cpp:511-515 | A sample is taken exactly when 100 ms have passed since the last, and changes nothing but the statistics. |
| ClientLoop.ClientLoop.OnAck | src/client.cpp:339-348 | Only a decodable SACK of the agreed width reaches the window. |
| ClientDecisions.AckExactly | src/client.cpp:339-348 | An ACK sent as bytes, with any flags, number and width, reaches the window exactly when it is marked SACK and is 8192 bits wide. |
| ClientDecisions.OthersIgnored | src/client.cpp:326-332 | What is undecodable, of another session or of a type that the phase does not wait for changes nothing. |
| ClientDecisions.MalformedPayload | src/client.cpp:605-608 | A short ACK is dropped, and a COMPLETE_ACK of the wrong length ends the client. |
| ClientLoop.ClientLoop.OnCompleteAck | src/client.cpp:605-616 | The mutable form of what `ClientModel.ReplyOutcomes` is about. |
| ClientModel.ReplyOutcomes | src/client.cpp:605-616 | For any COMPLETE_ACK of the session, as bytes: exactly when the client finishes, fails, or asks again. |
| ClientLoop.ClientLoop.OnDatagram | src/client.cpp:326-348 | One datagram: session and type decide what it does. |
| ClientLoop.ClientLoop.DrainAcks | src/client.cpp:350-383 | The waiting datagrams are applied in order, each at a later reading of the clock. |
| ClientLoop.ClientLoop.Iterate | src/client.cpp:501-586 | The guard and one pass: with everything ACKED the loop is left, and otherwise drain, timeout check, sampling, paced send and drain, or a wait, have the effect of Pass at times in their order. |

## Left out

- Sockets, poll, EINTR, address resolution, path-MTU options and buffer sizes: sending puts a datagram into the network set and receiving takes one from it.
- MappedInputFile and MappedOutputFile, and the IO_ERROR reply when the output cannot be mapped: the input is a byte sequence, the output a byte array of the file's size.
- Corruption, foreign endpoints and session-id collisions: the network holds only this session's datagrams as they were sent; the format has no checksum. A START of another session is modelled in `ServerModel.Receive` but is never in the network.
- The limits of 10 attempts and the 3-second `time_wait` deadline: COMPLETE may be sent any number of times, and a server that has confirmed answers for ever.
- Floating-point rounding in the pacer, the choice between sleeping and spinning, and `reset`: real arithmetic and a clock that comes back at or after each deadline.
- Command line, printing, throughput, idle-time and poll diagnostics.
- Random session ids and the reading of clocks are parameters; the transfer time in COMPLETE_ACK is a parameter of the server's step.
- Null payload pointers: payloads are sequences.
- SenderWindow.SenderWindow.AdvanceToFirstUnacked: does not model the base-stall times and the count of base advancements, which nothing in the protocol reads.
- SenderWindow.SenderWindow.constructor: the three exceptions are preconditions; `Handshake.StartedFitsWindow` shows that the client never meets them.
- SenderWindow.SenderWindow.MarkChunkSent: its exception is a precondition; `SenderInvariant.TransmitDecision` shows that the client never meets it.
- SenderWindow.SenderWindow.SelectNextPacket: the chunk vector and the queue are fields of sequence type that the methods reassign, so element updates in place are not captured as such.
- Serializers.SerializePacket: the exception for a payload over 65535 bytes is a precondition, as is the one for a bitmap of the wrong length in SerializeAck.
- SenderProperties.WindowSampleStats.Sample: does not model 64-bit wrap-around of the running totals.
- ProgramRuns.FinishAlwaysPossible: the client may send COMPLETE more than 10 times and the server goes on answering it for ever.
- FairRuns.EveryFairRunFinishes: likewise without the 10 attempts and the 3 seconds; and fairness is a hypothesis about the network and the scheduler, not proved of any.
- Deserializers and the other pure parts of src/protocol.cpp are functions from bytes to values rather than methods with out-parameters.

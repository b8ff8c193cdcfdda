# A verified model of ipstack's TCP endpoint

ipstack terminates TCP, UDP and other IP traffic read from a TUN device and hands it to an
application as streams. This project models the TCP endpoint (the control block and the stream
that drives it), the session table that routes packets to streams, and the fragmenting sender for
unknown transports, and proves what they keep over whole runs.

## How the model is built

- `Words`, `Packets`: machine words, headers, tuples, the flag byte.
- `TcbSpec`, `StreamSpec`: the control block and the stream as values, one function for each
  operation, branch for branch. `ReadIteration` is one turn of the `poll_read` loop, `PollRead` the
  loop, and `Run` any interleaving of arriving packets, reads, writes, flushes and shutdowns.
  A `World` is a stream with its history: `iss`, `irs`, the bytes accepted and the bytes delivered.
- `ControlBlock.Tcb`, `TcpStream.Stream`: the same as objects that change in place, with the loops of
  the source. Each method is proved equal to the function it stands for, and the four polls keep
  `Valid()`, the invariant of the next item.
- `Invariants`, `Preservation`: the invariant of every reachable state and its proof, one small lemma
  for each leaf of an iteration.
- `SendBuffer`, `SendSide`, `ReceiveSide`, `Delivery`, `Grammar`, `Speaking`, `Polls`, `Responses`,
  `Resending`, `Closing`, `Windows`, `Limits`: the results.
- `Witnesses`: runs from the start of a stream that show where an expected property fails.
- `Sessions`, `Fragments`: the session table and the sender for unknown transports.

Conventions. Arithmetic is that of a release build: 32-bit additions wrap. The only addition on
packet data that a debug build would check, in `contains`, is shown never to overflow where it is
reached (`SendBufferIsUnackedSuffix`). A panic of the source is a `Fault` after which the stream
does nothing: `LookupFailed` (the retransmission lookup), `NoRoom` (the reader's buffer is smaller
than the payload due) and `WrongProtocol`. The timer is a sequence of readings, one for each
iteration. A poll sees the inbox as it is when the poll starts, and sending on a channel always
succeeds.

## Main results

Everything about the sending side holds for all initial sequence numbers, any peer and any windows.

- The in-flight list, which an acknowledgement inside a packet reorders, is always a permutation of
  packets that lie end to end and spell the accepted bytes not yet acknowledged.
- `lastAck` never wraps; `seqno` does. `lastAck > seqno` holds exactly when `iss` plus the sequence
  numbers used up reaches 2^32, which takes a few bytes when `iss` is high. From then on, in whatever
  state, no segment is accepted and only a reset or a deadline closes the stream: the plain comparisons in `check_pkt_type` agree with RFC 9293 exactly while `lastAck <= seqno`.
- The retransmission lookup fails exactly while `lastAck` is still `iss`: the handshake was completed
  by an acknowledgement of `iss`, which the code accepts, and nothing has been acknowledged since. No
  run fails it in which the completing segment acknowledges the SYN; two acknowledgements of `iss` do.
  What is resent carries the missing byte exactly when no empty packet is recorded in front of it and
  there is room for payload; none is as long as no write returns Ready(0).
- Every data packet carries the bytes its sequence number stands for, every accepted byte is on the
  wire, there is one SYN and one FIN, each at its place, and no data follows the FIN. A FIN caused by
  shutdown comes after every byte has been acknowledged.
- Every packet is of one of six shapes, with its flags, TTL, lengths and limits in the numbers of the
  protocol, a packet that ends the stream comes last, and each turn of the read loop sends one packet
  when it has reason to and none otherwise.
- If all segments agree with one byte stream, what is delivered is a prefix of it for as long as `ack`
  counts exactly the bytes delivered, and all that has arrived, in any order, is delivered. The peer's
  FIN breaks this: it is counted wherever it lies, and bytes are then delivered across a hole exactly
  when a payload is buffered at one of the next two sequence numbers. Met with none there, or after the
  whole stream, it leaves what is delivered as it is.
- A read that waits has left nothing undone, and one poll completes a close, active or passive, from any
  inbox that holds the acknowledgements for it.
- The session table never misroutes, but a session can be ended by another stream of its tuple: a
  refused packet leaves behind a TTL-0 packet that removes whatever session the tuple has by then.

## Model

| member | source | states |
|---|---|---|
| Packets.FlagByteRoundTrip | src/packet.rs:157-186 | Reading the flag byte back bit by bit gives the flags it was built from |
| Packets.FlagBytesDecide | src/packet.rs:157-186 | Comparing flag bytes is comparing flags, so the branches of the read loop are exact |
| Packets.FlagBits | src/packet.rs:157-186 | The accumulated byte is the flag byte, and decodes to the flags |
| Packets.TupleDecides | src/packet.rs:90-118 | Two packets have one tuple iff both addresses, both ports and the protocol agree |
| TcbSpec.AcceptedIffPlainlyBetween | src/stream/tcb.rs:144-173 | A segment is not Invalid iff lastAck <= ackno <= seqno as plain numbers; then the test of RFC 9293 holds too |
| TcbSpec.AcceptanceIsStandardIffUnwrapped | src/stream/tcb.rs:144-173 | The test equals that of section 3.10.7.4 of RFC 9293 on all segments iff lastAck <= seqno |
| TcbSpec.SegmentClasses | src/stream/tcb.rs:144-173 | Each of the six classes by header fields alone, for all numbers: a request is exactly a duplicate acknowledgement, a keep-alive exactly a repeated one just below ack that is no duplicate, a window update exactly the other repeated ones |
| TcbSpec.BufferedBytesRemove | src/stream/tcb.rs:77-83 | The fold over buffered payloads is independent of the order of keys |
| TcbSpec.BufferedBytesInsert | src/stream/tcb.rs:70-83 | A newly stored segment takes exactly its length from the receive window |
| SendBuffer.AppendRepresents | src/stream/tcb.rs:65-69 | Recording a packet appends its bytes to the unacknowledged queue |
| SendBuffer.AcknowledgeRepresents | src/stream/tcb.rs:174-193 | An acknowledgement drops exactly the acknowledged prefix of the queue, inside a packet or between packets, in whatever order the list is |
| SendBuffer.StaleAcknowledgement | src/stream/tcb.rs:174-193 | An acknowledgement below the queue leaves the list unchanged |
| Witnesses.PartialAckReorders | src/stream/tcb.rs:179-187 | An acknowledgement inside a packet puts what is left of it behind the packets after it |
| SendBuffer.RepresentsInside | src/stream/tcb.rs:211-222 | Every packet of the list is the piece of the queue its sequence number says |
| SendBuffer.RepresentsHead | src/stream/tcp.rs:444-451 | A non-empty queue has a packet at its first byte |
| ControlBlock.Tcb.constructor | src/stream/tcb.rs:44-64 | The initial control block |
| ControlBlock.Tcb.AddInflightPacket | src/stream/tcb.rs:65-69 | In place, equal to AddInflight |
| ControlBlock.Tcb.AddUnorderedPacket | src/stream/tcb.rs:70-76 | In place, equal to AddUnordered; a segment below ack is dropped |
| ControlBlock.Tcb.GetAvailableReadBufferSize | src/stream/tcb.rs:77-83 | The loop computes 16384 less the buffered bytes, at least 0 |
| ControlBlock.Tcb.GetUnorderedPackets | src/stream/tcb.rs:84-90 | Returns and removes the payload at ack |
| ControlBlock.Tcb.AddSeqOne | src/stream/tcb.rs:91-93 | In place, equal to AddSeqOne |
| ControlBlock.Tcb.AddAck | src/stream/tcb.rs:97-99 | In place, equal to AddAck |
| ControlBlock.Tcb.ChangeSendWindow | src/stream/tcb.rs:112-118 | In place, equal to ChangeSendWindow, whose average Windows bounds |
| ControlBlock.Tcb.CheckPacketType | src/stream/tcb.rs:144-173 | In place, equal to CheckPktType, whose classes SegmentClasses gives; acceptance iff lastAck <= ackno <= seqno |
| ControlBlock.Tcb.Position | src/stream/tcb.rs:179-179 | The search loop finds the first packet containing the acknowledgement |
| ControlBlock.Tcb.RetainUnacked | src/stream/tcb.rs:188-191 | The loop keeps exactly the packets not acknowledged in full |
| ControlBlock.Tcb.ChangeLastAck | src/stream/tcb.rs:174-193 | In place, equal to ChangeLastAck, which drops a prefix of the queue |
| StreamSpec.MaxPayload | src/stream/tcp.rs:89-94 | The payload limit leaves room for the headers in the 16-bit length field, so setting it never fails |
| StreamSpec.IterationDescends | src/stream/tcp.rs:180-395 | Every iteration that goes round again consumes a packet or climbs to a later state, so the loop ends |
| Preservation.IterationKeeps | src/stream/tcp.rs:180-395 | One iteration keeps the invariant and undoes nothing: state, wire, lastAck, shutdown, bytes |
| Preservation.ReadKeeps | src/stream/tcp.rs:175-396 | So does a whole read, for any inbox and timer |
| Preservation.PollWriteKeeps | src/stream/tcp.rs:400-434 | So does a write |
| Preservation.ShutKeeps | src/stream/tcp.rs:468-481 | So does a shutdown |
| Preservation.RunKeeps | src/stream/tcp.rs:174-482 | So does every run |
| Preservation.LookupSucceedsIff | src/stream/tcp.rs:444-463 | With something outstanding, a packet starts at lastAck iff lastAck is not iss |
| Preservation.RetransmitKeeps | src/stream/tcp.rs:298-305 | A retransmission request panics iff lastAck is iss, and otherwise keeps the invariant |
| Preservation.RevPacketAddressed | src/stream/tcp.rs:96-171 | Every packet built goes from the dialled address to the peer of this stream |
| SendSide.SequenceSpace | src/stream/tcp.rs:220-256 | seqno = iss + SYN + bytes accepted + FIN modulo 2^32, at most one of each, at their places, no data after the FIN |
| SendSide.OutstandingBound | src/stream/tcb.rs:194-196 | At most 16383 + (mtu - headers) + 1 outstanding across wrap; lastAck never wraps; wrapped iff the total passes 2^32 |
| SendSide.SendBufferIsUnackedSuffix | src/stream/tcb.rs:174-193 | In every unwrapped Established state the in-flight list is the unacknowledged suffix of the accepted bytes, and no packet end overflows |
| SendSide.WireCarriesSent | src/stream/tcp.rs:424-451 | Every data packet, first or resent or cut short, carries the accepted bytes at its sequence number |
| SendSide.OverlapsAgree | src/stream/tcp.rs:424-451 | Two packets covering a sequence number modulo 2^32 carry the same byte there, for every iss and across the wrap, while at most 2^32 bytes are accepted |
| Grammar.PacketIsExact | src/stream/tcp.rs:89-171 | A built packet has exactly these headers and numbers, and keeps of the payload exactly what the window and mtu - 40, or mtu - 60 over IPv6, both leave room for |
| Grammar.WireIsWellFormed | src/stream/tcp.rs:96-171 | In every reachable state each packet of an open stream has TTL 64, is exactly SYN, FIN, PSH or nothing with ACK, fits the link, and carries data only with PSH; a closed stream has sent one more, the last: RST and ACK with TTL 64, or no flags with TTL 0 |
| Speaking.SpeaksWhenItShould | src/stream/tcp.rs:180-395 | An iteration sends or queues one packet when it has a reason (the end, a deadline, the SYN, a delivery, a FIN, a segment that calls for an answer, each by its fields) and none otherwise |
| Polls.WriteIsExact | src/stream/tcp.rs:400-434 | A write fails iff not established, waits iff 16384 or more are outstanding modulo 2^32 or the window is below half the average, and otherwise sends, records and reports exactly what window and link leave room for, as PSH and ACK |
| Polls.DeliveryIsAcknowledged | src/stream/tcp.rs:228-239 | A read that delivers has sent, as its last packet, an ACK with TTL 64 for all it has counted |
| Polls.FirstReadAnswersSyn | src/stream/tcp.rs:206-226 | The first read sends SYN and ACK at iss, acknowledging irs, with a window of 16384, and waits |
| Polls.DeadlineEndsRead | src/stream/tcp.rs:209-219 | The timer is read once a turn; the turn in which it has fired is the last, and the stream is closed |
| Polls.HangUpEndsReads | src/stream/tcp.rs:392-393 | With nothing to do a read waits, or reports the end iff the channel has ended |
| Polls.FlushIsExact | src/stream/tcp.rs:436-466 | Between polls a flush changes nothing and succeeds iff the stream is established |
| Polls.ShutdownAfterTheEnd | src/stream/tcp.rs:468-474 | A shutdown that is finished, or of a closed stream, succeeds at once and sends nothing |
| Polls.ShutdownSeesDeadline | src/stream/tcp.rs:468-481 | A shutdown past the deadline times out and closes as a read does |
| SendSide.NothingLeftUnsaid | src/stream/tcp.rs:228-256 | Every accepted byte is on the wire, a closed stream has said so, and up to FinWait1 the current ack has been announced by a packet with the ACK flag and TTL 64, unless the reader had no room |
| SendSide.ShutdownFinIsGraceful | src/stream/tcp.rs:247-256 | Any iteration of any poll that goes from Established to FinWait1(false) was asked to shut down and has every accepted byte acknowledged and no data in flight; in every continuation nothing more is accepted and all stays acknowledged |
| SendSide.GracefulClose | src/stream/tcp.rs:247-256 | In every reachable state with a FIN on the wire, unless it answered the peer's FIN (ack two past the delivered bytes), every accepted byte is acknowledged |
| SendSide.AtMostSixChanges | src/stream/tcp.rs:193-390 | Every state change, inside reads too, climbs; at most six in any run; Closed is final |
| SendSide.NothingQueuedIsLost | src/stream/tcp.rs:181-192 | What is sent or queued only grows by appending; a packet waits at a poll boundary only when closed; no retransmission request outlives a poll |
| SendSide.OneWay | src/stream/tcp.rs:31-41 | lastAck never moves back; after shutdown nothing is delivered and ack moves by at most 2 |
| SendSide.LookupFailureLeavesSynUnacked | src/stream/tcp.rs:452-463 | A failed lookup means lastAck is still iss |
| SendSide.LookupNeverFails | src/stream/tcp.rs:444-463 | No run reaches the panic in which the first segment fit to complete the handshake acknowledges the SYN, whatever comes before or after it |
| SendSide.LookupNeverFailsAgain | src/stream/tcp.rs:444-463 | From any state with lastAck > iss no run reaches the panic, for any peer |
| Witnesses.UnackedSynCanPanic | src/stream/tcp.rs:273-305 | Two bare acknowledgements of iss, each routed to this stream, reach the panic |
| Limits.WrappedForGood | src/stream/tcb.rs:149-172 | Once lastAck > seqno, in any state and any run, lastAck is frozen, nothing is stored, and the state changes at most to answer a FIN counted before or to Closed |
| Limits.WrappedNeverCloses | src/stream/tcb.rs:149-172 | With lastAck > seqno in any state but Closed, a run without a reset in the inbox or among the arrivals and without a passed deadline never closes: no handshake and no close completes |
| Witnesses.WindowCanWrap | src/stream/tcb.rs:149-172 | From iss = 2^32 - 2 the handshake and a write of two bytes reach lastAck > seqno |
| Responses.ShutdownSendsFin | src/stream/tcp.rs:247-256 | A shutdown with nothing outstanding puts FIN and ACK with the current numbers on the wire at once |
| Responses.FreeBufferIsAdvertised | src/stream/tcp.rs:206-207 | Every packet an iteration builds advertises exactly 16384 less the buffered bytes, at least 0, and carries no more than the peer's window |
| Responses.RequestIsServed | src/stream/tcp.rs:298-305 | A retransmission request sends one packet at lastAck, PSH and ACK, with as much of the first packet recorded there as window and link leave room for; so it carries the missing byte iff that packet is non-empty and there is room |
| Resending.DuplicateBringsByte | src/stream/tcp.rs:298-305 | In a run of which no write returned Ready(0), a read that gets to a duplicate acknowledgement resends the byte at lastAck whenever window and link leave room |
| Witnesses.EmptyPacketHidesData | src/stream/tcp.rs:405-463 | A run in which the byte at lastAck is asked for and an empty packet is resent: a first window of 0 let a write record it |
| Responses.ProbeIsAnswered | src/stream/tcp.rs:291-297 | A read that gets to a keep-alive probe, given by its fields, puts an ACK with the current numbers on the wire, whatever else is in the inbox |
| Closing.HowReadsEnd | src/stream/tcp.rs:180-268 | A read that waits has emptied the inbox, delivered or after shutdown dropped all that is due, and sent all that is queued; a read closes only by failing; TimedOut means a passed deadline and a reset to the peer as the last packet, ConnectionReset a reset in the inbox and, as ConnectionAborted, a TTL-0 packet to the session table; a read that starts past the deadline in a state before FinWait2(false) times out; a reset anywhere in the inbox closes unless bytes are delivered first |
| Closing.ClosingMovesOn | src/stream/tcp.rs:368-390 | In FinWait1(false) and FinWait2(true) an accepted ACK or FIN moves on by one state with exactly these changes, and nothing else does |
| Closing.PeerFinIsAnswered | src/stream/tcp.rs:340-389 | A read that gets to an accepted FIN puts an ACK on the wire, of ack + 1 in Established and FinWait1(false) and of ack in FinWait2(true), whatever follows |
| Closing.CloseCompletes | src/stream/tcp.rs:368-390 | A closing stream is closed by one read whose inbox holds the acknowledgements its state waits for, among any other TCP segments |
| Closing.ShutdownCompletes | src/stream/tcp.rs:247-256 | A shutdown closes within one poll when the inbox acknowledges everything outstanding, in any number of harmless segments, and then twice the FIN sent in between |
| Closing.PeerCloseCompletes | src/stream/tcp.rs:340-346 | A read that gets to the peer's FIN, with nothing buffered at the next two numbers, puts its ACK and then our FIN on the wire, each with exact numbers, and closes when that is acknowledged in the same inbox |
| Closing.PrefixAfterPeerFin | src/stream/tcp.rs:340-346 | When the peer's FIN is met with nothing buffered at the next two numbers, delivered stays the prefix of the peer's stream it was, in every continuation |
| ReceiveSide.IterationGathers | src/stream/tcp.rs:228-367 | An iteration stores at most the packet it took, delivers only the payload at ack, or panics: for want of room only when that payload does not fit, over the protocol only at a packet that is not TCP |
| ReceiveSide.NoFalseEnd | src/stream/tcp.rs:193-239 | A read yields no more than there is room for; one without bytes and without error means closed or channel ended; none delivers after shutdown |
| ReceiveSide.TcpNeverPanics | src/stream/tcp.rs:259-261 | A stream sent only TCP packets never reaches the protocol panic, in any run |
| ReceiveSide.Reassembly | src/stream/tcp.rs:306-367 | For segments that agree with one stream, delivered is a prefix of it while ack counts exactly delivered; before the peer's FIN it does, and nothing more is acknowledged |
| ReceiveSide.WholeStreamStays | src/stream/tcp.rs:228-239 | Of a peer that sends nothing past its stream, once all bytes are delivered nothing else ever is, in every continuation, FIN or not |
| Delivery.HarmlessIsAbsorbed | src/stream/tcp.rs:280-367 | In Established every segment that is no reset or FIN, nor a bare ACK of iss with the SYN unacknowledged, leaves exactly its acknowledgement, window and payload: ACK whenever accepted and not old, PSH only when next |
| Delivery.ArrivedIsDelivered | src/stream/tcb.rs:70-90 | Segments tiling a range from ack, buffered or in the inbox in any order, marked ACK or PSH, with any acknowledgements that are accepted when reached and among any other harmless segments, are all delivered in sequence by as many reads |
| Delivery.EarlySegmentKeptIff | src/stream/tcb.rs:70-76 | A new accepted segment d ahead of ack is kept iff ack + d < 2^32; past the wrap it is dropped as old |
| Witnesses.WrapLosesEarlySegment | src/stream/tcb.rs:70-76 | A run whose segments agree with one stream and together hold all of it, in which the byte past the wrap, arriving early, is lost |
| Delivery.DeliveryAfterPeerFin | src/stream/tcp.rs:340-346 | After the peer's FIN nothing more is ever delivered iff nothing is buffered at the next two sequence numbers |
| Witnesses.EarlyFinSkipsByte | src/stream/tcp.rs:340-346 | A run whose segments all agree with one stream, in which the peer's FIN makes delivered no prefix of it |
| Windows.AverageBetween | src/stream/tcb.rs:112-118 | The average lies between the smallest and largest of 1 and the windows heard |
| Windows.AverageError | src/stream/tcb.rs:112-118 | avg * count <= sum <= avg * count + count * (count - 1) / 2 |
| Windows.AverageNeverBlocksSteadyPeer | src/stream/tcp.rs:410-415 | In every run the average is that of windows of arrived packets, in order, each once, and lies between any bounds on 1 and the arrived windows; while the latest window is at least half the upper bound, a write waits iff 16384 or more are outstanding |
| TcpStream.Stream.constructor | src/stream/tcp.rs:57-87 | A new stream satisfies the invariant |
| TcpStream.Stream.CreateRevPacket | src/stream/tcp.rs:96-171 | In place, equal to RevPacket, which PacketIsExact gives in numbers |
| TcpStream.Stream.Enqueue | src/stream/tcp.rs:199-200 | Queues a control packet; the slot is free at every call |
| TcpStream.Stream.Find | src/stream/tcp.rs:445-445 | The search loop finds the first in-flight packet that starts there |
| TcpStream.Stream.SendNow | src/stream/tcp.rs:235-237 | Sends a control packet with the current numbers |
| TcpStream.Stream.ChangeState | src/stream/tcb.rs:106-108 | Changes the state and nothing else |
| TcpStream.Stream.FlushInner | src/stream/tcp.rs:436-466 | In place, equal to Flushed: resends the requested packet or panics |
| TcpStream.Stream.Abort | src/stream/tcp.rs:262-268 | In place, equal to Abort |
| TcpStream.Stream.OnAck | src/stream/tcp.rs:280-338 | In place, equal to InEstablished for segments marked ACK |
| TcpStream.Stream.OnEstablished | src/stream/tcp.rs:279-367 | In place, equal to InEstablished |
| TcpStream.Stream.OnClosing | src/stream/tcp.rs:368-390 | In place, equal to InFinWait1 and InFinWait2, whose effect ClosingMovesOn and PeerFinIsAnswered give |
| TcpStream.Stream.DeliverOrReceiveInner | src/stream/tcp.rs:228-394 | In place, equal to DeliverOrReceive, whose packets DeliveryIsAcknowledged and SpeaksWhenItShould give |
| TcpStream.Stream.IterateAfterWindow | src/stream/tcp.rs:209-394 | In place, equal to AfterWindow |
| TcpStream.Stream.SendPending | src/stream/tcp.rs:181-192 | In place, serves a request to retransmit and then sends what is queued, or stops at the panic |
| TcpStream.Stream.WriteInner | src/stream/tcp.rs:405-433 | In place, equal to PollWrite, which WriteIsExact gives in numbers |
| TcpStream.Stream.ProcessPacket | src/stream/tcp.rs:258-391 | In place, equal to Process |
| TcpStream.Stream.Iterate | src/stream/tcp.rs:181-394 | In place, equal to ReadIteration |
| TcpStream.Stream.ReadInner | src/stream/tcp.rs:180-395 | The loop ends and equals PollRead |
| TcpStream.Stream.PollRead | src/stream/tcp.rs:175-396 | One step of the run, keeps the invariant |
| TcpStream.Stream.PollWrite | src/stream/tcp.rs:400-434 | One step of the run, keeps the invariant |
| TcpStream.Stream.PollFlush | src/stream/tcp.rs:436-466 | One step of the run, keeps the invariant |
| TcpStream.Stream.PollShutdown | src/stream/tcp.rs:468-481 | One step of the run, keeps the invariant, delivers nothing |
| Sessions.RoutingIsConsistent | src/lib.rs:131-199 | Over every interleaving each key leads to the stream of that tuple, and streams get only packets of their tuple, protocol and family |
| Sessions.PacketGoesToItsStream | src/lib.rs:182-193 | A packet with a listening session is appended to that one queue |
| Sessions.FirstPacketDecides | src/lib.rs:182-242 | Without a listening session UDP or a SYN opens a stream under its tuple; any other TCP packet queues a reset, unless it is one, and the TTL-0 packet of the dropped stream |
| Sessions.GoneStreamIsReplaced | src/lib.rs:182-198 | A session whose stream is gone does not keep its tuple: the next SYN or UDP packet opens a stream in its place |
| Sessions.EndRemovesOnlyItself | src/lib.rs:253-256 | A TTL-0 packet removes the key of the stream that made it, a TCP key, and no other |
| Sessions.RefusalEndsNewSession | src/stream/tcp.rs:66-86 | From any table: a packet refused just before a SYN of the same tuple removes the session that the SYN opened, while its stream still listens |
| Sessions.StreamSendsItsOwn | src/stream/tcp.rs:96-171 | Everything a reachable TCP stream has sent maps back to its own key |
| Sessions.QueuedPacketsAreTcp | src/lib.rs:182-199 | Everything queued for a TCP stream is TCP of its tuple, and the tuple is of one address family |
| Sessions.ProtocolPanicUnreachable | src/stream/tcp.rs:259-261 | A stream, in any run, fed with what any run of the table has queued for it never reaches the protocol panic |
| Sessions.Stack.constructor | src/lib.rs:125-129 | The table starts empty and consistent |
| Sessions.Stack.Create | src/lib.rs:201-242 | In place, equal to CreateStream: SYN or UDP opens, anything else is refused, with the packet that dropping the refused stream sends |
| Sessions.Stack.ProcessDeviceRead | src/lib.rs:159-199 | In place, equal to DeviceRead; returns an unknown network iff the bytes do not parse, an unknown transport iff it is neither TCP nor UDP, a new stream iff no stream listens and the packet is UDP or a SYN, which its key then leads to; nothing else changes the keys |
| Sessions.Stack.ProcessUpstreamRecv | src/lib.rs:244-274 | In place, equal to UpstreamRecv |
| Fragments.Send | src/stream/unknown.rs:51-82 | Over IPv4 the packets fit the link, carry full lines and concatenate to the payload; over IPv6 one packet carries what fits |
| Fragments.PiecesIsCeiling | src/stream/unknown.rs:51-61 | The number of packets is max(1, ceil(len / line)) |
| Fragments.LoopEndsIff | src/stream/unknown.rs:51-61 | The IPv4 loop ends iff the link has room for payload or there is none |

## Left out

- Header parsing and writing, checksums and the errors they can return: code of the etherparse library; headers are 20 bytes (IPv4, TCP) and 40 bytes (IPv6).
- Wakers, timers as such, spawning, and sends on a closed channel: the timer is an input, channels are sequences.
- src/stream/tcp_wrapper.rs: delegation and a timed shutdown on drop.
- The packet that dropping an accepted stream sends: for the session table it is one more packet the stream makes.
- src/stream/udp.rs beyond the key of its session: a first-in first-out queue with truncation.
- Removal of UDP sessions: UDP streams send no TTL-0 packet, so their entries stay until replaced.
- Total outstanding data is not bounded by the peer's window: the code caps each packet, not the sum.
- Configuration, packet-information prefixes and device I/O.
- Reassembly: the peer's stream is shorter than 2^32 bytes, so that a sequence number names one byte of it.
- OverlapsAgree: for at most 2^32 accepted bytes; with more, one number stands for two bytes and WireCarriesSent speaks of offsets instead.
- ArrivedIsDelivered: for a range that does not pass 2^32; beyond, the code drops an early segment (EarlySegmentKeptIff, WrapLosesEarlySegment).
- GracefulClose: says nothing of a stream that panicked for want of room in the reader's buffer, whose `ack` no longer tells the two kinds of FIN apart; ShutdownFinIsGraceful does.
- ControlBlock.Tcb.ChangeSendWindow: the 64-bit product is unbounded here; since the average stays below 2^16 it overflows only after 2^48 windows.
- TcpStream.Stream.constructor: a debug build panics where irs + 1 wraps.

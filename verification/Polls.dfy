/** What each poll returns and does, in the numbers of the protocol, and that a delivery is acknowledged at once. */
module Polls {
  import opened Words
  import opened Packets
  import opened TcbSpec
  import opened StreamSpec
  import opened Invariants
  import opened Preservation
  import opened SendSide
  import opened ReceiveSide
  import opened Grammar
  import opened Responses

  // --- Writing ---

  /** How much of a write fits the peer's window and the link. */
  function Fitting(s: StreamState, buf: seq<byte>): nat {
    Min(|buf|, Min(s.tcb.sendWindow, LinkRoom(s.ends, s.mtu)))
  }

  /** A data packet at the current sequence number: PSH|ACK with TTL 64. */
  ghost predicate Pushes(p: NetworkPacket, s: StreamState, payload: seq<byte>) {
    && Addressed(p, s.ends, 64)
    && p.transport.tcp == TcpHeader(s.ends.dst.port, s.ends.src.port, s.tcb.seqno, s.tcb.ack, s.tcb.recvWindow,
                                    Flags(false, false, false, true, true, false, false, false))
    && p.payload == payload
  }

  lemma WriteSends(s: StreamState, buf: seq<byte>)
    ensures Pushes(RevPacket(s, PSH_ACK, TTL, s.tcb.seqno, buf), s, buf[..Fitting(s, buf)])
  {
    hide RevPacket, Addressed, LinkRoom;
    PacketIsExact(s, PSH_ACK, TTL, s.tcb.seqno, buf);
  }

  lemma WriteGoesThrough(s: StreamState, buf: seq<byte>)
    requires s.fault == NoFault && s.tcb.retransmission == None && s.tcb.state == Established
    requires s.tcb.average.avg / 2 <= s.tcb.sendWindow && !SendBufferFull(s.tcb)
    ensures var p, n := RevPacket(s, PSH_ACK, TTL, s.tcb.seqno, buf), Fitting(s, buf);
            PollWrite(s, buf) ==
            WriteResult(s.(out := s.out + [p],
                           tcb := s.tcb.(seqno := (s.tcb.seqno + n) % 0x1_0000_0000,
                                         inflight := s.tcb.inflight + [InflightPacket(s.tcb.seqno, buf[..n])])),
                        Ready(n))
  {
    hide RevPacket, Addressed, LinkRoom;
    WriteSends(s, buf);
    assert s.tcb.(retransmission := None) == s.tcb;
  }

  /**
   A write fails exactly when the stream is not established and waits exactly when 16384 sequence numbers or
   more are outstanding or the peer's window is below half its average, and then changes nothing. Any other
   write sends, records and reports exactly what fits the peer's window and the link.
   */
  lemma WriteIsExact(w: World, buf: seq<byte>) returns (p: NetworkPacket)
    requires Reachable(w) && w.s.fault == NoFault
    ensures var s, r, n := w.s, PollWrite(w.s, buf), Fitting(w.s, buf);
            var full := 16384 <= (s.tcb.seqno - s.tcb.lastAck) % 0x1_0000_0000 || s.tcb.sendWindow < s.tcb.average.avg / 2;
            if s.tcb.state != Established then r == WriteResult(s, Failed(NotConnected))
            else if full then r == WriteResult(s, Pending)
            else
              && r.poll == Ready(n)
              && Pushes(p, s, buf[..n])
              && r.s == s.(out := s.out + [p],
                           tcb := s.tcb.(seqno := (s.tcb.seqno + n) % 0x1_0000_0000,
                                         inflight := s.tcb.inflight + [InflightPacket(s.tcb.seqno, buf[..n])]))
              && Step(w, Write(buf)).sent == w.sent + buf[..n]
  {
    hide Reachable, Sound, RevPacket, Pushes, LinkRoom, Resend, AddInflight;
    ReachableKeeps(w);
    NoRequest(w);
    p := RevPacket(w.s, PSH_ACK, TTL, w.s.tcb.seqno, buf);
    WriteSends(w.s, buf);
    if w.s.tcb.state == Established && w.s.tcb.average.avg / 2 <= w.s.tcb.sendWindow && !SendBufferFull(w.s.tcb) {
      WriteGoesThrough(w.s, buf);
      hide PollWrite;
    }
  }

  // --- Flushing and shutting down ---

  /** Between polls there is nothing to flush: a flush succeeds exactly when the stream is established, and changes nothing. */
  lemma FlushIsExact(w: World)
    requires Reachable(w) && w.s.fault == NoFault
    ensures FlushPoll(w.s) == if w.s.tcb.state == Established then Ready(0) else Failed(NotConnected)
    ensures Step(w, Flush) == w
  {
    hide Reachable, Sound;
    ReachableKeeps(w);
    NoRequest(w);
  }

  /** A finished shutdown stays finished, and one that a closed stream is asked for succeeds at once. */
  lemma ShutdownAfterTheEnd(w: World, clock: seq<bool>)
    requires Reachable(w) && w.s.fault == NoFault && (w.s.shutdown == Finished || w.s.tcb.state == Closed)
    ensures var r := PollShutdown(w.s, clock);
            r.poll == Ready(0) && r.bytes == [] && r.s.shutdown == Finished && Wire(r.s) == Wire(w.s)
  {
    hide AfterWindow;
  }

  // --- Delivering ---

  lemma HandedIsAnswered(s: StreamState, room: nat)
    requires s.packetToSend == None && s.fault == NoFault
    ensures var it := DeliverOrReceive(s, room);
            it.Stop? && it.bytes != [] ==>
              && it.s.packetToSend == None && |it.s.out| == |s.out| + 1
              && Answers(it.s.out[|s.out|], it.s.tcb.seqno, it.s.tcb.ack)
  {
    hide RevPacket, Process, Answers, AnswerFin, SendFin;
    var s1 := s.(tcb := TakeUnordered(s.tcb));
    if Due(s) {
      ControlAnswers(s1.(tcb := AddAck(s1.tcb, Len32(s.tcb.unordered[s.tcb.ack]))));
    } else if s.inbox != [] {
      ProcessGathers(s1.(inbox := s.inbox[1..]), s.inbox[0]);
    }
  }

  ghost predicate LastAnswers(s: StreamState) {
    s.packetToSend == None && s.out != [] && Answers(s.out[|s.out| - 1], s.tcb.seqno, s.tcb.ack)
  }

  lemma IterationAnswers(s: StreamState, fired: bool, room: nat)
    requires s.fault == NoFault && s.tcb.retransmission == None
    ensures var it := ReadIteration(s, fired, room);
            it.Stop? && it.bytes != [] ==> LastAnswers(it.s)
  {
    hide RevPacket, DeliverOrReceive, AvailableReadBuffer, Answers;
    var s2 := SendQueued(s);
    HandedIsAnswered(s2.(tcb := ChangeRecvWindow(s2.tcb, AvailableReadBuffer(s2.tcb))), room);
  }

  /** A read that delivers has acknowledged all it counts with its last packet, an ACK with TTL 64. */
  lemma {:induction false} DeliveryIsAcknowledged(w: World, room: nat, clock: seq<bool>)
    requires Turning(w)
    ensures var r := PollRead(w.s, room, clock);
            r.bytes != [] ==> LastAnswers(r.s)
    decreases |w.s.inbox|, 6 - Rank(w.s.tcb.state)
  {
    hide Inv, Sound, Advances, ReadIteration, LastAnswers;
    var fired := clock != [] && clock[0];
    var it := ReadIteration(w.s, fired, room);
    NoRequest(w);
    IterationAnswers(w.s, fired, room);
    IterationDescends(w.s, fired, room);
    IterationKeeps(w, fired, room);
    if it.Again? {
      assert w.delivered + [] == w.delivered;
      DeliveryIsAcknowledged(w.(s := it.s), room, if clock == [] then [] else clock[1..]);
    }
  }

  // --- Opening ---

  lemma SynIsQueued(ends: Endpoints, mtu: u16, iss: u32, irs: u32, room: nat)
    ensures var s := NewStream(ends, mtu, iss, irs);
            var it := ReadIteration(s, false, room);
            && it.Again?
            && it.s.packetToSend.Some?
            && it.s == s.(packetToSend := it.s.packetToSend,
                          tcb := s.tcb.(state := SynReceived(true), seqno := (iss + 1) % 0x1_0000_0000, recvWindow := 16384))
            && var p := it.s.packetToSend.value;
            && Addressed(p, ends, 64)
            && p.transport.tcp == TcpHeader(ends.dst.port, ends.src.port, iss, (irs + 1) % 0x1_0000_0000, 16384,
                                            Flags(false, false, false, true, false, false, true, false))
  {
    hide RevPacket, Addressed, DeliverOrReceive;
    var s := NewStream(ends, mtu, iss, irs);
    var s1 := s.(tcb := ChangeRecvWindow(s.tcb, 16384));
    assert AvailableReadBuffer(s.tcb) == 16384;
    PacketIsExact(s1, SYN_ACK, TTL, iss, []);
  }

  lemma QueuedIsSentFirst(s: StreamState, room: nat)
    requires s.fault == NoFault && s.tcb.retransmission == None && s.tcb.state == SynReceived(true) && s.shutdown == NotRequested
    requires s.inbox == [] && !s.hungUp && s.tcb.unordered == map[] && s.packetToSend.Some?
    ensures var it := ReadIteration(s, false, room);
            && it == Stop(it.s, Pending, [])
            && it.s == s.(packetToSend := None, out := s.out + [s.packetToSend.value], tcb := it.s.tcb)
            && it.s.tcb == s.tcb.(recvWindow := it.s.tcb.recvWindow)
  {
    hide RevPacket, AvailableReadBuffer;
    assert s.tcb.unordered - {s.tcb.ack} == s.tcb.unordered;
  }

  /** The first read answers the SYN: SYN|ACK at `iss`, acknowledging `irs`, with the whole read buffer as the window. */
  lemma FirstReadAnswersSyn(ends: Endpoints, mtu: u16, iss: u32, irs: u32, room: nat)
    ensures var r := PollRead(NewStream(ends, mtu, iss, irs), room, []);
            && r.poll == Pending && r.bytes == []
            && r.s.tcb.state == SynReceived(true) && r.s.tcb.seqno == (iss + 1) % 0x1_0000_0000
            && r.s.packetToSend == None && |r.s.out| == 1
            && Addressed(r.s.out[0], ends, 64)
            && r.s.out[0].transport.tcp == TcpHeader(ends.dst.port, ends.src.port, iss, (irs + 1) % 0x1_0000_0000, 16384,
                                                     Flags(false, false, false, true, false, false, true, false))
  {
    hide ReadIteration, PollRead, Addressed;
    var s := NewStream(ends, mtu, iss, irs);
    SynIsQueued(ends, mtu, iss, irs, room);
    var s1 := ReadIteration(s, false, room).s;
    QueuedIsSentFirst(s1, room);
    ReadGoesOn(s, room);
    ReadStops(s1, room);
  }

  lemma ReadStops(s: StreamState, room: nat)
    requires ReadIteration(s, false, room).Stop?
    ensures var it := ReadIteration(s, false, room);
            PollRead(s, room, []) == ReadResult(it.s, it.poll, it.bytes)
  {
    hide ReadIteration;
  }

  // --- The end of a read ---

  /** The iterations that a read makes. */
  ghost function Turns(s: StreamState, room: nat, clock: seq<bool>): nat
    decreases |s.inbox|, 6 - Rank(s.tcb.state)
  {
    var fired := clock != [] && clock[0];
    IterationDescends(s, fired, room);
    var it := ReadIteration(s, fired, room);
    1 + if it.Again? then Turns(it.s, room, if clock == [] then [] else clock[1..]) else 0
  }

  lemma FiredStops(s: StreamState, room: nat)
    requires s.fault == NoFault && s.tcb.retransmission == None
    ensures var it := ReadIteration(s, true, room);
            it.Stop? && it.s.tcb.state == Closed && (Rank(s.tcb.state) < 5 ==> it.poll == Failed(TimedOut))
  {
    hide DeliverOrReceive, RevPacket, AvailableReadBuffer;
  }

  /** The timer is read once in every turn, and the turn in which it has fired is the last: the stream is closed. */
  lemma {:induction false} DeadlineEndsRead(w: World, room: nat, clock: seq<bool>, k: nat)
    requires Turning(w) && k < |clock| && clock[k] && k < Turns(w.s, room, clock)
    ensures k == Turns(w.s, room, clock) - 1
    ensures PollRead(w.s, room, clock).s.tcb.state == Closed && PollRead(w.s, room, clock).bytes == []
    decreases |w.s.inbox|, 6 - Rank(w.s.tcb.state)
  {
    hide Inv, Sound, Advances, ReadIteration;
    var fired := clock[0];
    var it := ReadIteration(w.s, fired, room);
    NoRequest(w);
    IterationDescends(w.s, fired, room);
    IterationKeeps(w, fired, room);
    if fired {
      FiredStops(w.s, room);
      IterationGathers(w.s, fired, room);
      ClosedHandsNothing(w.s, fired, room);
    }
    if it.Again? {
      assert w.delivered + [] == w.delivered;
      DeadlineEndsRead(w.(s := it.s), room, clock[1..], k - 1);
    }
  }

  lemma ClosedHandsNothing(s: StreamState, fired: bool, room: nat)
    requires fired && s.fault == NoFault && s.tcb.retransmission == None
    ensures var it := ReadIteration(s, fired, room);
            it.Stop? ==> it.bytes == []
  {
    hide DeliverOrReceive, RevPacket, AvailableReadBuffer;
  }

  /** A shutdown polls the timer as a read does, and hands nothing over. */
  lemma ShutdownSeesDeadline(w: World, clock: seq<bool>)
    requires Reachable(w) && w.s.fault == NoFault && w.s.shutdown != Finished
    requires clock != [] && clock[0] && Rank(w.s.tcb.state) < 5
    ensures var r := PollShutdown(w.s, clock);
            r.poll == Failed(TimedOut) && r.bytes == [] && r.s.tcb.state == Closed && r.s.shutdown == Finished
  {
    hide Reachable, Sound, AfterWindow, AvailableReadBuffer, DeliverOrReceive, RevPacket;
    ReachableKeeps(w);
    NoRequest(w);
    var s := w.s.(shutdown := Requested);
    FiredStops(s, 1);
    ClosedHandsNothing(s, true, 1);
    FiredFinishes(s, 1);
  }

  lemma FiredFinishes(s: StreamState, room: nat)
    requires s.fault == NoFault && s.tcb.retransmission == None && Rank(s.tcb.state) < 5
    ensures ReadIteration(s, true, room).s.shutdown == Finished
  {
    hide DeliverOrReceive, RevPacket, AvailableReadBuffer;
  }

  /** With nothing to do, a read waits; once the session table has hung up, it reports the end instead. */
  lemma HangUpEndsReads(w: World, room: nat)
    requires Inv(w) && Attentive(w.s) && w.s.inbox == []
    ensures PollRead(w.s, room, []).poll == if w.s.hungUp then Ready(0) else Pending
    ensures PollRead(Step(w, HangUp).s, room, []).poll == Ready(0)
    ensures PollRead(w.s, room, []).bytes == [] == PollRead(Step(w, HangUp).s, room, []).bytes
  {
    hide Inv;
    IdleIteration(w.s, room);
    IdleIteration(w.s.(hungUp := true), room);
    hide ReadIteration;
    ReadStops(w.s, room);
    ReadStops(w.s.(hungUp := true), room);
  }

  lemma IdleIteration(s: StreamState, room: nat)
    requires Attentive(s) && s.inbox == []
    ensures var it := ReadIteration(s, false, room);
            it == Stop(it.s, if s.hungUp then Ready(0) else Pending, [])
  {
    hide ReadIteration, RevPacket, AvailableReadBuffer, Process;
    IterationPrepares(s, false, room);
  }
}

/** What the endpoint owes the peer for a segment it accepts: each is answered, or takes effect, in full. */
module Responses {
  import opened Words
  import opened Packets
  import opened TcbSpec
  import opened StreamSpec
  import opened Invariants
  import opened Preservation
  import opened SendBuffer
  import opened ReceiveSide
  import opened Grammar

  // --- Retransmission ---

  /** The packet that the lookup finds, cut to the window and the link, and the byte it starts with. */
  lemma ResentFrom(w: World) returns (i: nat)
    requires Midway(w) && w.s.tcb.state == Established && w.s.tcb.lastAck < w.s.tcb.seqno && w.s.tcb.lastAck != w.iss
    ensures i == FirstAt(w.s.tcb.inflight, w.s.tcb.lastAck) < |w.s.tcb.inflight|
    ensures 0 <= w.s.tcb.lastAck - w.iss - 1 < |w.sent|
    ensures w.s.tcb.inflight[i].payload != [] ==> w.s.tcb.inflight[i].payload[0] == w.sent[w.s.tcb.lastAck - w.iss - 1]
  {
    hide Sound, Represents, PieceOf;
    LookupSucceedsIff(w);
    i := FirstAt(w.s.tcb.inflight, w.s.tcb.lastAck);
    BufferHolds(w);
    FirstBeforeLast(w);
    var lo := w.s.tcb.lastAck;
    var p := w.s.tcb.inflight[i];
    RepresentsInside(w.s.tcb.inflight, lo, w.sent[lo - w.iss - 1..], p);
    ResentPiece(lo, w.iss, w.sent, p, p.payload);
  }

  /**
   A request to retransmit puts one packet at `lastAck` on the wire, marked PSH|ACK, and changes nothing that is
   in flight. It carries as much of the first packet recorded at `lastAck` as the window and the link leave
   room for, and so the byte that is missing there exactly when that packet is not empty and there is room.
   */
  lemma RequestIsServed(w: World, h: TcpHeader)
    requires Midway(w) && w.s.tcb.state == Established && w.s.tcb.lastAck != w.iss
    requires h.flags == ACK && CheckPktType(w.s.tcb, h, []) == RetransmissionRequest
    ensures var it := InEstablished(w.s, h, []);
            var i := FirstAt(w.s.tcb.inflight, w.s.tcb.lastAck);
            && it.Again?
            && it.s.packetToSend == None
            && it.s.tcb.inflight == w.s.tcb.inflight
            && |it.s.out| == |w.s.out| + 1 && w.s.out <= it.s.out
            && i < |w.s.tcb.inflight|
            && 0 <= w.s.tcb.lastAck - w.iss - 1 < |w.sent|
            && var resent := it.s.out[|w.s.out|];
               && Addressed(resent, w.s.ends, 64)
               && resent.transport.tcp.flags == Flags(false, false, false, true, true, false, false, false)
               && (resent.transport.tcp.seqno, resent.transport.tcp.ackno) == (w.s.tcb.lastAck, w.s.tcb.ack)
               && var n := Min(|w.s.tcb.inflight[i].payload|, Min(h.window, LinkRoom(w.s.ends, w.s.mtu)));
               && resent.payload == w.s.tcb.inflight[i].payload[..n]
               && (resent.payload != [] <==> w.s.tcb.inflight[i].payload != [] && 0 < Min(h.window, LinkRoom(w.s.ends, w.s.mtu)))
               && (resent.payload != [] ==> resent.payload[0] == w.sent[w.s.tcb.lastAck - w.iss - 1])
  {
    hide Sound, Observe, RevPacket, Addressed, LinkRoom;
    RetransmitKeeps(w, h);
    var i := ResentFrom(w);
    var s1 := w.s.(tcb := ChangeSendWindow(w.s.tcb, h.window).(retransmission := None));
    PacketIsExact(s1, PSH_ACK, TTL, w.s.tcb.inflight[i].seqno, w.s.tcb.inflight[i].payload);
  }

  /** An ACK, with TTL 64, at the current sequence number for everything counted in `ack`. */
  ghost predicate Answers(p: NetworkPacket, seqno: u32, ack: u32) {
    && p.transport.Tcp?
    && Ttl(p) == 64
    && p.transport.tcp.flags == Flags(false, false, false, true, false, false, false, false)
    && p.transport.tcp.seqno == seqno
    && p.transport.tcp.ackno == ack
    && p.payload == []
  }

  lemma ControlAnswers(s: StreamState)
    ensures Answers(Control(s, ACK, TTL), s.tcb.seqno, s.tcb.ack)
  {
  }

  /** A keep-alive probe: it repeats the last acknowledgement, without payload, one below `ack`, and is no duplicate. */
  ghost predicate Probes(t: TcbState, p: NetworkPacket) {
    && p.transport.Tcp? && p.transport.tcp.flags == ACK && p.payload == []
    && p.transport.tcp.ackno == t.lastAck <= t.seqno
    && (t.lastAck == t.seqno || p.transport.tcp.window != t.sendWindow)
    && (p.transport.tcp.seqno + 1) % 0x1_0000_0000 == t.ack
  }

  /** A duplicate acknowledgement, marked ACK only. */
  ghost predicate Duplicate(t: TcbState, p: NetworkPacket) {
    && p.transport.Tcp? && p.transport.tcp.flags == ACK && p.payload == []
    && p.transport.tcp.ackno == t.lastAck < t.seqno
    && p.transport.tcp.window == t.sendWindow
  }

  lemma ProbeProcessed(s: StreamState, p: NetworkPacket)
    requires s.tcb.state == Established && s.packetToSend == None && s.fault == NoFault
    requires Probes(s.tcb, p)
    ensures var it := Process(s, p);
            && it.Again? && it.s.packetToSend.Some? && it.s.out == s.out
            && Answers(it.s.packetToSend.value, s.tcb.seqno, s.tcb.ack)
  {
    SegmentClasses(s.tcb, p.transport.tcp, p.payload);
    var s1 := s.(tcb := ChangeSendWindow(ChangeLastAck(s.tcb, p.transport.tcp.ackno), p.transport.tcp.window));
    ControlAnswers(s1);
    hide Trim, Retain, Observe, RevPacket, Answers, CheckPktType;
  }

  /** A read that gets to a keep-alive probe, just below `ack`, answers it with the current numbers, whatever follows in the inbox. */
  lemma ProbeIsAnswered(w: World, room: nat) returns (answer: NetworkPacket)
    requires Turning(w) && Attentive(w.s) && w.s.tcb.state == Established
    requires w.s.inbox != [] && Probes(w.s.tcb, w.s.inbox[0])
    ensures Wire(w.s) + [answer] <= Wire(PollRead(w.s, room, []).s)
    ensures Answers(answer, w.s.tcb.seqno, w.s.tcb.ack)
  {
    hide Sound, ReadIteration, PollRead, AvailableReadBuffer, Process;
    HeadIsProcessed(w.s, room);
    MeetingKeeps(w);
    ProbeProcessed(Meeting(w.s), w.s.inbox[0]);
    var it := ReadIteration(w.s, false, room);
    answer := it.s.packetToSend.value;
    WireQueued(Meeting(w.s), it.s, answer);
    IterationKeeps(w, false, room);
    assert w.delivered + [] == w.delivered;
    ReadKeeps(w.(s := it.s), room, []);
    ReadGoesOn(w.s, room);
  }

  // --- Shutting down ---

  /** A FIN|ACK, with TTL 64, at the current sequence number for everything counted in `ack`. */
  ghost predicate Finishes(p: NetworkPacket, seqno: u32, ack: u32) {
    && p.transport.Tcp?
    && Ttl(p) == 64
    && p.transport.tcp.flags == Flags(false, false, false, true, false, false, false, true)
    && p.transport.tcp.seqno == seqno
    && p.transport.tcp.ackno == ack
    && p.payload == []
  }

  lemma ControlFinishes(s: StreamState)
    ensures Finishes(Control(s, FIN_ACK, TTL), s.tcb.seqno, s.tcb.ack)
  {
  }

  /** With shutdown requested and nothing outstanding, the next iteration queues the FIN. */
  lemma FinIsQueued(s: StreamState, room: nat)
    requires s.fault == NoFault && s.shutdown == Requested && s.tcb.retransmission == None
    requires s.tcb.state == Established && s.tcb.lastAck == s.tcb.seqno
    ensures var it := ReadIteration(s, false, room);
            && it.Again?
            && it.s.tcb.state == FinWait1(false)
            && it.s.packetToSend.Some? && it.s.out == SendQueued(s).out
            && Finishes(it.s.packetToSend.value, s.tcb.seqno, s.tcb.ack)
            && (it.s.inbox, it.s.shutdown) == (s.inbox, s.shutdown)
            && (it.s.tcb.lastAck, it.s.tcb.seqno) == (s.tcb.lastAck, WrapAdd(s.tcb.seqno, 1))
  {
    hide Receive, AvailableReadBuffer, RevPacket, Resend, Finishes;
    var s2 := SendQueued(s);
    ControlFinishes(s2.(tcb := TakeUnordered(ChangeRecvWindow(s2.tcb, AvailableReadBuffer(s2.tcb)))));
  }

  /** A shutdown with nothing outstanding puts the FIN on the wire at once. */
  lemma ShutdownSendsFin(w: World) returns (fin: NetworkPacket)
    requires Inv(w) && w.s.fault == NoFault && w.s.shutdown != Finished
    requires w.s.tcb.state == Established && w.s.tcb.lastAck == w.s.tcb.seqno
    ensures Wire(w.s) + [fin] <= Wire(Step(w, Shut([])).s)
    ensures Finishes(fin, w.s.tcb.seqno, w.s.tcb.ack)
  {
    hide Sound, ReadIteration, PollRead, Finishes;
    var s := w.s.(shutdown := Requested);
    var w1 := w.(s := s);
    Unseen(w, s);
    NoRequest(w);
    FinIsQueued(s, 1);
    var it := ReadIteration(s, false, 1);
    fin := it.s.packetToSend.value;
    assert Wire(it.s) == Wire(w.s) + [fin];
    IterationKeeps(w1, false, 1);
    assert w.delivered + [] == w.delivered;
    ReadKeeps(w1.(s := it.s), 1, []);
    ReadGoesOn(s, 1);
  }

  // --- The advertised window ---

  /** Packets put on the wire since `wire` advertise `window` and carry no more than the peer's. */
  ghost predicate Advertise(wire: seq<NetworkPacket>, s: StreamState, window: u16) {
    && wire <= Wire(s)
    && forall i :: |wire| <= i < |Wire(s)| ==>
         Wire(s)[i].transport.Tcp? && Wire(s)[i].transport.tcp.window == window && |Wire(s)[i].payload| <= s.tcb.sendWindow
  }

  /** A packet built in a state with these windows. */
  ghost predicate Windowed(p: NetworkPacket, s: StreamState) {
    p.transport.Tcp? && p.transport.tcp.window == s.tcb.recvWindow && |p.payload| <= s.tcb.sendWindow
  }

  lemma BuiltIsWindowed(s: StreamState, flags: Flags, ttl: byte, q: u32, payload: seq<byte>)
    ensures Windowed(RevPacket(s, flags, ttl, q, payload), s)
  {
  }

  lemma NothingBuilt(s: StreamState, s': StreamState, window: u16)
    requires s'.out == s.out && s'.packetToSend == s.packetToSend
    ensures Advertise(Wire(s), s', window)
  {
  }

  lemma OneBuilt(s: StreamState, s': StreamState, p: NetworkPacket)
    requires s.packetToSend == None && Windowed(p, s'.(tcb := s'.tcb.(recvWindow := s.tcb.recvWindow)))
    requires (s'.out == s.out && s'.packetToSend == Some(p)) || (s'.out == s.out + [p] && s'.packetToSend == None)
    ensures Advertise(Wire(s), s', s.tcb.recvWindow)
  {
    assert Wire(s') == Wire(s) + [p];
  }

  lemma EstablishedAdvertises(s: StreamState, h: TcpHeader, payload: seq<byte>)
    requires s.packetToSend == None && s.fault == NoFault && s.tcb.state == Established
    ensures Advertise(Wire(s), InEstablished(s, h, payload).s, s.tcb.recvWindow)
  {
    hide RevPacket, Advertise, CheckPktType, Trim, Retain, Observe, Wire;
    var s' := InEstablished(s, h, payload).s;
    if h.flags == ACK && CheckPktType(s.tcb, h, payload) == RetransmissionRequest {
      var s1 := s.(tcb := ChangeSendWindow(s.tcb, h.window).(retransmission := None));
      var i := FirstAt(s.tcb.inflight, h.ackno);
      if i < |s.tcb.inflight| {
        var p := s.tcb.inflight[i];
        BuiltIsWindowed(s1, PSH_ACK, TTL, p.seqno, p.payload);
        OneBuilt(s, s', RevPacket(s1, PSH_ACK, TTL, p.seqno, p.payload));
      } else {
        NothingBuilt(s, s', s.tcb.recvWindow);
      }
    } else if s'.packetToSend == None {
      NothingBuilt(s, s', s.tcb.recvWindow);
    } else {
      BuiltIsWindowed(s.(tcb := AddAck(s.tcb, 1)), ACK, TTL, s.tcb.seqno, []);
      BuiltIsWindowed(s.(tcb := ChangeSendWindow(ChangeLastAck(s.tcb, h.ackno), h.window)), ACK, TTL, s.tcb.seqno, []);
      OneBuilt(s, s', s'.packetToSend.value);
    }
  }

  lemma ControlIsEmpty(s: StreamState, flags: Flags, ttl: byte)
    ensures var p := Control(s, flags, ttl);
            p.transport.Tcp? && p.transport.tcp.window == s.tcb.recvWindow && p.payload == []
  {
  }

  lemma ProcessAdvertises(s: StreamState, p: NetworkPacket)
    requires s.packetToSend == None && s.fault == NoFault
    ensures Advertise(Wire(s), Process(s, p).s, s.tcb.recvWindow)
  {
    hide RevPacket, Advertise, CheckPktType, Trim, Retain, Observe, InEstablished, Wire;
    var s' := Process(s, p).s;
    if p.transport.Tcp? && s.tcb.state == Established && !p.transport.tcp.flags.rst && CheckPktType(s.tcb, p.transport.tcp, p.payload) != Invalid {
      EstablishedAdvertises(s, p.transport.tcp, p.payload);
    } else if s'.packetToSend == None {
      NothingBuilt(s, s', s.tcb.recvWindow);
    } else {
      ControlIsEmpty(s, NON, DROP_TTL);
      ControlIsEmpty(s, ACK, TTL);
      ControlIsEmpty(s.(tcb := AddAck(s.tcb, 1)), ACK, TTL);
      OneBuilt(s, s', s'.packetToSend.value);
    }
  }

  lemma DeliveryAdvertises(s: StreamState, room: nat)
    requires s.packetToSend == None && s.fault == NoFault
    ensures Advertise(Wire(s), DeliverOrReceive(s, room).s, s.tcb.recvWindow)
  {
    hide RevPacket, Advertise, Process, Wire;
    var s1 := s.(tcb := TakeUnordered(s.tcb));
    var s' := DeliverOrReceive(s, room).s;
    if Due(s) {
      var s2 := s1.(tcb := AddAck(s1.tcb, Len32(s.tcb.unordered[s.tcb.ack])));
      ControlIsEmpty(s2, ACK, TTL);
      if s'.fault == NoFault {
        OneBuilt(s, s', Control(s2, ACK, TTL));
      } else {
        NothingBuilt(s, s', s.tcb.recvWindow);
      }
    } else if s.tcb.state == FinWait1(true) || (s.shutdown == Requested && s.tcb.state == Established && s.tcb.lastAck == s.tcb.seqno) {
      ControlIsEmpty(s1, FIN_ACK, TTL);
      OneBuilt(s, s', Control(s1, FIN_ACK, TTL));
    } else if s.inbox != [] {
      var s2 := s1.(inbox := s.inbox[1..]);
      ProcessAdvertises(s2, s.inbox[0]);
      WireSame(s, s2);
    } else {
      NothingBuilt(s, s', s.tcb.recvWindow);
    }
  }

  lemma AfterWindowAdvertises(s: StreamState, fired: bool, room: nat)
    requires s.packetToSend == None && s.fault == NoFault
    ensures Advertise(Wire(s), AfterWindow(s, fired, room).s, s.tcb.recvWindow)
  {
    hide RevPacket, Advertise, DeliverOrReceive, Wire;
    var s' := AfterWindow(s, fired, room).s;
    DeliveryAdvertises(s, room);
    ControlIsEmpty(s, RST_ACK, TTL);
    ControlIsEmpty(s, SYN_ACK, TTL);
    if fired {
      OneBuilt(s, s', Control(s, RST_ACK, TTL));
    } else if s.tcb.state == SynReceived(false) {
      OneBuilt(s, s', Control(s, SYN_ACK, TTL));
    }
  }

  /**
   Every packet an iteration builds advertises exactly what of the 16384 bytes of read buffer was free when it
   began, and carries no more than the window the peer has announced by then.
   */
  lemma FreeBufferIsAdvertised(s: StreamState, fired: bool, room: nat)
    requires s.fault == NoFault && s.tcb.retransmission == None && Rank(s.tcb.state) < 5
    ensures Advertise(Wire(s), ReadIteration(s, fired, room).s, Max(0, 16384 - BufferedBytes(s.tcb.unordered)))
  {
    assert AvailableReadBuffer(s.tcb) == Max(0, 16384 - BufferedBytes(s.tcb.unordered));
    hide ReadIteration, AfterWindow, AvailableReadBuffer, BufferedBytes, Advertise;
    assert Wire(Prepared(s)) == Wire(s);
    IterationPrepares(s, fired, room);
    AfterWindowAdvertises(Prepared(s), fired, room);
  }
}

/** When a stream speaks: one packet for each occasion that calls for one, and none without. */
module Speaking {
  import opened Words
  import opened Packets
  import opened TcbSpec
  import opened StreamSpec
  import opened Invariants
  import opened ReceiveSide
  import opened Responses

  /** How many packets have been sent or queued. */
  function Said(s: StreamState): nat {
    |s.out| + if s.packetToSend.Some? then 1 else 0
  }

  /** A segment that must be answered: a reset, an accepted FIN, a keep-alive probe or a duplicate acknowledgement. */
  ghost predicate Calls(t: TcbState, p: NetworkPacket) {
    && p.transport.Tcp?
    && (|| p.transport.tcp.flags.rst
        || (&& p.transport.tcp.flags == FIN_ACK && t.lastAck <= p.transport.tcp.ackno <= t.seqno
            && (t.state == Established || t.state == FinWait1(false) || t.state == FinWait2(true)))
        || (t.state == Established && (Probes(t, p) || Duplicate(t, p))))
  }

  /** The end, a deadline, the SYN, a payload to acknowledge, a FIN to send, or a segment that calls for an answer. */
  ghost predicate Occasion(s: StreamState, fired: bool) {
    && s.tcb.state != Closed
    && (|| s.tcb.state == FinWait2(false)
        || fired
        || s.tcb.state == SynReceived(false)
        || Due(s)
        || s.tcb.state == FinWait1(true)
        || (s.shutdown == Requested && s.tcb.state == Established && s.tcb.lastAck == s.tcb.seqno)
        || (s.inbox != [] && Calls(s.tcb, s.inbox[0])))
  }

  lemma EstablishedSpeaks(s: StreamState, p: NetworkPacket)
    requires s.packetToSend == None && s.fault == NoFault && s.tcb.state == Established
    requires p.transport.Tcp? && !p.transport.tcp.flags.rst && s.tcb.lastAck <= p.transport.tcp.ackno <= s.tcb.seqno
    ensures var s' := InEstablished(s, p.transport.tcp, p.payload).s;
            s'.fault == NoFault ==> Said(s') == Said(s) + if Calls(s.tcb, p) then 1 else 0
  {
    SegmentClasses(s.tcb, p.transport.tcp, p.payload);
    hide RevPacket, CheckPktType, Trim, Retain, Observe;
  }

  lemma ProcessSpeaks(s: StreamState, p: NetworkPacket)
    requires s.packetToSend == None && s.fault == NoFault && s.tcb.state != Closed
    ensures var s' := Process(s, p).s;
            s'.fault == NoFault ==> Said(s') == Said(s) + if Calls(s.tcb, p) then 1 else 0
  {
    hide RevPacket, CheckPktType, Trim, Retain, Observe, InEstablished;
    if p.transport.Tcp? && !p.transport.tcp.flags.rst {
      AcceptedIffPlainlyBetween(s.tcb, p.transport.tcp, p.payload);
      if s.tcb.state == Established && s.tcb.lastAck <= p.transport.tcp.ackno <= s.tcb.seqno {
        EstablishedSpeaks(s, p);
      }
    }
  }

  lemma DeliverySpeaks(s: StreamState, room: nat)
    requires s.packetToSend == None && s.fault == NoFault && 1 <= Rank(s.tcb.state) <= 4
    ensures var s' := DeliverOrReceive(s, room).s;
            s'.fault == NoFault ==> Said(s') == Said(s) + if Occasion(s, false) then 1 else 0
  {
    hide RevPacket, Process;
    if s.inbox != [] {
      var s1 := s.(tcb := TakeUnordered(s.tcb), inbox := s.inbox[1..]);
      ProcessSpeaks(s1, s.inbox[0]);
      assert Calls(s1.tcb, s.inbox[0]) == Calls(s.tcb, s.inbox[0]);
    }
  }

  /** An iteration that does not panic puts one packet on the wire when there is an occasion, and none otherwise. */
  lemma SpeaksWhenItShould(s: StreamState, fired: bool, room: nat)
    requires s.fault == NoFault && s.tcb.retransmission == None
    ensures var s' := ReadIteration(s, fired, room).s;
            s'.fault == NoFault ==> |Wire(s')| == |Wire(s)| + if Occasion(s, fired) then 1 else 0
  {
    hide RevPacket, DeliverOrReceive, AvailableReadBuffer, Calls;
    if s.tcb.state != Closed && s.tcb.state != FinWait2(false) {
      var s1 := Prepared(s);
      IterationPrepares(s, fired, room);
      if 1 <= Rank(s.tcb.state) {
        DeliverySpeaks(s1, room);
      }
      if s.inbox != [] {
        CallsAlike(s.tcb, s1.tcb, s.inbox[0]);
      }
      hide ReadIteration;
    }
  }

  lemma CallsAlike(t: TcbState, t': TcbState, p: NetworkPacket)
    requires t' == t.(recvWindow := t'.recvWindow)
    ensures Calls(t', p) == Calls(t, p)
  {
  }
}

/**
 The shape of everything a stream sends, in the numbers of the protocols: which flags and TTL a packet
 has, what its headers say, how much it carries, and that a packet that ends the stream comes last.
 */
module Grammar {
  import opened Words
  import opened Packets
  import opened TcbSpec
  import opened StreamSpec
  import opened Invariants
  import opened Preservation
  import opened SendSide

  /** What the link leaves for payload after the IP header, of 20 or 40 bytes, and the TCP header of 20. */
  function LinkRoom(ends: Endpoints, mtu: u16): nat {
    Max(0, if ends.src.ip.V4? then mtu - 40 else mtu - 60)
  }

  /** From the dialled address to the peer, protocol 6, with the length of the TCP header and the payload. */
  ghost predicate Addressed(p: NetworkPacket, ends: Endpoints, ttl: byte) {
    && p.transport.Tcp?
    && p.transport.tcp.sourcePort == ends.dst.port && p.transport.tcp.destinationPort == ends.src.port
    && |p.payload| + 20 < 0x1_0000
    && p.ip == if ends.src.ip.V4?
               then Ipv4(ends.dst.ip.v4, ends.src.ip.v4, ttl, 6, |p.payload| + 20)
               else Ipv6(ends.dst.ip.v6, ends.src.ip.v6, ttl, 6, |p.payload| + 20)
  }

  /** SYN|ACK, ACK, FIN|ACK or PSH|ACK. */
  predicate LiveFlags(f: Flags) {
    && f.ack && !f.rst && !f.cwr && !f.ece && !f.urg
    && !(f.syn && f.fin) && !(f.syn && f.psh) && !(f.fin && f.psh)
  }

  /** A packet to the peer: TTL 64, and payload, no more than the link takes, only with PSH|ACK. */
  ghost predicate Plain(p: NetworkPacket, ends: Endpoints, mtu: u16) {
    && Addressed(p, ends, 64)
    && LiveFlags(p.transport.tcp.flags)
    && |p.payload| <= LinkRoom(ends, mtu)
    && (p.payload != [] ==> p.transport.tcp.flags.psh)
  }

  /** The end, told to the session table: no flags and TTL 0. */
  ghost predicate EndOfSession(p: NetworkPacket, ends: Endpoints) {
    && Addressed(p, ends, 0)
    && p.transport.tcp.flags == Flags(false, false, false, false, false, false, false, false)
    && p.payload == []
  }

  /** The end, told to the peer: RST|ACK with TTL 64. */
  ghost predicate ResetToPeer(p: NetworkPacket, ends: Endpoints) {
    && Addressed(p, ends, 64)
    && p.transport.tcp.flags == Flags(false, false, false, true, false, true, false, false)
    && p.payload == []
  }

  ghost predicate Parting(p: NetworkPacket, ends: Endpoints) {
    EndOfSession(p, ends) || ResetToPeer(p, ends)
  }

  /** Plain packets, and at the very end of a closed stream, and only there, one that says so. */
  ghost predicate Formed(wire: seq<NetworkPacket>, closed: bool, ends: Endpoints, mtu: u16) {
    && (forall i :: 0 <= i < |wire| - (if closed then 1 else 0) ==> Plain(wire[i], ends, mtu))
    && (closed ==> wire != [] && Parting(wire[|wire| - 1], ends))
  }

  ghost predicate WellFormed(s: StreamState) {
    Formed(Wire(s), s.tcb.state == Closed, s.ends, s.mtu)
  }

  // --- Building packets ---

  /** The headers, and how much of the payload is kept: what the window and the link both leave room for. */
  lemma PacketIsExact(s: StreamState, flags: Flags, ttl: byte, q: u32, payload: seq<byte>)
    ensures var p := RevPacket(s, flags, ttl, q, payload);
            && Addressed(p, s.ends, ttl)
            && p.transport.tcp.flags == flags
            && (p.transport.tcp.seqno, p.transport.tcp.ackno, p.transport.tcp.window) == (q, s.tcb.ack, s.tcb.recvWindow)
            && p.payload == payload[..Min(|payload|, Min(s.tcb.sendWindow, LinkRoom(s.ends, s.mtu)))]
  {
  }

  lemma ControlIsPlain(s: StreamState, flags: Flags)
    requires LiveFlags(flags)
    ensures Plain(Control(s, flags, TTL), s.ends, s.mtu)
  {
    hide RevPacket, Addressed;
    PacketIsExact(s, flags, TTL, s.tcb.seqno, []);
  }

  lemma DataIsPlain(s: StreamState, q: u32, payload: seq<byte>)
    ensures Plain(RevPacket(s, PSH_ACK, TTL, q, payload), s.ends, s.mtu)
  {
    hide RevPacket, Addressed;
    PacketIsExact(s, PSH_ACK, TTL, q, payload);
  }

  lemma EndIsParting(s: StreamState)
    ensures EndOfSession(Control(s, NON, DROP_TTL), s.ends) && ResetToPeer(Control(s, RST_ACK, TTL), s.ends)
  {
    hide RevPacket, Addressed;
    PacketIsExact(s, NON, DROP_TTL, s.tcb.seqno, []);
    PacketIsExact(s, RST_ACK, TTL, s.tcb.seqno, []);
  }

  // --- Growing the wire ---

  /** The wire of `s'` is that of `s`, or one packet longer, and well formed if that of `s` was and `s` was open. */
  ghost predicate Forms(s: StreamState, s': StreamState) {
    && (s'.ends, s'.mtu) == (s.ends, s.mtu)
    && (|| (Wire(s') == Wire(s) && s'.tcb.state != Closed)
        || (exists p :: Wire(s') == Wire(s) + [p] && if s'.tcb.state == Closed then Parting(p, s.ends) else Plain(p, s.ends, s.mtu)))
  }

  lemma FormsKeeps(s: StreamState, s': StreamState)
    requires Forms(s, s') && WellFormed(s) && s.tcb.state != Closed
    ensures WellFormed(s')
  {
    hide Wire, Plain, Parting;
  }

  lemma FormsSame(s: StreamState, s': StreamState)
    requires (s'.ends, s'.mtu, s'.out, s'.packetToSend) == (s.ends, s.mtu, s.out, s.packetToSend) && s'.tcb.state != Closed
    ensures Forms(s, s')
  {
    hide Plain, Parting;
    assert Wire(s') == Wire(s);
  }

  lemma FormsOne(s: StreamState, s': StreamState, p: NetworkPacket)
    requires (s'.ends, s'.mtu) == (s.ends, s.mtu) && s.packetToSend == None
    requires (s'.out == s.out && s'.packetToSend == Some(p)) || (s'.out == s.out + [p] && s'.packetToSend == None)
    requires if s'.tcb.state == Closed then Parting(p, s.ends) else Plain(p, s.ends, s.mtu)
    ensures Forms(s, s')
  {
    hide Plain, Parting;
    assert Wire(s') == Wire(s) + [p];
  }

  // --- One iteration ---

  lemma ResendForms(s: StreamState, q: u32)
    requires s.packetToSend == None && s.tcb.state != Closed
    ensures Forms(s, Resend(s, q))
  {
    hide RevPacket, Forms, Plain;
    var i := FirstAt(s.tcb.inflight, q);
    if i < |s.tcb.inflight| {
      var sent := s.tcb.inflight[i];
      DataIsPlain(s, sent.seqno, sent.payload);
      FormsOne(s, Resend(s, q), RevPacket(s, PSH_ACK, TTL, sent.seqno, sent.payload));
    } else {
      FormsSame(s, Resend(s, q));
    }
  }

  /** Fields that the wire does not show. */
  lemma FormsFrom(s: StreamState, s1: StreamState, s': StreamState)
    requires (s1.ends, s1.mtu, s1.out, s1.packetToSend) == (s.ends, s.mtu, s.out, s.packetToSend) && Forms(s1, s')
    ensures Forms(s, s')
  {
    hide Plain, Parting;
    assert Wire(s1) == Wire(s);
  }

  lemma EstablishedForms(s: StreamState, h: TcpHeader, payload: seq<byte>)
    requires s.packetToSend == None && s.fault == NoFault && s.tcb.state == Established
    ensures Forms(s, InEstablished(s, h, payload).s)
  {
    hide RevPacket, Forms, Plain, CheckPktType, Trim, Retain, Observe, Resend, Wire;
    var s' := InEstablished(s, h, payload).s;
    if h.flags == ACK && CheckPktType(s.tcb, h, payload) == RetransmissionRequest {
      var s1 := s.(tcb := ChangeSendWindow(s.tcb, h.window).(retransmission := None));
      ResendForms(s1, h.ackno);
      FormsFrom(s, s1, s');
    } else if s'.packetToSend == None {
      FormsSame(s, s');
    } else {
      ControlIsPlain(if h.flags == FIN_ACK then s.(tcb := AddAck(s.tcb, 1)) else s.(tcb := ChangeSendWindow(ChangeLastAck(s.tcb, h.ackno), h.window)), ACK);
      FormsOne(s, s', s'.packetToSend.value);
    }
  }

  lemma ClosingForms(s: StreamState, h: TcpHeader)
    requires s.packetToSend == None && s.fault == NoFault && s.tcb.state != Closed
    ensures Forms(s, InFinWait1(s, h)) && Forms(s, InFinWait2(s, h))
  {
    hide RevPacket, Forms, Plain, Trim, Retain, Observe, Wire;
    ControlIsPlain(s.(tcb := AddAck(s.tcb, 1)), ACK);
    ControlIsPlain(s, ACK);
    if h.flags == FIN_ACK {
      FormsOne(s, InFinWait1(s, h), InFinWait1(s, h).packetToSend.value);
      FormsOne(s, InFinWait2(s, h), InFinWait2(s, h).packetToSend.value);
    } else {
      FormsSame(s, InFinWait1(s, h));
      FormsSame(s, InFinWait2(s, h));
    }
  }

  lemma ProcessForms(s: StreamState, p: NetworkPacket)
    requires s.packetToSend == None && s.fault == NoFault && s.tcb.state != Closed
    ensures Forms(s, Process(s, p).s)
  {
    hide RevPacket, Forms, Plain, Parting, CheckPktType, Trim, Retain, Observe, InEstablished, InFinWait1, InFinWait2, Wire;
    var s' := Process(s, p).s;
    if p.transport.Tcp? && p.transport.tcp.flags.rst {
      EndIsParting(s);
      PartingIs(Control(s, NON, DROP_TTL), s.ends);
      FormsOne(s, s', Control(s, NON, DROP_TTL));
    } else if p.transport.Tcp? && s.tcb.state == Established && CheckPktType(s.tcb, p.transport.tcp, p.payload) != Invalid {
      EstablishedForms(s, p.transport.tcp, p.payload);
    } else if p.transport.Tcp? && (s.tcb.state == FinWait1(false) || s.tcb.state == FinWait2(true)) {
      ClosingForms(s, p.transport.tcp);
      FormsSame(s, s);
    } else {
      FormsSame(s, s');
    }
  }

  lemma PartingIs(p: NetworkPacket, ends: Endpoints)
    requires EndOfSession(p, ends) || ResetToPeer(p, ends)
    ensures Parting(p, ends)
  {
  }

  lemma DeliveryForms(s: StreamState, room: nat)
    requires s.packetToSend == None && s.fault == NoFault && s.tcb.state != Closed
    ensures Forms(s, DeliverOrReceive(s, room).s)
  {
    hide RevPacket, Forms, Plain, Process, Wire;
    var s1 := s.(tcb := TakeUnordered(s.tcb));
    var it := DeliverOrReceive(s, room);
    ControlIsPlain(s1, FIN_ACK);
    if s.shutdown == NotRequested && s.tcb.ack in s.tcb.unordered {
      var s2 := s1.(tcb := AddAck(s1.tcb, Len32(s.tcb.unordered[s.tcb.ack])));
      ControlIsPlain(s2, ACK);
      if it.s.fault == NoFault {
        FormsOne(s, it.s, Control(s2, ACK, TTL));
      } else {
        FormsSame(s, it.s);
      }
    } else if s.tcb.state == FinWait1(true) || (s.shutdown == Requested && s.tcb.state == Established && s.tcb.lastAck == s.tcb.seqno) {
      FormsOne(s, it.s, it.s.packetToSend.value);
    } else if s.inbox != [] {
      var s2 := s1.(inbox := s.inbox[1..]);
      ProcessForms(s2, s.inbox[0]);
      FormsFrom(s, s2, it.s);
    } else {
      FormsSame(s, it.s);
    }
  }

  lemma AfterWindowForms(s: StreamState, fired: bool, room: nat)
    requires s.packetToSend == None && s.fault == NoFault && s.tcb.state != Closed
    ensures Forms(s, AfterWindow(s, fired, room).s)
  {
    hide RevPacket, Forms, Plain, Parting, DeliverOrReceive, Wire;
    var s' := AfterWindow(s, fired, room).s;
    if fired {
      EndIsParting(s);
      PartingIs(Control(s, RST_ACK, TTL), s.ends);
      FormsOne(s, s', Control(s, RST_ACK, TTL));
    } else if s.tcb.state == SynReceived(false) {
      ControlIsPlain(s, SYN_ACK);
      FormsOne(s, s', Control(s, SYN_ACK, TTL));
    } else {
      DeliveryForms(s, room);
    }
  }

  lemma IterationForms(s: StreamState, fired: bool, room: nat)
    requires s.fault == NoFault && s.tcb.retransmission == None && WellFormed(s)
    ensures WellFormed(ReadIteration(s, fired, room).s)
    ensures var s' := ReadIteration(s, fired, room).s;
            (s'.ends, s'.mtu) == (s.ends, s.mtu)
  {
    hide RevPacket, Forms, Formed, Parting, AfterWindow, AvailableReadBuffer;
    var s2 := SendQueued(s);
    assert Wire(s2) == Wire(s);
    var s' := ReadIteration(s, fired, room).s;
    if s.tcb.state == Closed {
      assert Wire(s') == Wire(s);
    } else if s.tcb.state == FinWait2(false) {
      EndIsParting(s2);
      PartingIs(Control(s2, NON, DROP_TTL), s.ends);
      FormsOne(s2, s', Control(s2, NON, DROP_TTL));
      FormsKeeps(s2, s');
      FormsEnds(s2, s');
    } else {
      var s3 := s2.(tcb := ChangeRecvWindow(s2.tcb, AvailableReadBuffer(s2.tcb)));
      AfterWindowForms(s3, fired, room);
      FormsKeeps(s3, s');
      FormsEnds(s3, s');
    }
  }

  lemma FormsEnds(s: StreamState, s': StreamState)
    requires Forms(s, s')
    ensures (s'.ends, s'.mtu) == (s.ends, s.mtu)
  {
  }

  // --- Runs ---

  lemma {:induction false} ReadForms(w: World, room: nat, clock: seq<bool>)
    requires Turning(w) && WellFormed(w.s)
    ensures WellFormed(PollRead(w.s, room, clock).s)
    decreases |w.s.inbox|, 6 - Rank(w.s.tcb.state)
  {
    hide Inv, Sound, Advances, ReadIteration, WellFormed;
    var fired := clock != [] && clock[0];
    var it := ReadIteration(w.s, fired, room);
    NoRequest(w);
    IterationForms(w.s, fired, room);
    IterationDescends(w.s, fired, room);
    IterationKeeps(w, fired, room);
    if it.Again? {
      assert w.delivered + [] == w.delivered;
      ReadForms(w.(s := it.s), room, if clock == [] then [] else clock[1..]);
    }
  }

  lemma WriteForms(w: World, buf: seq<byte>)
    requires Inv(w) && w.s.fault == NoFault && WellFormed(w.s)
    ensures WellFormed(PollWrite(w.s, buf).s)
  {
    hide Sound, RevPacket, Forms, Plain, Formed, Resend;
    NoRequest(w);
    var s' := PollWrite(w.s, buf).s;
    if PollWrite(w.s, buf).poll.Ready? {
      DataIsPlain(w.s, w.s.tcb.seqno, buf);
      FormsOne(w.s, s', RevPacket(w.s, PSH_ACK, TTL, w.s.tcb.seqno, buf));
      FormsKeeps(w.s, s');
    }
  }

  lemma StepForms(w: World, e: Event)
    requires Inv(w) && w.s.fault == NoFault && WellFormed(w.s)
    ensures WellFormed(Step(w, e).s)
  {
    hide Sound, PollRead, PollWrite, Formed, Resend;
    match e
    case Read(room, clock) => ReadForms(w, room, clock);
    case Write(buf) => WriteForms(w, buf);
    case Shut(clock) =>
      var s := w.s.(shutdown := Requested);
      Unseen(w, s);
      assert Wire(s) == Wire(w.s);
      ReadForms(w.(s := s), 1, clock);
    case _ =>
      FlushIdle(w);
      assert Wire(Step(w, e).s) == Wire(w.s);
  }

  lemma {:induction false} RunForms(w: World, events: seq<Event>)
    requires Inv(w) && WellFormed(w.s)
    ensures WellFormed(Run(w, events).s)
    decreases |events|
  {
    hide Inv, Step, WellFormed;
    if events != [] {
      if w.s.fault == NoFault {
        StepForms(w, events[0]);
      } else {
        FaultStays(w, events[0]);
      }
      StepKeeps(w, events[0]);
      RunForms(Step(w, events[0]), events[1..]);
    }
  }

  /**
   In every reachable state the wire is well formed: every packet of an open stream is a plain one, and a
   closed stream has sent one packet more, the last, that ends it.
   */
  lemma WireIsWellFormed(w: World)
    requires Reachable(w)
    ensures WellFormed(w.s)
  {
    hide Inv, Run, WellFormed;
    var ends, mtu, iss, irs, events :| w == Run(Start(ends, mtu, iss, irs), events);
    StartSound(ends, mtu, iss, irs);
    StartForms(ends, mtu, iss, irs);
    RunForms(Start(ends, mtu, iss, irs), events);
  }

  lemma StartForms(ends: Endpoints, mtu: u16, iss: u32, irs: u32)
    ensures WellFormed(Start(ends, mtu, iss, irs).s)
  {
  }
}

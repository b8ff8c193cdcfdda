/** Short runs that show where a property one might expect of the endpoint fails. */
module Witnesses {
  import opened Words
  import opened Packets
  import opened TcbSpec
  import opened StreamSpec
  import opened Invariants
  import opened ReceiveSide
  import opened Delivery
  import opened Limits

  // --- Building runs ---

  /** A segment from the peer to the address it dialled. */
  function FromPeer(ends: Endpoints, seqno: u32, ackno: u32, window: u16, flags: Flags, payload: seq<byte>): NetworkPacket {
    var length := Min(|payload| + TCP_HEADER, 0xFFFF);
    var ip := if ends.src.ip.V4?
      then Ipv4(ends.src.ip.v4, ends.dst.ip.v4, TTL, PROTOCOL_TCP, length)
      else Ipv6(ends.src.ip.v6, ends.dst.ip.v6, TTL, PROTOCOL_TCP, length);
    NetworkPacket(ip, Tcp(TcpHeader(ends.src.port, ends.dst.port, seqno, ackno, window, flags)), payload)
  }

  /** The session table routes it to the stream with these ends. */
  lemma FromPeerIsRouted(ends: Endpoints, seqno: u32, ackno: u32, window: u16, flags: Flags, payload: seq<byte>)
    ensures TupleOf(FromPeer(ends, seqno, ackno, window, flags, payload)) == SessionKey(ends)
  {
  }

  /** Nothing queued, requested, arrived or wrong. */
  ghost predicate Idle(s: StreamState) {
    && s.packetToSend == None
    && s.tcb.retransmission == None
    && s.fault == NoFault
    && s.shutdown == NotRequested
    && s.inbox == []
  }

  /** Idle, open, and nothing due for the reader. */
  ghost predicate AtRest(s: StreamState) {
    && Idle(s)
    && (s.tcb.state == SynReceived(true) || s.tcb.state == Established)
    && s.tcb.ack !in s.tcb.unordered
  }

  ghost function Refreshed(s: StreamState): StreamState {
    s.(tcb := ChangeRecvWindow(s.tcb, AvailableReadBuffer(s.tcb)))
  }

  /** A read of a stream at rest goes straight to its inbox. */
  lemma RestingIteration(s: StreamState, inbox: seq<NetworkPacket>, room: nat)
    requires AtRest(s)
    ensures ReadIteration(s.(inbox := inbox), false, room) == Receive(Refreshed(s).(inbox := inbox))
  {
    hide Receive, RevPacket, AvailableReadBuffer;
    assert s.tcb.unordered - {s.tcb.ack} == s.tcb.unordered;
  }

  lemma RestingRead(s: StreamState, room: nat)
    requires AtRest(s)
    ensures PollRead(s, room, []).s == Refreshed(s) && PollRead(s, room, []).bytes == []
  {
    hide ReadIteration, Process, AvailableReadBuffer;
    assert s.(inbox := []) == s;
    RestingIteration(s, [], room);
  }

  /** One segment that leaves the stream at rest. */
  lemma SegmentRead(s: StreamState, p: NetworkPacket, room: nat)
    requires AtRest(s)
    requires var it := Process(Refreshed(s), p);
             it.Again? && AtRest(it.s)
    ensures var r := PollRead(s.(inbox := [p]), room, []);
            r.s == Refreshed(Process(Refreshed(s), p).s) && r.bytes == []
  {
    hide ReadIteration, Process, AvailableReadBuffer;
    RestingIteration(s, [p], room);
    assert Refreshed(s).(inbox := [p]).(inbox := [p][1..]) == Refreshed(s);
    var it := ReadIteration(s.(inbox := [p]), false, room);
    assert it == Process(Refreshed(s), p);
    RestingRead(it.s, room);
    assert PollRead(s.(inbox := [p]), room, []) == PollRead(it.s, room, []);
  }

  lemma {:induction false} RunConcat(w: World, a: seq<Event>, b: seq<Event>)
    ensures Run(w, a + b) == Run(Run(w, a), b)
    decreases |a|
  {
    hide Step;
    if a == [] {
      assert a + b == b;
    } else {
      assert (a + b)[0] == a[0] && (a + b)[1..] == a[1..] + b;
      RunConcat(Step(w, a[0]), a[1..], b);
    }
  }

  /** A segment arrives and the application reads. */
  ghost function Meets(p: NetworkPacket, room: nat): seq<Event> {
    [Arrive(p), Read(room, [])]
  }

  lemma ArriveAndRead(w: World, p: NetworkPacket, room: nat)
    requires Idle(w.s)
    ensures Run(w, Meets(p, room)) == AfterRead(w, PollRead(w.s.(inbox := [p]), room, []))
  {
    hide PollRead;
    var w1 := Step(w, Arrive(p));
    assert [] + [p] == [p];
    assert w1 == w.(s := w.s.(inbox := [p]));
    assert Meets(p, room)[1..] == [Read(room, [])];
    assert Run(w1, [Read(room, [])]) == Run(Step(w1, Read(room, [])), []);
  }

  lemma SegmentMet(w: World, p: NetworkPacket, room: nat)
    requires AtRest(w.s)
    requires var it := Process(Refreshed(w.s), p);
             it.Again? && AtRest(it.s)
    ensures Run(w, Meets(p, room)) == w.(s := Refreshed(Process(Refreshed(w.s), p).s))
  {
    hide PollRead, Process, AvailableReadBuffer, Run;
    ArriveAndRead(w, p, room);
    SegmentRead(w.s, p, room);
    assert w.delivered + [] == w.delivered;
  }

  // --- The handshake ---

  lemma FirstRead(ends: Endpoints, mtu: u16, iss: u32, irs: u32)
    ensures var s := PollRead(NewStream(ends, mtu, iss, irs), 0, []).s;
            && s == NewStream(ends, mtu, iss, irs).(tcb := s.tcb, out := s.out)
            && s.tcb == NewTcb(iss, WrapAdd(irs, 1)).(state := SynReceived(true), seqno := WrapAdd(iss, 1), recvWindow := s.tcb.recvWindow)
    ensures PollRead(NewStream(ends, mtu, iss, irs), 0, []).bytes == []
  {
    hide RevPacket, AvailableReadBuffer, DeliverOrReceive;
    var s0 := NewStream(ends, mtu, iss, irs);
    var s1 := ReadIteration(s0, false, 0).s;
    assert PollRead(s0, 0, []) == PollRead(s1, 0, []);
    QueuedRead(s1);
  }

  /** A queued packet is sent first. */
  lemma QueuedRead(s: StreamState)
    requires s.packetToSend.Some? && AtRest(s.(packetToSend := None))
    ensures PollRead(s, 0, []).s == Refreshed(SendQueued(s)) && PollRead(s, 0, []).bytes == []
  {
    hide RevPacket, AvailableReadBuffer, Process;
    assert s.tcb.unordered - {s.tcb.ack} == s.tcb.unordered;
  }

  /** The first read, the segment that completes the handshake, and a read that takes it. */
  ghost function Opening(ends: Endpoints, irs: u32, a: u32, window: u16): seq<Event> {
    [Read(0, [])] + Meets(FromPeer(ends, WrapAdd(irs, 1), a, window, ACK, []), 0)
  }

  ghost predicate Opened(w: World, ends: Endpoints, mtu: u16, iss: u32, irs: u32, a: u32, window: u16)
    requires iss + 1 < TWO32
  {
    && AtRest(w.s)
    && (w.s.ends, w.s.mtu, w.iss, w.irs, w.sent, w.delivered) == (ends, mtu, iss, irs, [], [])
    && w.s.tcb == NewTcb(iss, WrapAdd(irs, 1)).(
                    state := Established, seqno := iss + 1, lastAck := a, sendWindow := window,
                    average := Observe(Average(1, 1), window), recvWindow := w.s.tcb.recvWindow)
  }

  lemma HandshakeProcess(s: StreamState, p: NetworkPacket, iss: u32, a: u32, window: u16)
    requires iss + 1 < TWO32 && iss <= a <= iss + 1 && AtRest(s)
    requires s.tcb == NewTcb(iss, s.tcb.ack).(state := SynReceived(true), seqno := iss + 1, recvWindow := s.tcb.recvWindow)
    requires p.transport.Tcp? && p.payload == [] && p.transport.tcp.flags == ACK
    requires p.transport.tcp.ackno == a && p.transport.tcp.window == window
    ensures var it := Process(s, p);
            && it.Again? && AtRest(it.s)
            && it.s == s.(tcb := s.tcb.(state := Established, lastAck := a, sendWindow := window, average := Observe(Average(1, 1), window)))
  {
    AcceptedIffPlainlyBetween(s.tcb, p.transport.tcp, p.payload);
    hide Observe, CheckPktType, InEstablished;
  }

  lemma Handshake(ends: Endpoints, mtu: u16, iss: u32, irs: u32, a: u32, window: u16)
    requires iss + 1 < TWO32 && iss <= a <= iss + 1
    ensures Opened(Run(Start(ends, mtu, iss, irs), Opening(ends, irs, a, window)), ends, mtu, iss, irs, a, window)
  {
    hide PollRead, Process, AvailableReadBuffer, Observe, Run;
    var w0 := Start(ends, mtu, iss, irs);
    var p := FromPeer(ends, WrapAdd(irs, 1), a, window, ACK, []);
    FirstRead(ends, mtu, iss, irs);
    var w1 := Step(w0, Read(0, []));
    RunConcat(w0, [Read(0, [])], Meets(p, 0));
    OneStep(w0, Read(0, []));
    assert w1.s.tcb.ack !in w1.s.tcb.unordered;
    HandshakeProcess(Refreshed(w1.s), p, iss, a, window);
    SegmentMet(w1, p, 0);
  }

  lemma OneStep(w: World, e: Event)
    ensures Run(w, [e]) == Step(w, e)
  {
    hide Step;
    EmptyRun(Step(w, e));
  }

  lemma AfterOpening(ends: Endpoints, mtu: u16, iss: u32, irs: u32, a: u32, window: u16, events: seq<Event>) returns (w: World)
    requires iss + 1 < TWO32 && iss <= a <= iss + 1
    ensures Opened(w, ends, mtu, iss, irs, a, window)
    ensures Run(Start(ends, mtu, iss, irs), Opening(ends, irs, a, window) + events) == Run(w, events)
  {
    hide Opened, Run, Start;
    Handshake(ends, mtu, iss, irs, a, window);
    RunConcat(Start(ends, mtu, iss, irs), Opening(ends, irs, a, window), events);
    w := Run(Start(ends, mtu, iss, irs), Opening(ends, irs, a, window));
  }

  // --- The lookup that fails ---

  /** A segment whose iteration stops the read. */
  lemma SegmentStops(w: World, p: NetworkPacket, room: nat)
    requires AtRest(w.s)
    requires Process(Refreshed(w.s), p).Stop?
    ensures Run(w, Meets(p, room)) == AfterIteration(w, Process(Refreshed(w.s), p))
  {
    hide ReadIteration, Process, AvailableReadBuffer, Run;
    ArriveAndRead(w, p, room);
    RestingIteration(w.s, [p], room);
    assert Refreshed(w.s).(inbox := [p]).(inbox := [p][1..]) == Refreshed(w.s);
  }

  /**
   Two bare acknowledgements of `iss`, routed to this stream, panic it: the first completes the
   handshake, the second asks for a packet that starts at `iss`, and there is none.
   */
  lemma UnackedSynCanPanic(ends: Endpoints, mtu: u16, iss: u32, irs: u32, window: u16)
    requires iss + 1 < TWO32
    ensures var a := FromPeer(ends, WrapAdd(irs, 1), iss, window, ACK, []);
            && TupleOf(a) == SessionKey(ends)
            && Run(Start(ends, mtu, iss, irs), [Read(0, []), Arrive(a), Read(0, []), Arrive(a), Read(0, [])]).s.fault == LookupFailed
  {
    hide Run, Start, Observe, Opened;
    var a := FromPeer(ends, WrapAdd(irs, 1), iss, window, ACK, []);
    FromPeerIsRouted(ends, WrapAdd(irs, 1), iss, window, ACK, []);
    var w := AfterOpening(ends, mtu, iss, irs, iss, window, Meets(a, 0));
    LookupFails(w, ends, mtu, iss, irs, window, a);
    SegmentStops(w, a, 0);
    assert Opening(ends, irs, iss, window) + Meets(a, 0) == [Read(0, []), Arrive(a), Read(0, []), Arrive(a), Read(0, [])];
  }

  lemma LookupFails(w: World, ends: Endpoints, mtu: u16, iss: u32, irs: u32, window: u16, a: NetworkPacket)
    requires iss + 1 < TWO32 && Opened(w, ends, mtu, iss, irs, iss, window)
    requires a == FromPeer(ends, WrapAdd(irs, 1), iss, window, ACK, [])
    ensures AtRest(w.s)
    ensures var it := Process(Refreshed(w.s), a);
            it.Stop? && it.s.fault == LookupFailed
  {
    hide Observe, AvailableReadBuffer, RevPacket;
  }

  // --- The window that wraps ---

  /** The handshake and two bytes are enough to wrap the window. */
  lemma WindowCanWrap(ends: Endpoints, mtu: u16, irs: u32)
    requires 62 <= mtu
    ensures var iss: u32 := TWO32 - 2;
            var events := Opening(ends, irs, iss + 1, 1000) + [Write([1, 2])];
            var w := Run(Start(ends, mtu, iss, irs), events);
            w.s.fault == NoFault && w.s.tcb.state == Established && Wrapped(w.s.tcb)
  {
    hide Run, Start, Opened, PollWrite;
    var iss: u32 := TWO32 - 2;
    var w := AfterOpening(ends, mtu, iss, irs, iss + 1, 1000, [Write([1, 2])]);
    OneStep(w, Write([1, 2]));
    TwoBytesWrap(w, ends, mtu, irs);
  }

  lemma TwoBytesWrap(w: World, ends: Endpoints, mtu: u16, irs: u32)
    requires 62 <= mtu && Opened(w, ends, mtu, TWO32 - 2, irs, TWO32 - 1, 1000)
    ensures var s := PollWrite(w.s, [1, 2]).s;
            w.s.fault == NoFault && s.fault == NoFault && s.tcb.state == Established && Wrapped(s.tcb)
  {
    hide ReplyHeader;
    var buf: seq<byte> := [1, 2];
    assert Truncate(buf, PayloadLimit(w.s)) == buf;
  }

  // --- The FIN that skips a byte ---

  /** A stored data segment. */
  lemma DataStored(s: StreamState, p: NetworkPacket)
    requires AtRest(s) && s.tcb.state == Established && s.tcb.inflight == []
    requires p.transport.Tcp? && p.transport.tcp.flags == ACK && p.payload != []
    requires p.transport.tcp.ackno == s.tcb.lastAck == s.tcb.seqno && s.tcb.ack < p.transport.tcp.seqno
    ensures var it := Process(s, p);
            && it.Again?
            && AtRest(it.s)
            && it.s.tcb.unordered == s.tcb.unordered[p.transport.tcp.seqno := p.payload]
            && (it.s.tcb.ack, it.s.tcb.state, it.s.tcb.seqno, it.s.tcb.lastAck) == (s.tcb.ack, s.tcb.state, s.tcb.seqno, s.tcb.lastAck)
  {
    AcceptedIffPlainlyBetween(s.tcb, p.transport.tcp, p.payload);
    hide Observe;
  }

  /** The FIN is counted and the byte behind the hole is delivered. */
  lemma FinSkips(s: StreamState, fin: NetworkPacket, b: seq<byte>)
    requires AtRest(s) && s.tcb.state == Established && s.tcb.unordered == map[WrapAdd(s.tcb.ack, 1) := b] && |b| == 1
    requires fin.transport.Tcp? && fin.transport.tcp.flags == FIN_ACK && fin.payload == []
    requires fin.transport.tcp.ackno == s.tcb.lastAck == s.tcb.seqno
    ensures PollRead(s.(inbox := [fin]), 1, []).bytes == b
  {
    hide ReadIteration, PollRead, AvailableReadBuffer, Process;
    RestingIteration(s, [fin], 1);
    assert Refreshed(s).(inbox := [fin]).(inbox := [fin][1..]) == Refreshed(s);
    FinTaken(Refreshed(s), fin);
    var s1 := PeerFin(Refreshed(s));
    DueIsDelivered(s1, 1);
    ReadTwice(s.(inbox := [fin]), s1, 1);
  }

  lemma FinTaken(s: StreamState, fin: NetworkPacket)
    requires s.tcb.state == Established
    requires fin.transport.Tcp? && fin.transport.tcp.flags == FIN_ACK && fin.payload == []
    requires fin.transport.tcp.ackno == s.tcb.lastAck == s.tcb.seqno
    ensures Process(s, fin) == Again(PeerFin(s))
  {
    AcceptedIffPlainlyBetween(s.tcb, fin.transport.tcp, fin.payload);
    hide CheckPktType, RevPacket;
  }

  lemma ReadTwice(s: StreamState, s1: StreamState, room: nat)
    requires ReadIteration(s, false, room) == Again(s1) && ReadIteration(s1, false, room).Stop?
    ensures var it := ReadIteration(s1, false, room);
            PollRead(s, room, []) == ReadResult(it.s, it.poll, it.bytes)
  {
    hide ReadIteration;
    assert PollRead(s, room, []) == PollRead(s1, room, []);
  }

  /**
   The peer's stream is the two bytes 1, 2. Its second byte and its FIN arrive, its first does not:
   the reader gets 2, which is no beginning of the stream, although every segment agrees with it.
   */
  lemma EarlyFinSkipsByte(ends: Endpoints, mtu: u16, iss: u32, irs: u32)
    requires iss + 1 < TWO32 && irs + 3 < TWO32
    ensures var data := FromPeer(ends, irs + 2, iss + 1, 1000, ACK, [2]);
            var fin := FromPeer(ends, irs + 3, iss + 1, 1000, FIN_ACK, []);
            var events := Opening(ends, irs, iss + 1, 1000) + (Meets(data, 1) + Meets(fin, 1));
            && (forall i :: 0 <= i < |events| && events[i].Arrive? ==> PacketAgrees(events[i].p, irs, [1, 2]))
            && var delivered := Run(Start(ends, mtu, iss, irs), events).delivered;
               delivered == [2] && !(delivered <= [1, 2])
  {
    hide Run, Start, PollRead, Process, AvailableReadBuffer, Observe;
    var data := FromPeer(ends, irs + 2, iss + 1, 1000, ACK, [2]);
    var fin := FromPeer(ends, irs + 3, iss + 1, 1000, FIN_ACK, []);
    var w := AfterOpening(ends, mtu, iss, irs, iss + 1, 1000, Meets(data, 1) + Meets(fin, 1));
    DataStored(Refreshed(w.s), data);
    SegmentMet(w, data, 1);
    RunConcat(w, Meets(data, 1), Meets(fin, 1));
    var w1 := Run(w, Meets(data, 1));
    assert w1.s.tcb.unordered == map[WrapAdd(w1.s.tcb.ack, 1) := [2]];
    FinSkips(w1.s, fin, [2]);
    ArriveAndRead(w1, fin, 1);
    assert w1.delivered + [2] == [2];
    assert !([2] <= [1, 2]) by { assert [2][0] != [1, 2][0]; }
    SecondByteAgrees(data, irs);
    var a := FromPeer(ends, WrapAdd(irs, 1), iss + 1, 1000, ACK, []);
    assert Opening(ends, irs, iss + 1, 1000) + (Meets(data, 1) + Meets(fin, 1)) ==
           [Read(0, []), Arrive(a), Read(0, []), Arrive(data), Read(1, []), Arrive(fin), Read(1, [])];
    assert PacketAgrees(a, irs, [1, 2]) && PacketAgrees(fin, irs, [1, 2]);
  }

  lemma SecondByteAgrees(p: NetworkPacket, irs: u32)
    requires irs + 3 < TWO32 && p.transport.Tcp? && p.transport.tcp.seqno == irs + 2 && p.payload == [2]
    ensures PacketAgrees(p, irs, [1, 2])
  {
    var peer: seq<byte> := [1, 2];
    assert peer[1..2] == [2];
  }

  // --- The segment that is lost across the wrap ---

  /** A data segment: stored, or dropped as old. */
  lemma DataProcessed(s: StreamState, p: NetworkPacket)
    requires AtRest(s) && s.tcb.state == Established && s.tcb.inflight == [] && s.tcb.unordered == map[]
    requires p.transport.Tcp? && p.transport.tcp.flags == ACK && p.payload != []
    requires p.transport.tcp.ackno == s.tcb.lastAck == s.tcb.seqno
    ensures var it := Process(s, p);
            && it.Again?
            && it.s.tcb.unordered == (if p.transport.tcp.seqno < s.tcb.ack then map[] else map[p.transport.tcp.seqno := p.payload])
            && it.s == s.(tcb := s.tcb.(sendWindow := it.s.tcb.sendWindow, average := it.s.tcb.average, unordered := it.s.tcb.unordered))
  {
    AcceptedIffPlainlyBetween(s.tcb, p.transport.tcp, p.payload);
    hide Observe;
  }

  /** The segment that is due is delivered by the read that meets it, and nothing is left. */
  lemma NextMet(w: World, p: NetworkPacket)
    requires AtRest(w.s) && w.s.tcb.state == Established && w.s.tcb.inflight == [] && w.s.tcb.unordered == map[]
    requires p.transport.Tcp? && p.transport.tcp.flags == ACK && |p.payload| == 2
    requires p.transport.tcp.ackno == w.s.tcb.lastAck == w.s.tcb.seqno && p.transport.tcp.seqno == w.s.tcb.ack
    ensures var w' := Run(w, Meets(p, 2));
            && w'.delivered == w.delivered + p.payload
            && w'.s.fault == NoFault && w'.s.inbox == [] && w'.s.tcb.unordered == map[]
  {
    hide ReadIteration, PollRead, AvailableReadBuffer, Process, Run;
    ArriveAndRead(w, p, 2);
    RestingIteration(w.s, [p], 2);
    assert Refreshed(w.s).(inbox := [p]).(inbox := [p][1..]) == Refreshed(w.s);
    DataProcessed(Refreshed(w.s), p);
    var s1 := Process(Refreshed(w.s), p).s;
    DueIsDelivered(s1, 2);
    ReadTwice(w.s.(inbox := [p]), s1, 2);
  }

  /**
   The peer's stream is 1, 2, 3 and wraps after two bytes. Its third byte arrives first and is dropped as old;
   then the other two arrive and are delivered. All has arrived, and the third byte is nowhere any more.
   */
  lemma WrapLosesEarlySegment(ends: Endpoints, mtu: u16, iss: u32)
    requires iss + 1 < TWO32
    ensures var irs: u32 := TWO32 - 3;
            var early := FromPeer(ends, 0, iss + 1, 1000, ACK, [3]);
            var next := FromPeer(ends, irs + 1, iss + 1, 1000, ACK, [1, 2]);
            var w := Run(Start(ends, mtu, iss, irs), Opening(ends, irs, iss + 1, 1000) + (Meets(early, 2) + Meets(next, 2)));
            && PacketAgrees(early, irs, [1, 2, 3]) && PacketAgrees(next, irs, [1, 2, 3])
            && w.delivered == [1, 2]
            && w.s.fault == NoFault && w.s.inbox == [] && w.s.tcb.unordered == map[]
  {
    hide Run, Start, PollRead, Process, AvailableReadBuffer, Observe;
    var irs: u32 := TWO32 - 3;
    var early := FromPeer(ends, 0, iss + 1, 1000, ACK, [3]);
    var next := FromPeer(ends, irs + 1, iss + 1, 1000, ACK, [1, 2]);
    var w := AfterOpening(ends, mtu, iss, irs, iss + 1, 1000, Meets(early, 2) + Meets(next, 2));
    DataProcessed(Refreshed(w.s), early);
    SegmentMet(w, early, 2);
    RunConcat(w, Meets(early, 2), Meets(next, 2));
    NextMet(Run(w, Meets(early, 2)), next);
    PiecesAgree(early, next);
    assert [] + next.payload == next.payload;
  }

  lemma PiecesAgree(early: NetworkPacket, next: NetworkPacket)
    requires early.transport.Tcp? && early.transport.tcp.seqno == 0 && early.payload == [3]
    requires next.transport.Tcp? && next.transport.tcp.seqno == TWO32 - 2 && next.payload == [1, 2]
    ensures PacketAgrees(early, TWO32 - 3, [1, 2, 3]) && PacketAgrees(next, TWO32 - 3, [1, 2, 3])
  {
    var peer: seq<byte> := [1, 2, 3];
    assert peer[2..3] == [3] && peer[0..2] == [1, 2];
  }

  // --- The empty packet in front of the data ---

  /** A segment without payload that only announces a window, and one that asks again for what is outstanding. */
  lemma WindowOpens(s: StreamState, p: NetworkPacket)
    requires AtRest(s) && s.tcb.state == Established && s.tcb.seqno == s.tcb.lastAck
    requires p.transport.Tcp? && p.transport.tcp.flags == ACK && p.payload == []
    requires p.transport.tcp.ackno == s.tcb.lastAck && p.transport.tcp.seqno == s.tcb.ack
    ensures Process(s, p) == Again(s.(tcb := ChangeSendWindow(s.tcb, p.transport.tcp.window)))
  {
    hide Observe, RevPacket;
  }

  /** A write of one byte through a window that lets it. */
  lemma OneByteWritten(w: World, b: byte)
    requires AtRest(w.s) && w.s.tcb.state == Established && w.s.tcb.seqno == w.s.tcb.lastAck && 61 <= w.s.mtu
    requires w.s.tcb.average.avg / 2 <= w.s.tcb.sendWindow
    ensures var w' := Run(w, [Write([b])]);
            var sent := if w.s.tcb.sendWindow == 0 then [] else [b];
            && w'.s == w.s.(out := w'.s.out, tcb := AddInflight(w.s.tcb, w.s.tcb.seqno, sent))
            && w' == w.(s := w'.s, sent := w.sent + sent)
  {
    hide Observe, ReplyHeader, Run;
    OneStep(w, Write([b]));
    var buf: seq<byte> := [b];
    assert Truncate(buf, PayloadLimit(w.s)) == if w.s.tcb.sendWindow == 0 then [] else buf;
  }

  /** The outstanding byte is asked for and an empty packet is sent. */
  lemma EmptyResent(s: StreamState, p: NetworkPacket, q: u32, b: byte)
    requires AtRest(s) && s.tcb.state == Established && s.tcb.lastAck == q && q + 1 < TWO32 && s.tcb.seqno == q + 1
    requires s.tcb.inflight == [InflightPacket(q, []), InflightPacket(q, [b])]
    requires p.transport.Tcp? && p.transport.tcp.flags == ACK && p.payload == []
    requires p.transport.tcp.ackno == q && p.transport.tcp.window == s.tcb.sendWindow
    ensures var it := Process(s, p);
            && it.Again? && AtRest(it.s)
            && |it.s.out| == |s.out| + 1
            && it.s.out[|s.out|].payload == []
            && (it.s.tcb.lastAck, it.s.tcb.seqno, it.s.tcb.inflight) == (q, s.tcb.seqno, s.tcb.inflight)
  {
    hide Observe, ReplyHeader;
  }

  /** The run up to the request: the byte is outstanding behind an empty packet. */
  lemma ByteBehindEmptyPacket(w: World, ends: Endpoints, mtu: u16, iss: u32, irs: u32, opens: NetworkPacket) returns (w3: World)
    requires iss + 2 < TWO32 && 61 <= mtu && Opened(w, ends, mtu, iss, irs, iss + 1, 0)
    requires opens == FromPeer(ends, WrapAdd(irs, 1), iss + 1, 1000, ACK, [])
    ensures w3 == Run(w, [Write([7])] + (Meets(opens, 0) + [Write([7])]))
    ensures AtRest(w3.s) && w3.sent == [7]
    ensures var t := w3.s.tcb;
            && (t.state, t.lastAck, t.seqno, t.ack, t.sendWindow) == (Established, iss + 1, iss + 2, WrapAdd(irs, 1), 1000)
            && t.inflight == [InflightPacket(iss + 1, []), InflightPacket(iss + 1, [7])]
  {
    hide Run, Process, AvailableReadBuffer;
    RunConcat(w, [Write([7])], Meets(opens, 0) + [Write([7])]);
    OneByteWritten(w, 7);
    var w1 := Run(w, [Write([7])]);
    RunConcat(w1, Meets(opens, 0), [Write([7])]);
    WindowOpens(Refreshed(w1.s), opens);
    SegmentMet(w1, opens, 0);
    var w2 := Run(w1, Meets(opens, 0));
    OneByteWritten(w2, 7);
    w3 := Run(w2, [Write([7])]);
  }

  /**
   A first window of 0 lets one write record an empty packet; data written after the window opens starts
   at the same sequence number, and a duplicate acknowledgement resends the empty packet instead.
   */
  lemma EmptyPacketHidesData(ends: Endpoints, mtu: u16, iss: u32, irs: u32)
    requires iss + 2 < TWO32 && 61 <= mtu
    ensures var again := FromPeer(ends, WrapAdd(irs, 1), iss + 1, 1000, ACK, []);
            var before := Opening(ends, irs, iss + 1, 0) + ([Write([7])] + (Meets(again, 0) + [Write([7])]));
            var w := Run(Start(ends, mtu, iss, irs), before);
            var w' := Run(w, Meets(again, 0));
            && w.sent == w'.sent == [7] && w'.s.tcb.lastAck == iss + 1 < w'.s.tcb.seqno
            && |w'.s.out| == |w.s.out| + 1 && w'.s.out[|w.s.out|].payload == []
  {
    hide Run, Start, Opened, Process, AvailableReadBuffer, Observe;
    var again := FromPeer(ends, WrapAdd(irs, 1), iss + 1, 1000, ACK, []);
    var w0 := AfterOpening(ends, mtu, iss, irs, iss + 1, 0, [Write([7])] + (Meets(again, 0) + [Write([7])]));
    var w := ByteBehindEmptyPacket(w0, ends, mtu, iss, irs, again);
    EmptyResent(Refreshed(w.s), again, iss + 1, 7);
    SegmentMet(w, again, 0);
  }

  // --- The list that is reordered ---

  /** An acknowledgement inside the first of two packets puts what is left of it behind the second. */
  lemma PartialAckReorders(t: TcbState, x: byte, y: byte, z: byte)
    requires t.state == Established && t.lastAck + 3 < TWO32
    requires t.inflight == [InflightPacket(t.lastAck, [x, y]), InflightPacket(t.lastAck + 2, [z])]
    ensures ChangeLastAck(t, t.lastAck + 1).inflight == [InflightPacket(t.lastAck + 2, [z]), InflightPacket(t.lastAck + 1, [y])]
  {
    var first, second := t.inflight[0], t.inflight[1];
    var a: u32 := t.lastAck + 1;
    assert FirstContaining(t.inflight, a) == 0;
    assert first.payload[1..] == [y];
    var rest := InflightPacket(a, [y]);
    assert Trim(t.inflight, a) == [second, rest];
    assert [second, rest][1..] == [rest] && [rest][1..] == [];
    assert Retain([rest], a) == [rest] + Retain([], a);
  }
}

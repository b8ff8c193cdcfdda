/**
 The receiving half over whole runs: reassembly is correct whatever is lost, repeated,
 overlapped or reordered, and a read reports the end of the stream only when it has ended.
 */
module ReceiveSide {
  import opened Words
  import opened Packets
  import opened TcbSpec
  import opened StreamSpec
  import opened Invariants
  import opened Preservation

  // --- What an iteration does to the receive side ---

  /** Entries of `m'` all come from `m`. */
  ghost predicate SubMap(m': map<u32, seq<byte>>, m: map<u32, seq<byte>>) {
    forall k :: k in m' ==> k in m && m'[k] == m[k]
  }

  /** The inbox loses at most its first packet; buffered entries were buffered before or come from that packet. */
  ghost predicate Collects(s: StreamState, s': StreamState) {
    && (s'.inbox == s.inbox || (s.inbox != [] && s'.inbox == s.inbox[1..]))
    && (|| SubMap(s'.tcb.unordered, s.tcb.unordered)
        || (&& s.tcb.state == Established && s'.tcb.state == Established
            && s.inbox != [] && s.inbox[0].transport.Tcp? && s.inbox[0].payload != []
            && SubMap(s'.tcb.unordered, s.tcb.unordered[s.inbox[0].transport.tcp.seqno := s.inbox[0].payload])))
  }

  ghost predicate AtEnd(s: StreamState) {
    s.tcb.state == Closed || (s.hungUp && s.inbox == [])
  }

  /** Nothing is delivered; `ack` may count the peer's FIN, in a state change. */
  ghost predicate Waits(s: StreamState, it: Iteration) {
    && (it.Stop? ==> it.bytes == [])
    && (it.Stop? && it.poll.Ready? ==> it.poll == Ready(0) && AtEnd(it.s))
    && Collects(s, it.s)
    && (|| it.s.tcb.ack == s.tcb.ack
        || (&& it.s.tcb.ack == WrapAdd(s.tcb.ack, 1) && it.s.tcb.state != s.tcb.state
            && (it.s.tcb.state == FinWait1(true) || it.s.tcb.state == FinWait2(true))))
  }

  /** The payload buffered at `ack` is delivered, and `ack` moves past it. */
  ghost predicate Hands(s: StreamState, it: Iteration) {
    && it.Stop?
    && s.shutdown == NotRequested
    && s.tcb.ack in s.tcb.unordered
    && it.bytes == s.tcb.unordered[s.tcb.ack]
    && it.poll == Ready(|it.bytes|)
    && it.s.tcb.ack == WrapAdd(s.tcb.ack, Len32(it.bytes))
    && it.s.tcb.unordered == s.tcb.unordered - {s.tcb.ack}
    && it.s.tcb.state == s.tcb.state
    && it.s.inbox == s.inbox
  }

  /**
   A panic delivers nothing; it is for want of room only when a payload is due and does not fit, and over
   the protocol only at a packet that is not TCP.
   */
  ghost predicate Breaks(s: StreamState, it: Iteration, room: nat) {
    && it.s.fault != NoFault
    && it.Stop?
    && it.bytes == []
    && it.poll == Panicked
    && (it.s.fault == NoRoom ==>
          s.shutdown == NotRequested && s.tcb.ack in s.tcb.unordered && room < |s.tcb.unordered[s.tcb.ack]|)
    && (it.s.fault == WrongProtocol ==> s.inbox != [] && !s.inbox[0].transport.Tcp?)
  }

  ghost predicate Gathers(s: StreamState, it: Iteration, room: nat) {
    || Breaks(s, it, room)
    || (it.s.fault == NoFault && (Waits(s, it) || (Hands(s, it) && |it.bytes| <= room)))
  }

  /** The iteration sees only these fields of the receive side. */
  lemma GathersSame(s: StreamState, s': StreamState, it: Iteration, room: nat)
    requires Gathers(s', it, room)
    requires (s'.inbox, s'.shutdown, s'.tcb.state, s'.tcb.ack, s'.tcb.unordered) == (s.inbox, s.shutdown, s.tcb.state, s.tcb.ack, s.tcb.unordered)
    ensures Gathers(s, it, room)
  {
  }

  ghost predicate StoresAtMost(t: TcbState, t': TcbState, h: TcpHeader, payload: seq<byte>) {
    || SubMap(t'.unordered, t.unordered)
    || (t.state == Established && t'.state == Established && payload != [] && SubMap(t'.unordered, t.unordered[h.seqno := payload]))
  }

  ghost predicate CountsFin(t: TcbState, t': TcbState) {
    || t'.ack == t.ack
    || (t'.ack == WrapAdd(t.ack, 1) && t'.state != t.state && (t'.state == FinWait1(true) || t'.state == FinWait2(true)))
  }

  ghost predicate Processes(s: StreamState, p: NetworkPacket, it: Iteration) {
    && it.s.inbox == s.inbox
    && (it.Stop? ==> it.bytes == [] && if it.s.fault == NoFault then it.poll.Failed? else it.poll.Panicked?)
    && (it.Again? ==> it.s.fault == s.fault)
    && it.s.fault != NoRoom
    && (!p.transport.Tcp? ==> it.s.fault != NoFault)
    && (it.s.fault == WrongProtocol ==> !p.transport.Tcp?)
    && (p.transport.Tcp? ==> StoresAtMost(s.tcb, it.s.tcb, p.transport.tcp, p.payload))
    && CountsFin(s.tcb, it.s.tcb)
  }

  lemma NewPacketCarries(t: TcbState, h: TcpHeader, payload: seq<byte>)
    ensures CheckPktType(t, h, payload) == NewPacket ==> payload != []
  {
  }

  lemma EstablishedGathers(s: StreamState, p: NetworkPacket)
    requires s.tcb.state == Established && s.fault == NoFault && p.transport.Tcp?
    ensures Processes(s, p, InEstablished(s, p.transport.tcp, p.payload))
  {
    NewPacketCarries(s.tcb, p.transport.tcp, p.payload);
    hide RevPacket, Trim, Retain, Observe, CheckPktType;
  }

  lemma ProcessGathers(s: StreamState, p: NetworkPacket)
    requires s.fault == NoFault
    ensures Processes(s, p, Process(s, p))
  {
    hide RevPacket, Trim, Retain, Observe, InEstablished, CheckPktType;
    if p.transport.Tcp? && s.tcb.state == Established {
      EstablishedGathers(s, p);
    }
  }

  lemma ReceiveGathers(s: StreamState, room: nat)
    requires s.fault == NoFault && s.tcb.ack !in s.tcb.unordered
    ensures var it := Receive(s);
            Breaks(s, it, room) || (it.s.fault == NoFault && Waits(s, it))
  {
    hide Process;
    if s.inbox != [] {
      ProcessGathers(s.(inbox := s.inbox[1..]), s.inbox[0]);
    }
  }

  lemma DeliverGathers(s: StreamState, room: nat)
    requires s.fault == NoFault
    ensures Gathers(s, DeliverOrReceive(s, room), room)
  {
    hide Receive, RevPacket;
    ReceiveGathers(s.(tcb := TakeUnordered(s.tcb)), room);
  }

  lemma AfterWindowGathers(s: StreamState, fired: bool, room: nat)
    requires s.fault == NoFault
    ensures Gathers(s, AfterWindow(s, fired, room), room)
  {
    hide DeliverOrReceive, RevPacket;
    DeliverGathers(s, room);
  }

  lemma IterationGathers(s: StreamState, fired: bool, room: nat)
    requires s.tcb.retransmission == None && s.fault == NoFault
    ensures Gathers(s, ReadIteration(s, fired, room), room)
  {
    hide AfterWindow, RevPacket, AvailableReadBuffer;
    var it := ReadIteration(s, fired, room);
    var s2 := SendQueued(s);
    if s.tcb.state != Closed && s.tcb.state != FinWait2(false) {
      var s3 := s2.(tcb := ChangeRecvWindow(s2.tcb, AvailableReadBuffer(s2.tcb)));
      AfterWindowGathers(s3, fired, room);
      GathersSame(s, s3, it, room);
    }
  }

  // --- When an iteration gets to the inbox ---

  /** A payload to hand over. */
  ghost predicate Due(s: StreamState) {
    s.shutdown == NotRequested && s.tcb.ack in s.tcb.unordered
  }

  /** Nothing comes before the inbox. */
  ghost predicate Attentive(s: StreamState) {
    && s.fault == NoFault
    && s.tcb.retransmission == None
    && !Due(s)
    && 1 <= Rank(s.tcb.state) <= 4
    && s.tcb.state != FinWait1(true)
    && !(s.shutdown == Requested && s.tcb.state == Established && s.tcb.lastAck == s.tcb.seqno)
  }

  /** The stream as it meets the first packet of its inbox. */
  ghost function Meeting(s: StreamState): StreamState
    requires s.inbox != []
  {
    var s2 := SendQueued(s);
    s2.(tcb := TakeUnordered(ChangeRecvWindow(s2.tcb, AvailableReadBuffer(s2.tcb))), inbox := s.inbox[1..])
  }

  lemma HeadIsProcessed(s: StreamState, room: nat)
    requires Attentive(s) && s.inbox != []
    ensures ReadIteration(s, false, room) == Process(Meeting(s), s.inbox[0])
  {
    hide Process, RevPacket, AvailableReadBuffer;
  }

  lemma MeetingKeeps(w: World)
    requires Turning(w) && w.s.inbox != []
    ensures Midway(w.(s := Meeting(w.s))) && Wire(Meeting(w.s)) == Wire(w.s)
    ensures w.s.shutdown == NotRequested && w.s.tcb.ack !in w.s.tcb.unordered ==> Meeting(w.s).tcb.unordered == w.s.tcb.unordered
  {
    hide Sound, Advances, AvailableReadBuffer;
    var s2 := SendQueued(w.s);
    SendQueuedKeeps(w);
    var s3 := s2.(tcb := ChangeRecvWindow(s2.tcb, AvailableReadBuffer(s2.tcb)), inbox := w.s.inbox[1..]);
    Unseen(w.(s := s2), s3);
    TakeKeeps(w.(s := s3));
  }

  lemma ReadGoesOn(s: StreamState, room: nat)
    requires ReadIteration(s, false, room).Again?
    ensures PollRead(s, room, []) == PollRead(ReadIteration(s, false, room).s, room, [])
  {
    hide ReadIteration;
  }

  // --- The end of the stream ---

  /**
   A read never yields more than there is room for, and one that yields no bytes without error
   means that the stream has ended. After shutdown nothing is handed to the reader, so the one-byte
   buffer of `poll_shutdown` is never written.
   */
  lemma {:induction false} NoFalseEnd(w: World, room: nat, clock: seq<bool>)
    requires Turning(w)
    ensures var r := PollRead(w.s, room, clock);
            && |r.bytes| <= room
            && (r.poll.Ready? ==> r.poll.n == |r.bytes| && (r.bytes == [] ==> AtEnd(r.s)))
            && (w.s.shutdown != NotRequested ==> r.bytes == [] && r.s.fault != NoRoom)
    decreases |w.s.inbox|, 6 - Rank(w.s.tcb.state)
  {
    hide Inv, Numbers, Buffer, Bumps, Spoken, WireSound, ReadIteration, Collects;
    var fired := clock != [] && clock[0];
    var it := ReadIteration(w.s, fired, room);
    IterationGathers(w.s, fired, room);
    IterationDescends(w.s, fired, room);
    IterationKeeps(w, fired, room);
    if it.Again? {
      assert w.delivered + [] == w.delivered;
      NoFalseEnd(w.(s := it.s), room, if clock == [] then [] else clock[1..]);
    }
  }

  // --- The protocol check ---

  ghost predicate AllTcp(inbox: seq<NetworkPacket>) {
    forall i :: 0 <= i < |inbox| ==> inbox[i].transport.Tcp?
  }

  lemma {:induction false} TcpRead(w: World, room: nat, clock: seq<bool>)
    requires Turning(w) && AllTcp(w.s.inbox)
    ensures var r := PollRead(w.s, room, clock);
            r.s.fault != WrongProtocol && (r.s.fault == NoFault ==> AllTcp(r.s.inbox))
    decreases |w.s.inbox|, 6 - Rank(w.s.tcb.state)
  {
    hide Inv, Sound, Advances, ReadIteration, SubMap;
    var fired := clock != [] && clock[0];
    var it := ReadIteration(w.s, fired, room);
    NoRequest(w);
    IterationGathers(w.s, fired, room);
    IterationDescends(w.s, fired, room);
    IterationKeeps(w, fired, room);
    if it.Again? {
      assert w.delivered + [] == w.delivered;
      TcpRead(w.(s := it.s), room, if clock == [] then [] else clock[1..]);
    }
  }

  lemma TcpStep(w: World, e: Event)
    requires Inv(w) && w.s.fault == NoFault && AllTcp(w.s.inbox)
    requires e.Arrive? ==> e.p.transport.Tcp?
    ensures var w' := Step(w, e);
            w'.s.fault != WrongProtocol && (w'.s.fault == NoFault ==> AllTcp(w'.s.inbox))
  {
    hide Sound, PollRead, Resend, RevPacket;
    match e
    case Read(room, clock) => TcpRead(w, room, clock);
    case Shut(clock) =>
      var s := w.s.(shutdown := Requested);
      Unseen(w, s);
      TcpRead(w.(s := s), 1, clock);
    case _ => FlushIdle(w);
  }

  /** A stream that is sent only TCP packets never reaches the panic over the protocol. */
  lemma {:induction false} TcpNeverPanics(w: World, events: seq<Event>)
    requires Inv(w) && w.s.fault != WrongProtocol && (w.s.fault == NoFault ==> AllTcp(w.s.inbox))
    requires forall i :: 0 <= i < |events| && events[i].Arrive? ==> events[i].p.transport.Tcp?
    ensures Run(w, events).s.fault != WrongProtocol
    decreases |events|
  {
    hide Inv, Step, AllTcp;
    if events != [] {
      StepKeeps(w, events[0]);
      if w.s.fault == NoFault {
        TcpStep(w, events[0]);
      } else {
        FaultStays(w, events[0]);
      }
      TcpNeverPanics(Step(w, events[0]), events[1..]);
    }
  }

  // --- Reassembly ---

  /** Distance of a sequence number from the first byte of the peer's stream. */
  function Offset(q: u32, irs: u32): u32 {
    WrapSub(q, WrapAdd(irs, 1))
  }

  /** A segment that starts inside the peer's stream carries the bytes that stand there. */
  ghost predicate Agrees(q: u32, payload: seq<byte>, irs: u32, peer: seq<byte>) {
    var off := Offset(q, irs);
    payload != [] && off <= |peer| ==> off + |payload| <= |peer| && payload == peer[off..off + |payload|]
  }

  ghost predicate PacketAgrees(p: NetworkPacket, irs: u32, peer: seq<byte>) {
    p.transport.Tcp? ==> Agrees(p.transport.tcp.seqno, p.payload, irs, peer)
  }

  /** As long as no FIN has been counted, what has been delivered is the beginning of the peer's stream. */
  ghost predicate Faithful(w: World, peer: seq<byte>) {
    && |peer| < TWO32
    && (forall i :: 0 <= i < |w.s.inbox| ==> PacketAgrees(w.s.inbox[i], w.irs, peer))
    && (forall k :: k in w.s.tcb.unordered ==> Agrees(k, w.s.tcb.unordered[k], w.irs, peer))
    && (Bumps(w.s.tcb.ack, w.irs, |w.delivered|) == 0 ==> w.delivered <= peer)
  }

  lemma WaitingIsFaithful(w: World, it: Iteration, peer: seq<byte>)
    requires Turning(w) && Faithful(w, peer) && Waits(w.s, it)
    ensures Faithful(AfterIteration(w, it), peer)
  {
    hide Numbers, Buffer, WireSound, Agrees, Bumps, Spoken;
    assert w.delivered + [] == w.delivered;
    if it.s.tcb.ack != w.s.tcb.ack {
      BumpsNonzero(w.s.tcb.ack, w.irs, |w.delivered|);
    }
  }

  lemma BumpsNonzero(ack: u32, irs: u32, delivered: nat)
    requires Bumps(ack, irs, delivered) <= 2
    ensures Bumps(WrapAdd(ack, 1), irs, delivered) != 0
  {
  }

  lemma HandingIsFaithful(w: World, it: Iteration, peer: seq<byte>)
    requires Turning(w) && Faithful(w, peer) && Hands(w.s, it)
    ensures Faithful(AfterIteration(w, it), peer)
  {
    hide Numbers, Buffer, WireSound, Agrees, Acknowledging;
    BumpsDeliver(w.s.tcb.ack, w.irs, |w.delivered|, it.bytes);
    if Bumps(w.s.tcb.ack, w.irs, |w.delivered|) == 0 {
      NextIsNext(w.s.tcb.ack, it.bytes, w.irs, w.delivered, peer);
    }
  }

  /** The payload buffered at `ack` continues what has been delivered. */
  lemma NextIsNext(ack: u32, b: seq<byte>, irs: u32, delivered: seq<byte>, peer: seq<byte>)
    requires Bumps(ack, irs, |delivered|) == 0 && delivered <= peer && |peer| < TWO32
    requires b != [] && Agrees(ack, b, irs, peer)
    ensures delivered + b <= peer
  {
    assert Offset(ack, irs) == |delivered|;
    assert peer[..|delivered|] + peer[|delivered|..|delivered| + |b|] == peer[..|delivered| + |b|];
  }

  lemma {:induction false} ReadIsFaithful(w: World, room: nat, clock: seq<bool>, peer: seq<byte>)
    requires Turning(w) && Faithful(w, peer)
    ensures var w' := AfterRead(w, PollRead(w.s, room, clock));
            w'.s.fault == NoFault ==> Faithful(w', peer)
    decreases |w.s.inbox|, 6 - Rank(w.s.tcb.state)
  {
    hide Inv, Sound, Faithful, ReadIteration, Waits, Hands, Advances;
    var fired := clock != [] && clock[0];
    var it := ReadIteration(w.s, fired, room);
    NoRequest(w);
    IterationGathers(w.s, fired, room);
    IterationDescends(w.s, fired, room);
    IterationKeeps(w, fired, room);
    if it.s.fault == NoFault {
      if Waits(w.s, it) {
        WaitingIsFaithful(w, it, peer);
      } else {
        HandingIsFaithful(w, it, peer);
      }
      if it.Again? {
        assert w.delivered + [] == w.delivered;
        ReadIsFaithful(w.(s := it.s), room, if clock == [] then [] else clock[1..], peer);
      }
    }
  }

  lemma StepIsFaithful(w: World, e: Event, peer: seq<byte>)
    requires Inv(w) && w.s.fault == NoFault && Faithful(w, peer)
    requires e.Arrive? ==> PacketAgrees(e.p, w.irs, peer)
    ensures Step(w, e).s.fault == NoFault ==> Faithful(Step(w, e), peer)
  {
    hide Sound, PollRead, Agrees, Bumps, Resend, RevPacket;
    match e
    case Read(room, clock) => ReadIsFaithful(w, room, clock, peer);
    case Shut(clock) =>
      var s := w.s.(shutdown := Requested);
      Unseen(w, s);
      assert w.delivered + [] == w.delivered;
      if w.s.shutdown != Finished {
        ReadIsFaithful(w.(s := s), 1, clock, peer);
      }
    case _ => FlushIdle(w);
  }

  lemma {:induction false} RunIsFaithful(w: World, events: seq<Event>, peer: seq<byte>)
    requires Inv(w) && (w.s.fault == NoFault ==> Faithful(w, peer))
    requires forall i :: 0 <= i < |events| && events[i].Arrive? ==> PacketAgrees(events[i].p, w.irs, peer)
    ensures var w' := Run(w, events);
            w'.s.fault == NoFault ==> Faithful(w', peer)
    decreases |events|
  {
    hide Sound, Step, Faithful, PacketAgrees;
    if events != [] {
      StepKeeps(w, events[0]);
      if w.s.fault == NoFault {
        StepIsFaithful(w, events[0], peer);
      } else {
        FaultStays(w, events[0]);
      }
      RunIsFaithful(Step(w, events[0]), events[1..], peer);
    }
  }

  predicate BeforePeerFin(state: TcpState) {
    state.SynReceived? || state == Established || state == FinWait1(false)
  }

  /**
   Reassembly: if every arriving segment agrees with one byte stream, then in every reachable
   state the delivered bytes are a prefix of that stream for as long as `ack` counts exactly
   them. Before the peer's FIN it does, and no packet on the wire acknowledges more.
   */
  lemma Reassembly(ends: Endpoints, mtu: u16, iss: u32, irs: u32, events: seq<Event>, peer: seq<byte>)
    requires |peer| < TWO32
    requires forall i :: 0 <= i < |events| && events[i].Arrive? ==> PacketAgrees(events[i].p, irs, peer)
    ensures var w := Run(Start(ends, mtu, iss, irs), events);
            w.s.fault == NoFault ==>
              && (w.s.tcb.ack == Mod32(irs + 1 + |w.delivered|) ==> w.delivered <= peer)
              && (BeforePeerFin(w.s.tcb.state) ==>
                    && w.s.tcb.ack == Mod32(irs + 1 + |w.delivered|)
                    && (forall p :: p in w.s.out ==> exists n: nat :: n <= |w.delivered| && AcksUpTo(p, n, irs)))
  {
    hide Run, Step, Start, Faithful, PacketAgrees, Inv, Sound, Bumps;
    var w0 := Start(ends, mtu, iss, irs);
    var w := Run(w0, events);
    StartSound(ends, mtu, iss, irs);
    StartIsFaithful(ends, mtu, iss, irs, peer);
    RunKeeps(w0, events);
    RunIsFaithful(w0, events, peer);
    if w.s.fault == NoFault {
      FaithfulDelivers(w, peer);
      if BeforePeerFin(w.s.tcb.state) {
        AcksAreHonest(w);
      }
    }
  }

  lemma StartIsFaithful(ends: Endpoints, mtu: u16, iss: u32, irs: u32, peer: seq<byte>)
    requires |peer| < TWO32
    ensures var w := Start(ends, mtu, iss, irs);
            Faithful(w, peer) && w.irs == irs
  {
  }

  lemma FaithfulDelivers(w: World, peer: seq<byte>)
    requires Faithful(w, peer)
    ensures w.s.tcb.ack == Mod32(w.irs + 1 + |w.delivered|) ==> w.delivered <= peer
  {
  }

  lemma AcksAreHonest(w: World)
    requires Inv(w) && w.s.fault == NoFault
    requires BeforePeerFin(w.s.tcb.state)
    ensures Bumps(w.s.tcb.ack, w.irs, |w.delivered|) == 0 && w.s.tcb.ack == Mod32(w.irs + 1 + |w.delivered|)
    ensures forall p :: p in w.s.out ==> exists n: nat :: n <= |w.delivered| && AcksUpTo(p, n, w.irs)
  {
    hide Numbers, Buffer;
    forall p | p in w.s.out ensures exists n: nat :: n <= |w.delivered| && AcksUpTo(p, n, w.irs) {
      var i :| 0 <= i < |w.s.out| && w.s.out[i] == p;
      assert Wire(w.s)[i] == p;
    }
  }

  // --- The whole stream ---

  /** The segment ends within the first `n` bytes of the peer's stream. */
  ghost predicate Inside(q: u32, payload: seq<byte>, irs: u32, n: nat) {
    payload != [] ==> Offset(q, irs) + |payload| <= n
  }

  ghost predicate PacketInside(p: NetworkPacket, irs: u32, n: nat) {
    p.transport.Tcp? ==> Inside(p.transport.tcp.seqno, p.payload, irs, n)
  }

  ghost predicate AllInside(s: StreamState, irs: u32, n: nat) {
    && (forall i :: 0 <= i < |s.inbox| ==> PacketInside(s.inbox[i], irs, n))
    && (forall k :: k in s.tcb.unordered ==> Inside(k, s.tcb.unordered[k], irs, n))
  }

  /** Where `ack` stands after all `n` bytes and at most two bumps, nothing can start. */
  lemma NothingDue(w: World, n: nat)
    requires Turning(w) && AllInside(w.s, w.irs, n) && |w.delivered| == n && n + 2 < TWO32
    ensures w.s.tcb.ack !in w.s.tcb.unordered
  {
    hide Numbers, Buffer, WireSound, Spoken;
    assert Offset(w.s.tcb.ack, w.irs) == n + Bumps(w.s.tcb.ack, w.irs, n);
  }

  lemma InsideIteration(w: World, fired: bool, room: nat, n: nat)
    requires Turning(w) && AllInside(w.s, w.irs, n) && n + 2 < TWO32
    ensures var it := ReadIteration(w.s, fired, room);
            && (it.s.fault == NoFault ==> AllInside(it.s, w.irs, n))
            && (|w.delivered| == n && it.Stop? ==> it.bytes == [])
  {
    hide Sound, ReadIteration, Inside;
    NoRequest(w);
    IterationGathers(w.s, fired, room);
    if |w.delivered| == n {
      NothingDue(w, n);
    }
  }

  lemma {:induction false} InsideRead(w: World, room: nat, clock: seq<bool>, n: nat)
    requires Turning(w) && AllInside(w.s, w.irs, n) && n + 2 < TWO32
    ensures var r := PollRead(w.s, room, clock);
            && (r.s.fault == NoFault ==> AllInside(r.s, w.irs, n))
            && (|w.delivered| == n ==> r.bytes == [])
    decreases |w.s.inbox|, 6 - Rank(w.s.tcb.state)
  {
    hide Inv, Sound, Advances, ReadIteration, AllInside;
    var fired := clock != [] && clock[0];
    var it := ReadIteration(w.s, fired, room);
    InsideIteration(w, fired, room, n);
    IterationDescends(w.s, fired, room);
    IterationKeeps(w, fired, room);
    if it.Again? {
      assert w.delivered + [] == w.delivered;
      InsideRead(w.(s := it.s), room, if clock == [] then [] else clock[1..], n);
    }
  }

  lemma InsideStep(w: World, e: Event, n: nat)
    requires Inv(w) && w.s.fault == NoFault && AllInside(w.s, w.irs, n) && n + 2 < TWO32
    requires e.Arrive? ==> PacketInside(e.p, w.irs, n)
    ensures var w' := Step(w, e);
            && (w'.s.fault == NoFault ==> AllInside(w'.s, w.irs, n))
            && (|w.delivered| == n ==> w'.delivered == w.delivered)
  {
    hide Sound, PollRead, Resend, RevPacket, Inside;
    assert w.delivered + [] == w.delivered;
    match e
    case Read(room, clock) => InsideRead(w, room, clock, n);
    case Shut(clock) =>
      var s := w.s.(shutdown := Requested);
      Unseen(w, s);
      InsideRead(w.(s := s), 1, clock, n);
    case _ => FlushIdle(w);
  }

  lemma {:induction false} InsideRun(w: World, events: seq<Event>, n: nat)
    requires Inv(w) && (w.s.fault == NoFault ==> AllInside(w.s, w.irs, n)) && n + 2 < TWO32
    requires forall i :: 0 <= i < |events| && events[i].Arrive? ==> PacketInside(events[i].p, w.irs, n)
    ensures var w' := Run(w, events);
            && w'.irs == w.irs
            && (w'.s.fault == NoFault ==> AllInside(w'.s, w.irs, n))
            && (|w.delivered| == n ==> w'.delivered == w.delivered)
    decreases |events|
  {
    hide Inv, Sound, Step, AllInside, PacketInside;
    if events != [] {
      StepKeeps(w, events[0]);
      if w.s.fault == NoFault {
        InsideStep(w, events[0], n);
      } else {
        FaultStays(w, events[0]);
      }
      InsideRun(Step(w, events[0]), events[1..], n);
    }
  }

  /**
   A peer that sends nothing past the end of its stream: once all of it has been delivered, that stays all,
   in every continuation, with the peer's FIN or without.
   */
  lemma WholeStreamStays(ends: Endpoints, mtu: u16, iss: u32, irs: u32, events: seq<Event>, more: seq<Event>, n: nat)
    requires n + 2 < TWO32
    requires forall i :: 0 <= i < |events| && events[i].Arrive? ==> PacketInside(events[i].p, irs, n)
    requires forall i :: 0 <= i < |more| && more[i].Arrive? ==> PacketInside(more[i].p, irs, n)
    ensures var w := Run(Start(ends, mtu, iss, irs), events);
            |w.delivered| == n ==> Run(w, more).delivered == w.delivered
  {
    hide Inv, Sound, Run, PacketInside;
    var w0 := Start(ends, mtu, iss, irs);
    StartSound(ends, mtu, iss, irs);
    RunKeeps(w0, events);
    InsideRun(w0, events, n);
    InsideRun(Run(w0, events), more, n);
  }
}

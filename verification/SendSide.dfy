/**
 The sending half over whole runs, for every initial sequence number, any peer and any
 windows: what a stream satisfies after any sequence of events, panics included.
 */
module SendSide {
  import opened Words
  import opened Packets
  import opened TcbSpec
  import opened SendBuffer
  import opened StreamSpec
  import opened Invariants
  import opened Preservation

  ghost predicate Reachable(w: World) {
    exists ends, mtu, iss, irs, events :: w == Run(Start(ends, mtu, iss, irs), events)
  }

  lemma ReachableKeeps(w: World)
    requires Reachable(w)
    ensures Inv(w)
  {
    hide Inv, Advances, Run, Start;
    var ends, mtu, iss, irs, events :| w == Run(Start(ends, mtu, iss, irs), events);
    StartSound(ends, mtu, iss, irs);
    RunKeeps(Start(ends, mtu, iss, irs), events);
  }

  /** Everything the stream has put into its sequence space. */
  ghost function Total(w: World): nat {
    Syns(Wire(w.s)) + |w.sent| + Fins(Wire(w.s))
  }

  /**
   Sequence-space accounting: `seqno` counts one SYN, the bytes accepted and one FIN,
   modulo 2^32. SYN and FIN stand at their places, and nothing but control packets follows the FIN.
   */
  lemma SequenceSpace(w: World)
    requires Reachable(w)
    ensures w.s.tcb.seqno == Mod32(w.iss + Total(w))
    ensures Syns(Wire(w.s)) <= 1 && Fins(Wire(w.s)) <= 1
    ensures QuietAfterFin(Wire(w.s))
    ensures forall i :: 0 <= i < |Wire(w.s)| ==> Placed(Wire(w.s)[i], w.iss, |w.sent|)
  {
    hide Reachable, Inv, Buffer, NonEmpty, Bumps, Honest, Placed, Transmitted, Announced, Ended;
    ReachableKeeps(w);
    var v := SenderSound(w);
    assert Wire(v.s) == Wire(w.s);
  }

  /**
   `lastAck` never wraps, and the outstanding part of the sequence space is bounded for any
   windows. So the state is wrapped, `lastAck > seqno`, exactly when the total has passed 2^32.
   */
  lemma OutstandingBound(w: World)
    requires Reachable(w)
    ensures WrapSub(w.s.tcb.seqno, w.s.tcb.lastAck) <= 16383 + MaxPayload(w.s) + 1
    ensures w.iss <= w.s.tcb.lastAck == w.iss + Total(w) - WrapSub(w.s.tcb.seqno, w.s.tcb.lastAck)
    ensures w.s.tcb.lastAck <= w.s.tcb.seqno <==> w.iss + Total(w) < TWO32
  {
    hide Reachable, Inv, Buffer, NonEmpty, Bumps, Spoken, WireSound;
    ReachableKeeps(w);
    var v := SenderSound(w);
    assert Wire(v.s) == Wire(w.s);
  }

  /**
   The send buffer refines a byte queue: while the window is not wrapped, the in-flight
   packets, put in order, are exactly the accepted bytes not yet acknowledged.
   */
  lemma SendBufferIsUnackedSuffix(w: World)
    requires Reachable(w) && w.s.tcb.state == Established && w.s.tcb.lastAck <= w.s.tcb.seqno
    ensures var una := Max(w.s.tcb.lastAck, w.iss + 1);
            && una <= w.s.tcb.seqno == w.iss + 1 + |w.sent|
            && Represents(w.s.tcb.inflight, una, w.sent[una - w.iss - 1..])
    ensures forall p :: p in w.s.tcb.inflight ==> p.seqno + |p.payload| <= w.s.tcb.seqno
  {
    hide Reachable, Inv, Sound, Represents, PieceOf;
    ReachableKeeps(w);
    var v := SenderSound(w);
    BufferHolds(v);
    var una := Max(w.s.tcb.lastAck, w.iss + 1);
    EndsInside(w.s.tcb.inflight, una, w.sent[una - w.iss - 1..]);
  }

  lemma EndsInside(l: seq<InflightPacket>, lo: int, data: seq<byte>)
    requires Represents(l, lo, data)
    ensures forall p :: p in l ==> p.seqno + |p.payload| <= lo + |data|
  {
    hide Represents, PieceOf;
    forall p | p in l ensures p.seqno + |p.payload| <= lo + |data| {
      RepresentsInside(l, lo, data, p);
      PieceEnd(p, lo, data);
    }
  }

  lemma PieceEnd(p: InflightPacket, lo: int, data: seq<byte>)
    requires PieceOf(p, lo, data)
    ensures p.seqno + |p.payload| <= lo + |data|
  {
  }

  // --- What is on the wire ---

  /** Every data packet ever sent, first time or again, carries the accepted bytes its sequence number stands for. */
  lemma WireCarriesSent(w: World, i: nat)
    requires Reachable(w) && i < |w.s.out| && w.s.out[i].payload != []
    ensures exists off: nat :: SentAt(w.s.out[i], off, w.iss, w.sent)
  {
    hide Reachable, Inv, Buffer, NonEmpty, Bumps, Spoken, Numbers, QuietAfterFin;
    ReachableKeeps(w);
    var v := SenderSound(w);
    assert Wire(v.s)[i] == w.s.out[i];
  }

  /**
   Nothing is accepted or acknowledged in silence: every byte that a write has accepted is on the
   wire, a closed stream has said so, and in every state up to FinWait1 the current `ack` has been
   announced, unless the reader had no room for what it counts.
   */
  lemma NothingLeftUnsaid(w: World, off: nat)
    requires Reachable(w)
    ensures off < |w.sent| ==> Transmitted(off, Wire(w.s), w.iss, w.sent)
    ensures w.s.tcb.state == Closed ==> Ended(Wire(w.s))
    ensures w.s.fault != NoRoom && Answering(w.s.tcb.state) ==> Announced(Wire(w.s), w.s.tcb.ack)
  {
    hide Reachable, Inv, Buffer, NonEmpty, Bumps, Numbers, WireSound, Placed, Transmitted, Announced, Ended;
    ReachableKeeps(w);
    var v := SenderSound(w);
    assert Wire(v.s) == Wire(w.s);
  }

  /**
   Two packets that both cover a sequence number carry the same byte there, across the wrap too, as long
   as no more bytes have been accepted than there are sequence numbers.
   */
  lemma OverlapsAgree(w: World, i: nat, j: nat, x: nat, y: nat)
    requires Reachable(w) && |w.sent| <= TWO32
    requires i < |w.s.out| && x < |w.s.out[i].payload| && w.s.out[i].transport.Tcp?
    requires j < |w.s.out| && y < |w.s.out[j].payload| && w.s.out[j].transport.Tcp?
    requires Mod32(w.s.out[i].transport.tcp.seqno + x) == Mod32(w.s.out[j].transport.tcp.seqno + y)
    ensures w.s.out[i].payload[x] == w.s.out[j].payload[y]
  {
    hide Reachable, SentAt;
    WireCarriesSent(w, i);
    WireCarriesSent(w, j);
    var offI: nat :| SentAt(w.s.out[i], offI, w.iss, w.sent);
    var offJ: nat :| SentAt(w.s.out[j], offJ, w.iss, w.sent);
    ByteAt(w.s.out[i], offI, w.iss, w.sent, x);
    ByteAt(w.s.out[j], offJ, w.iss, w.sent, y);
    OneByteEach(w.iss + 1, offI + x, offJ + y);
  }

  lemma ByteAt(p: NetworkPacket, off: nat, iss: u32, sent: seq<byte>, x: nat)
    requires SentAt(p, off, iss, sent) && x < |p.payload|
    ensures off + x < |sent| && p.payload[x] == sent[off + x]
    ensures Mod32(p.transport.tcp.seqno + x) == Mod32(iss + 1 + (off + x))
  {
  }

  /** Offsets below 2^32 have different sequence numbers. */
  lemma OneByteEach(base: nat, m: nat, n: nat)
    requires m < TWO32 && n < TWO32 && Mod32(base + m) == Mod32(base + n)
    ensures m == n
  {
  }

  // --- Closing ---

  /** Every byte accepted is acknowledged, and no byte waits in the in-flight list. */
  ghost predicate Settled(w: World) {
    && w.iss + 1 + |w.sent| <= w.s.tcb.lastAck
    && forall p :: p in w.s.tcb.inflight ==> p.payload == []
  }

  lemma FinWait1IsSettled(w: World)
    requires Sound(w) && w.s.tcb.state == FinWait1(false)
    ensures Settled(w)
  {
    hide Acknowledging, NonEmpty, Bumps, Spoken, WireSound;
  }

  /** Receiving never leads from Established to FinWait1(false). */
  lemma ReceivingSendsNoFin(s: StreamState, p: NetworkPacket)
    requires s.tcb.state == Established
    ensures Process(s, p).s.tcb.state != FinWait1(false)
  {
    hide CheckPktType, RevPacket, Trim, Retain, Observe;
  }

  lemma DeliverySendsFin(s: StreamState, room: nat)
    requires s.tcb.state == Established
    ensures var it := DeliverOrReceive(s, room);
            it.s.tcb.state == FinWait1(false) ==>
              it.Again? && s.shutdown == Requested && it.s.tcb.lastAck == s.tcb.lastAck == s.tcb.seqno && it.s.fault == s.fault
  {
    hide Process, RevPacket;
    if s.inbox != [] {
      ReceivingSendsNoFin(s.(tcb := TakeUnordered(s.tcb), inbox := s.inbox[1..]), s.inbox[0]);
    }
  }

  /** Only the shutdown branch leads to FinWait1(false), and only with nothing outstanding. */
  lemma IterationSendsFin(s: StreamState, fired: bool, room: nat)
    requires s.tcb.state == Established && s.fault == NoFault && s.tcb.retransmission == None
    ensures var it := ReadIteration(s, fired, room);
            it.s.tcb.state == FinWait1(false) ==>
              it.Again? && s.shutdown == Requested && it.s.tcb.lastAck == s.tcb.lastAck == s.tcb.seqno && it.s.fault == NoFault
  {
    hide DeliverOrReceive, RevPacket, AvailableReadBuffer, Resend;
    var s2 := SendQueued(s);
    DeliverySendsFin(s2.(tcb := ChangeRecvWindow(s2.tcb, AvailableReadBuffer(s2.tcb))), room);
  }

  lemma AllAcked(w: World)
    requires Sound(w) && w.s.tcb.state == Established && w.s.tcb.lastAck == w.s.tcb.seqno
    ensures w.s.tcb.lastAck == w.iss + 1 + |w.sent|
  {
    hide Buffer, Acknowledging, NonEmpty, Bumps, Spoken, WireSound;
  }

  /**
   Any iteration, in any poll, that sends the FIN because of shutdown does so with every accepted
   byte acknowledged, exactly up to the FIN, and no data in flight. However that poll and the run
   go on, nothing more is accepted and everything stays acknowledged.
   */
  lemma ShutdownFinIsGraceful(w: World, fired: bool, room: nat, room': nat, clock: seq<bool>, events: seq<Event>)
    requires Turning(w) && w.s.tcb.state == Established
    requires ReadIteration(w.s, fired, room).s.tcb.state == FinWait1(false)
    ensures w.s.shutdown == Requested
    ensures var w1 := AfterIteration(w, ReadIteration(w.s, fired, room));
            var w2 := Run(AfterRead(w1, PollRead(w1.s, room', clock)), events);
            && Settled(w1)
            && w1.s.tcb.lastAck == w.iss + 1 + |w.sent|
            && w2.sent == w.sent
            && w.iss + 1 + |w2.sent| <= w2.s.tcb.lastAck
  {
    hide Sound, Inv, ReadIteration, PollRead, Run, Settled;
    NoRequest(w);
    IterationKeeps(w, fired, room);
    IterationSendsFin(w.s, fired, room);
    AllAcked(w);
    var w1 := AfterIteration(w, ReadIteration(w.s, fired, room));
    FinWait1IsSettled(w1);
    assert w1.sent == w.sent;
    ReadKeeps(w1, room', clock);
    var w' := AfterRead(w1, PollRead(w1.s, room', clock));
    RunKeeps(w', events);
  }

  /**
   The same read off any reachable state: if a FIN is on the wire and the close handshake has
   added at most one to `ack`, which an answer to the peer's FIN would have made two, every
   accepted byte is acknowledged.
   */
  lemma GracefulClose(w: World)
    requires Reachable(w) && w.s.fault != NoRoom && Fins(Wire(w.s)) == 1
    requires WrapSub(w.s.tcb.ack, Mod32(w.irs + 1 + |w.delivered|)) < 2
    ensures w.iss + 1 + |w.sent| <= w.s.tcb.lastAck
  {
    hide Reachable, Numbers, Buffer, NonEmpty, Spoken, WireSound, Fins;
    ReachableKeeps(w);
  }

  /** State changes inside one read, iteration by iteration. */
  ghost function ChangesInRead(s: StreamState, room: nat, clock: seq<bool>): nat
    decreases |s.inbox|, 6 - Rank(s.tcb.state)
  {
    var fired := clock != [] && clock[0];
    IterationDescends(s, fired, room);
    var it := ReadIteration(s, fired, room);
    (if it.s.tcb.state == s.tcb.state then 0 else 1) +
    if it.Again? then ChangesInRead(it.s, room, if clock == [] then [] else clock[1..]) else 0
  }

  lemma {:induction false} ReadClimbs(w: World, room: nat, clock: seq<bool>)
    requires Turning(w)
    ensures ChangesInRead(w.s, room, clock) + Rank(w.s.tcb.state) <= Rank(PollRead(w.s, room, clock).s.tcb.state)
    decreases |w.s.inbox|, 6 - Rank(w.s.tcb.state)
  {
    hide Turning, Inv, ReadIteration;
    var fired := clock != [] && clock[0];
    IterationDescends(w.s, fired, room);
    IterationKeeps(w, fired, room);
    var it := ReadIteration(w.s, fired, room);
    if it.Again? {
      assert w.delivered + [] == w.delivered;
      ReadClimbs(w.(s := it.s), room, if clock == [] then [] else clock[1..]);
    }
  }

  /** State changes in a whole run; only reading and shutting down can change the state. */
  ghost function StateChanges(w: World, events: seq<Event>): nat
    decreases |events|
  {
    if events == [] then 0
    else
      (if w.s.fault != NoFault then 0
       else match events[0]
         case Read(room, clock) => ChangesInRead(w.s, room, clock)
         case Shut(clock) => if w.s.shutdown == Finished then 0 else ChangesInRead(w.s.(shutdown := Requested), 1, clock)
         case _ => if Step(w, events[0]).s.tcb.state == w.s.tcb.state then 0 else 1) +
      StateChanges(Step(w, events[0]), events[1..])
  }

  /** Every change of state climbs, so there are at most six, and Closed is final. */
  lemma {:induction false} AtMostSixChanges(w: World, events: seq<Event>)
    requires Inv(w)
    ensures StateChanges(w, events) + Rank(w.s.tcb.state) <= Rank(Run(w, events).s.tcb.state) <= 6
    ensures w.s.tcb.state == Closed ==> Run(w, events).s.tcb.state == Closed
    decreases |events|
  {
    hide Sound, PollRead, PollWrite, Flushed, ChangesInRead;
    if events != [] {
      StepKeeps(w, events[0]);
      AtMostSixChanges(Step(w, events[0]), events[1..]);
      if w.s.fault == NoFault {
        match events[0]
        case Read(room, clock) => ReadClimbs(w, room, clock);
        case Shut(clock) =>
          var s := w.s.(shutdown := Requested);
          Unseen(w, s);
          ReadClimbs(w.(s := s), 1, clock);
        case _ =>
      }
    }
  }

  /** Control packets are neither lost nor overwritten, and retransmission requests do not outlive a poll. */
  lemma NothingQueuedIsLost(w: World, e: Event)
    requires Reachable(w) && w.s.fault == NoFault
    ensures Wire(w.s) <= Wire(Step(w, e).s)
    ensures w.s.packetToSend.Some? ==> w.s.tcb.state == Closed
    ensures w.s.tcb.retransmission == None
  {
    hide Reachable, Step, Numbers, Buffer, NonEmpty, Bumps, Spoken, WireSound;
    ReachableKeeps(w);
    StepKeeps(w, e);
  }

  /**
   Acknowledgements move `lastAck` forward only. Shutdown is one-way: nothing is delivered after
   it, and `ack` moves by no more than the close handshake adds.
   */
  lemma OneWay(w: World, events: seq<Event>)
    requires Reachable(w)
    ensures var w' := Run(w, events);
            && w.s.tcb.lastAck <= w'.s.tcb.lastAck
            && (w.s.shutdown != NotRequested ==>
                  && w'.s.shutdown != NotRequested
                  && w'.delivered == w.delivered
                  && (w'.s.fault != NoRoom ==> WrapSub(w'.s.tcb.ack, Mod32(w.irs + 1 + |w.delivered|)) <= 2))
  {
    hide Reachable, Run, Numbers, Buffer, WireSound, Spoken, NonEmpty;
    ReachableKeeps(w);
    RunKeeps(w, events);
  }

  // --- The retransmission lookup ---

  /** Whenever the lookup has failed, the peer had not even acknowledged the SYN. */
  lemma LookupFailureLeavesSynUnacked(w: World)
    requires Reachable(w) && w.s.fault == LookupFailed
    ensures w.s.tcb.state == Established && w.s.tcb.lastAck == w.iss
  {
    hide Reachable, Sound;
    ReachableKeeps(w);
  }

  /** Once the SYN is acknowledged the lookup never fails again, whatever the peer sends. */
  lemma LookupNeverFailsAgain(w: World, events: seq<Event>)
    requires Inv(w) && w.iss < w.s.tcb.lastAck && w.s.fault != LookupFailed
    ensures Run(w, events).s.fault != LookupFailed
  {
    hide Sound, Run;
    RunKeeps(w, events);
  }

  /** A segment that the handshake would take for its last one. */
  ghost predicate Completes(p: NetworkPacket, iss: u32) {
    && p.transport.Tcp?
    && p.transport.tcp.flags == ACK
    && iss <= p.transport.tcp.ackno <= iss + 1 < TWO32
  }

  /** The first such segment acknowledges the SYN. */
  ghost predicate SynAckedFirst(packets: seq<NetworkPacket>, iss: u32) {
    packets != [] ==>
      if Completes(packets[0], iss) then packets[0].transport.tcp.ackno == iss + 1 else SynAckedFirst(packets[1..], iss)
  }

  /** The handshake has been or, with `future` still to come, will be completed properly. */
  ghost predicate Proper(w: World, future: seq<NetworkPacket>) {
    && (w.s.tcb.state.SynReceived? ==> SynAckedFirst(w.s.inbox + future, w.iss))
    && (w.s.tcb.state == Established ==> w.iss < w.s.tcb.lastAck)
  }

  /** While opening, a packet that completes nothing changes nothing but to close; one that completes gives its `ackno`. */
  lemma OpeningProcess(s: StreamState, p: NetworkPacket, iss: u32)
    requires s.tcb.state == SynReceived(true) && s.tcb.lastAck == iss && s.tcb.seqno == WrapAdd(iss, 1)
    ensures var it := Process(s, p);
            && it.s.inbox == s.inbox
            && (it.s.tcb.state == SynReceived(true) || it.s.tcb.state == Established || it.s.tcb.state == Closed)
            && (it.s.tcb.state == Established ==> Completes(p, iss) && it.s.tcb.lastAck == p.transport.tcp.ackno)
            && (it.s.tcb.state == SynReceived(true) ==> !Completes(p, iss) || it.s.fault != NoFault)
  {
    if p.transport.Tcp? {
      AcceptedIffPlainlyBetween(s.tcb, p.transport.tcp, p.payload);
    }
    hide CheckPktType, RevPacket, Trim, Retain, Observe, InEstablished, InFinWait1, InFinWait2;
  }

  /** From an opening state: nothing is taken from the inbox, or its first packet decides. */
  ghost predicate OpensBy(s: StreamState, it: Iteration, iss: u32) {
    || (it.s.inbox == s.inbox && (it.s.tcb.state.SynReceived? || it.s.tcb.state == Closed))
    || (&& s.inbox != [] && it.s.inbox == s.inbox[1..]
        && (it.s.tcb.state == SynReceived(true) || it.s.tcb.state == Established || it.s.tcb.state == Closed)
        && (it.s.tcb.state == Established ==> Completes(s.inbox[0], iss) && it.s.tcb.lastAck == s.inbox[0].transport.tcp.ackno)
        && (it.s.tcb.state == SynReceived(true) ==> !Completes(s.inbox[0], iss) || it.s.fault != NoFault))
  }

  lemma OpeningDelivery(s: StreamState, room: nat, iss: u32)
    requires s.tcb.state == SynReceived(true) && s.tcb.lastAck == iss && s.tcb.seqno == WrapAdd(iss, 1)
    ensures OpensBy(s, DeliverOrReceive(s, room), iss)
  {
    hide Process, RevPacket, Completes;
    if s.inbox != [] {
      OpeningProcess(s.(tcb := TakeUnordered(s.tcb), inbox := s.inbox[1..]), s.inbox[0], iss);
    }
  }

  lemma OpeningIteration(s: StreamState, fired: bool, room: nat, iss: u32)
    requires s.tcb.state.SynReceived? && s.fault == NoFault
    requires s.tcb.state == SynReceived(true) ==> s.tcb.lastAck == iss && s.tcb.seqno == WrapAdd(iss, 1)
    ensures OpensBy(s, ReadIteration(s, fired, room), iss)
  {
    hide DeliverOrReceive, RevPacket, AvailableReadBuffer, Completes;
    if s.tcb.state == SynReceived(true) {
      var s2 := SendQueued(s);
      OpeningDelivery(s2.(tcb := ChangeRecvWindow(s2.tcb, AvailableReadBuffer(s2.tcb))), room, iss);
    }
  }

  lemma OpeningNumbers(w: World)
    requires Sound(w) && w.s.tcb.state.SynReceived?
    ensures w.s.tcb.lastAck == w.iss
    ensures w.s.tcb.state == SynReceived(true) ==> w.s.tcb.seqno == WrapAdd(w.iss, 1)
  {
    hide Buffer, NonEmpty, Bumps, Spoken, WireSound;
  }

  lemma ProperIteration(w: World, fired: bool, room: nat, future: seq<NetworkPacket>)
    requires Turning(w) && Proper(w, future)
    ensures var it := ReadIteration(w.s, fired, room);
            it.s.fault != LookupFailed && (it.s.fault == NoFault ==> Proper(AfterIteration(w, it), future))
  {
    hide Sound, ReadIteration, Completes;
    var it := ReadIteration(w.s, fired, room);
    IterationKeeps(w, fired, room);
    if w.s.tcb.state.SynReceived? {
      OpeningNumbers(w);
      OpeningIteration(w.s, fired, room, w.iss);
      if w.s.inbox != [] {
        assert (w.s.inbox + future)[1..] == w.s.inbox[1..] + future;
        assert (w.s.inbox + future)[0] == w.s.inbox[0];
      }
    }
  }

  lemma {:induction false} ProperRead(w: World, room: nat, clock: seq<bool>, future: seq<NetworkPacket>)
    requires Turning(w) && Proper(w, future)
    ensures var w' := AfterRead(w, PollRead(w.s, room, clock));
            w'.s.fault != LookupFailed && (w'.s.fault == NoFault ==> Proper(w', future))
    decreases |w.s.inbox|, 6 - Rank(w.s.tcb.state)
  {
    hide Sound, Inv, ReadIteration, Proper;
    var fired := clock != [] && clock[0];
    var it := ReadIteration(w.s, fired, room);
    IterationDescends(w.s, fired, room);
    IterationKeeps(w, fired, room);
    ProperIteration(w, fired, room, future);
    if it.Again? {
      assert w.delivered + [] == w.delivered;
      ProperRead(w.(s := it.s), room, if clock == [] then [] else clock[1..], future);
    }
  }

  lemma ProperStep(w: World, e: Event, future: seq<NetworkPacket>)
    requires Inv(w) && w.s.fault == NoFault && Proper(w, (if e.Arrive? then [e.p] else []) + future)
    ensures Step(w, e).s.fault != LookupFailed
    ensures Step(w, e).s.fault == NoFault ==> Proper(Step(w, e), future)
  {
    hide Sound, PollRead, RevPacket, Resend, SynAckedFirst;
    assert [] + future == future;
    match e
    case Arrive(p) => assert w.s.inbox + ([p] + future) == (w.s.inbox + [p]) + future;
    case Read(room, clock) => ProperRead(w, room, clock, future);
    case Shut(clock) =>
      var s := w.s.(shutdown := Requested);
      Unseen(w, s);
      ProperRead(w.(s := s), 1, clock, future);
    case _ => FlushIdle(w);
  }

  /** What fails the lookup is that the very segment that completes the handshake acknowledges `iss`; nothing later can. */
  lemma {:induction false} LookupNeverFails(w: World, events: seq<Event>)
    requires Inv(w) && w.s.fault != LookupFailed
    requires w.s.fault == NoFault ==> Proper(w, Arrivals(events))
    ensures Run(w, events).s.fault != LookupFailed
    decreases |events|
  {
    hide Sound, Step, Proper;
    if events != [] {
      var w1 := Step(w, events[0]);
      StepKeeps(w, events[0]);
      if w.s.fault == NoFault {
        ProperStep(w, events[0], Arrivals(events[1..]));
      } else {
        FaultStays(w, events[0]);
      }
      LookupNeverFails(w1, events[1..]);
    }
  }
}

/** Retransmission as an application and its peer see it: when a duplicate acknowledgement brings the missing byte. */
module Resending {
  import opened Words
  import opened Packets
  import opened TcbSpec
  import opened StreamSpec
  import opened Invariants
  import opened Preservation
  import opened ReceiveSide
  import opened Grammar
  import opened Responses

  /** No packet in flight is empty. */
  ghost predicate Carries(l: seq<InflightPacket>) {
    forall p :: p in l ==> p.payload != []
  }

  lemma TrimCarries(l: seq<InflightPacket>, a: u32)
    requires Carries(l)
    ensures Carries(Trim(l, a))
  {
  }

  lemma {:induction false} RetainCarries(l: seq<InflightPacket>, a: u32)
    requires Carries(l)
    ensures Carries(Retain(l, a))
  {
    if l != [] {
      assert l[0] in l;
      RetainCarries(l[1..], a);
    }
  }

  lemma AckCarries(t: TcbState, a: u32)
    requires Carries(t.inflight)
    ensures Carries(ChangeLastAck(t, a).inflight)
  {
    hide Carries, Trim, Retain;
    TrimCarries(t.inflight, a);
    RetainCarries(Trim(t.inflight, a), ChangeLastAck(t, a).lastAck);
  }

  lemma EstablishedCarries(s: StreamState, h: TcpHeader, payload: seq<byte>)
    requires Carries(s.tcb.inflight)
    ensures Carries(InEstablished(s, h, payload).s.tcb.inflight)
  {
    AckCarries(s.tcb, h.ackno);
    hide Carries, CheckPktType, ChangeLastAck, RevPacket, Observe, FirstAt;
  }

  lemma ProcessCarries(s: StreamState, p: NetworkPacket)
    requires Carries(s.tcb.inflight)
    ensures Carries(Process(s, p).s.tcb.inflight)
  {
    hide Carries, CheckPktType, ChangeLastAck, RevPacket, Observe, InEstablished;
    if p.transport.Tcp? {
      EstablishedCarries(s, p.transport.tcp, p.payload);
      AckCarries(s.tcb, p.transport.tcp.ackno);
    }
  }

  lemma DeliveryCarries(s: StreamState, room: nat)
    requires Carries(s.tcb.inflight)
    ensures Carries(DeliverOrReceive(s, room).s.tcb.inflight)
  {
    hide Carries, Process, RevPacket;
    if s.inbox != [] {
      ProcessCarries(s.(tcb := TakeUnordered(s.tcb), inbox := s.inbox[1..]), s.inbox[0]);
    }
  }

  lemma AfterWindowCarries(s: StreamState, fired: bool, room: nat)
    requires Carries(s.tcb.inflight)
    ensures Carries(AfterWindow(s, fired, room).s.tcb.inflight)
  {
    hide Carries, DeliverOrReceive, RevPacket;
    DeliveryCarries(s, room);
  }

  lemma IterationCarries(s: StreamState, fired: bool, room: nat)
    requires Carries(s.tcb.inflight)
    ensures Carries(ReadIteration(s, fired, room).s.tcb.inflight)
  {
    hide Carries, AfterWindow, RevPacket, AvailableReadBuffer, FirstAt;
    var s2 := SendQueued(Flushed(s));
    AfterWindowCarries(s2.(tcb := ChangeRecvWindow(s2.tcb, AvailableReadBuffer(s2.tcb))), fired, room);
  }

  lemma {:induction false} ReadCarries(s: StreamState, room: nat, clock: seq<bool>)
    requires Carries(s.tcb.inflight)
    ensures Carries(PollRead(s, room, clock).s.tcb.inflight)
    decreases |s.inbox|, 6 - Rank(s.tcb.state)
  {
    hide Carries, ReadIteration;
    var fired := clock != [] && clock[0];
    var it := ReadIteration(s, fired, room);
    IterationCarries(s, fired, room);
    IterationDescends(s, fired, room);
    if it.Again? {
      ReadCarries(it.s, room, if clock == [] then [] else clock[1..]);
    }
  }

  lemma WriteCarries(s: StreamState, buf: seq<byte>)
    requires Carries(s.tcb.inflight) && PollWrite(s, buf).poll != Ready(0)
    ensures Carries(PollWrite(s, buf).s.tcb.inflight)
  {
    hide ReplyHeader, FirstAt;
  }

  lemma StepCarries(w: World, e: Event)
    requires Carries(w.s.tcb.inflight) && w.s.fault == NoFault
    requires e.Write? ==> PollWrite(w.s, e.buf).poll != Ready(0)
    ensures Carries(Step(w, e).s.tcb.inflight)
  {
    hide Carries, PollRead, PollWrite, RevPacket, FirstAt;
    match e
    case Read(room, clock) => ReadCarries(w.s, room, clock);
    case Shut(clock) => ReadCarries(w.s.(shutdown := Requested), 1, clock);
    case Write(buf) => WriteCarries(w.s, buf);
    case _ =>
  }

  /** No write of the run returns Ready(0). */
  ghost predicate EveryWriteCarries(w: World, events: seq<Event>)
    decreases |events|
  {
    events != [] ==>
      && (w.s.fault == NoFault && events[0].Write? ==> PollWrite(w.s, events[0].buf).poll != Ready(0))
      && EveryWriteCarries(Step(w, events[0]), events[1..])
  }

  lemma {:induction false} RunCarries(w: World, events: seq<Event>)
    requires Carries(w.s.tcb.inflight) && EveryWriteCarries(w, events)
    ensures Carries(Run(w, events).s.tcb.inflight)
    decreases |events|
  {
    hide Carries, Step, PollWrite;
    if events != [] {
      if w.s.fault == NoFault {
        StepCarries(w, events[0]);
      } else {
        FaultStays(w, events[0]);
      }
      RunCarries(Step(w, events[0]), events[1..]);
    }
  }

  /** The iteration that meets a duplicate acknowledgement. */
  lemma DuplicateIteration(w: World, room: nat) returns (resent: NetworkPacket)
    requires Turning(w) && Attentive(w.s) && w.s.tcb.state == Established && w.s.tcb.lastAck != w.iss
    requires Carries(w.s.tcb.inflight) && 0 < Min(w.s.tcb.sendWindow, LinkRoom(w.s.ends, w.s.mtu))
    requires w.s.inbox != [] && Duplicate(w.s.tcb, w.s.inbox[0])
    ensures var it := ReadIteration(w.s, false, room);
            it.Again? && Wire(it.s) == Wire(w.s) + [resent]
    ensures resent.transport.Tcp? && resent.transport.tcp.seqno == w.s.tcb.lastAck
    ensures 0 <= w.s.tcb.lastAck - w.iss - 1 < |w.sent|
    ensures resent.payload != [] && resent.payload[0] == w.sent[w.s.tcb.lastAck - w.iss - 1]
  {
    hide Sound, ReadIteration, AvailableReadBuffer, InEstablished, Process, Attentive, LinkRoom, CheckPktType;
    var p := w.s.inbox[0];
    var w1 := w.(s := Meeting(w.s));
    HeadIsProcessed(w.s, room);
    MeetingKeeps(w);
    SegmentClasses(w1.s.tcb, p.transport.tcp, p.payload);
    RequestIsServed(w1, p.transport.tcp);
    DuplicateProcessed(w1.s, p);
    var it := ReadIteration(w.s, false, room);
    resent := it.s.out[|w1.s.out|];
  }

  lemma DuplicateProcessed(s: StreamState, p: NetworkPacket)
    requires s.tcb.state == Established && Duplicate(s.tcb, p)
    ensures Process(s, p) == InEstablished(s, p.transport.tcp, [])
  {
    AcceptedIffPlainlyBetween(s.tcb, p.transport.tcp, p.payload);
    hide CheckPktType, InEstablished;
  }

  /** A read that gets to a duplicate acknowledgement sends the byte at `lastAck`. */
  lemma ReadServes(w: World, room: nat) returns (resent: NetworkPacket)
    requires Turning(w) && Attentive(w.s) && w.s.tcb.state == Established && w.s.tcb.lastAck != w.iss
    requires Carries(w.s.tcb.inflight) && 0 < Min(w.s.tcb.sendWindow, LinkRoom(w.s.ends, w.s.mtu))
    requires w.s.inbox != [] && Duplicate(w.s.tcb, w.s.inbox[0])
    ensures Wire(w.s) + [resent] <= Wire(PollRead(w.s, room, []).s)
    ensures resent.transport.Tcp? && resent.transport.tcp.seqno == w.s.tcb.lastAck
    ensures 0 <= w.s.tcb.lastAck - w.iss - 1 < |w.sent|
    ensures resent.payload != [] && resent.payload[0] == w.sent[w.s.tcb.lastAck - w.iss - 1]
  {
    hide Sound, ReadIteration, PollRead, Wire, Attentive, Duplicate, Carries;
    resent := DuplicateIteration(w, room);
    var it := ReadIteration(w.s, false, room);
    IterationKeeps(w, false, room);
    assert w.delivered + [] == w.delivered;
    ReadKeeps(w.(s := it.s), room, []);
    ReadGoesOn(w.s, room);
  }

  /**
   The condition an application can see: in a run of which no write returned Ready(0), a duplicate
   acknowledgement always brings the missing byte, as long as the window and the link leave room for payload.
   */
  lemma DuplicateBringsByte(ends: Endpoints, mtu: u16, iss: u32, irs: u32, events: seq<Event>, room: nat) returns (resent: NetworkPacket)
    requires EveryWriteCarries(Start(ends, mtu, iss, irs), events)
    requires var s := Run(Start(ends, mtu, iss, irs), events).s;
             && Attentive(s) && s.tcb.state == Established && s.tcb.lastAck != iss
             && 0 < Min(s.tcb.sendWindow, LinkRoom(s.ends, s.mtu))
             && s.inbox != [] && Duplicate(s.tcb, s.inbox[0])
    ensures var w := Run(Start(ends, mtu, iss, irs), events);
            && Wire(w.s) + [resent] <= Wire(PollRead(w.s, room, []).s)
            && resent.transport.Tcp? && resent.transport.tcp.seqno == w.s.tcb.lastAck
            && 0 <= w.s.tcb.lastAck - iss - 1 < |w.sent|
            && resent.payload != [] && resent.payload[0] == w.sent[w.s.tcb.lastAck - iss - 1]
  {
    hide Sound, Run, PollRead, Wire, Carries, EveryWriteCarries, Duplicate, Attentive;
    var w0 := Start(ends, mtu, iss, irs);
    StartSound(ends, mtu, iss, irs);
    StartCarries(ends, mtu, iss, irs);
    RunKeeps(w0, events);
    RunCarries(w0, events);
    AttentiveIsWell(Run(w0, events).s);
    resent := ReadServes(Run(w0, events), room);
  }

  lemma AttentiveIsWell(s: StreamState)
    requires Attentive(s)
    ensures s.fault == NoFault
  {
  }

  lemma StartCarries(ends: Endpoints, mtu: u16, iss: u32, irs: u32)
    ensures Carries(Start(ends, mtu, iss, irs).s.tcb.inflight)
  {
  }
}

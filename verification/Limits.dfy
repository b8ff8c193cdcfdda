/** A send window that has wrapped is never left again, in any state and whatever the peer sends. */
module Limits {
  import opened Words
  import opened Packets
  import opened TcbSpec
  import opened StreamSpec
  import opened Invariants
  import opened Preservation
  import opened Closing

  /** The send window straddles 2^32. */
  ghost predicate Wrapped(t: TcbState) {
    t.seqno < t.lastAck
  }

  /**
   Still wrapped, no acknowledgement accepted, no segment stored; the state has changed at most
   to answer a FIN counted before, or to close.
   */
  ghost predicate NoProgress(t: TcbState, t': TcbState) {
    && Wrapped(t')
    && t'.lastAck == t.lastAck
    && (forall k :: k in t'.unordered ==> k in t.unordered && t'.unordered[k] == t.unordered[k])
    && (t'.state == t.state || t'.state == Closed || (t.state == FinWait1(true) && t'.state == FinWait2(true)))
  }

  lemma WrappedProcess(s: StreamState, p: NetworkPacket)
    requires Wrapped(s.tcb)
    ensures NoProgress(s.tcb, Process(s, p).s.tcb)
  {
    if p.transport.Tcp? {
      AcceptedIffPlainlyBetween(s.tcb, p.transport.tcp, p.payload);
    }
    hide InEstablished, InFinWait1, InFinWait2, CompleteHandshake, CheckPktType, RevPacket;
  }

  lemma WrappedDelivery(s: StreamState, room: nat)
    requires Wrapped(s.tcb) && s.tcb.seqno + 1 < s.tcb.lastAck
    ensures NoProgress(s.tcb, DeliverOrReceive(s, room).s.tcb)
  {
    hide Process, RevPacket;
    if s.inbox != [] {
      WrappedProcess(s.(tcb := TakeUnordered(s.tcb), inbox := s.inbox[1..]), s.inbox[0]);
    }
  }

  /** A wrapped window has almost the whole sequence space between its ends, and the SYN has been sent. */
  lemma WrappedFar(w: World)
    requires Sound(w) && Wrapped(w.s.tcb)
    ensures w.s.tcb.seqno + TWO32 / 2 < w.s.tcb.lastAck
    ensures w.s.tcb.state != SynReceived(false) && w.s.tcb.retransmission == None
  {
    hide Buffer, NonEmpty, Bumps, Spoken, WireSound;
  }

  lemma WrappedAfterWindow(s: StreamState, fired: bool, room: nat)
    requires Wrapped(s.tcb) && s.tcb.seqno + 1 < s.tcb.lastAck && s.tcb.state != SynReceived(false)
    ensures NoProgress(s.tcb, AfterWindow(s, fired, room).s.tcb)
  {
    hide DeliverOrReceive, RevPacket;
    WrappedDelivery(s, room);
  }

  lemma WrappedIteration(s: StreamState, fired: bool, room: nat)
    requires Wrapped(s.tcb) && s.tcb.seqno + 1 < s.tcb.lastAck
    requires s.tcb.retransmission == None && s.tcb.state != SynReceived(false)
    ensures NoProgress(s.tcb, ReadIteration(s, fired, room).s.tcb)
  {
    if s.fault == NoFault && s.tcb.state != Closed && s.tcb.state != FinWait2(false) {
      IterationPrepares(s, fired, room);
      WrappedAfterWindow(Prepared(s), fired, room);
      hide ReadIteration, AfterWindow, AvailableReadBuffer;
    } else {
      hide AfterWindow, RevPacket, AvailableReadBuffer, Resend;
    }
  }

  lemma {:induction false} WrappedRead(w: World, room: nat, clock: seq<bool>)
    requires Turning(w) && Wrapped(w.s.tcb)
    ensures NoProgress(w.s.tcb, PollRead(w.s, room, clock).s.tcb)
    decreases |w.s.inbox|, 6 - Rank(w.s.tcb.state)
  {
    hide Inv, Sound, Advances, ReadIteration;
    var fired := clock != [] && clock[0];
    WrappedFar(w);
    WrappedIteration(w.s, fired, room);
    IterationDescends(w.s, fired, room);
    IterationKeeps(w, fired, room);
    var it := ReadIteration(w.s, fired, room);
    if it.Again? {
      assert w.delivered + [] == w.delivered;
      WrappedRead(w.(s := it.s), room, if clock == [] then [] else clock[1..]);
    }
  }

  /** A write cannot carry `seqno` round to `lastAck` again: the window is far smaller than 2^32. */
  lemma WrappedWrite(w: World, buf: seq<byte>)
    requires Inv(w) && w.s.fault == NoFault && Wrapped(w.s.tcb)
    ensures NoProgress(w.s.tcb, PollWrite(w.s, buf).s.tcb)
  {
    hide Sound, ReplyHeader;
    WrappedFar(w);
    FlushIdle(w);
  }

  lemma WrappedStep(w: World, e: Event)
    requires Inv(w) && w.s.fault == NoFault && Wrapped(w.s.tcb)
    ensures NoProgress(w.s.tcb, Step(w, e).s.tcb)
  {
    hide Sound, PollRead, PollWrite, RevPacket, Resend;
    match e
    case Read(room, clock) => WrappedRead(w, room, clock);
    case Write(buf) => WrappedWrite(w, buf);
    case Shut(clock) =>
      var s := w.s.(shutdown := Requested);
      Unseen(w, s);
      WrappedRead(w.(s := s), 1, clock);
    case _ => FlushIdle(w);
  }

  /**
   Once `lastAck > seqno`, in whatever state, no later segment is ever accepted: `lastAck` is frozen
   and nothing more is stored, whatever the peer sends.
   */
  lemma {:induction false} WrappedForGood(w: World, events: seq<Event>)
    requires Inv(w) && Wrapped(w.s.tcb)
    ensures NoProgress(w.s.tcb, Run(w, events).s.tcb)
    decreases |events|
  {
    hide Inv, Step;
    if events != [] {
      if w.s.fault == NoFault {
        WrappedStep(w, events[0]);
      } else {
        FaultStays(w, events[0]);
      }
      StepKeeps(w, events[0]);
      WrappedForGood(Step(w, events[0]), events[1..]);
    }
  }

  // --- Only a reset or a deadline ends it ---

  ghost predicate NoReset(packets: seq<NetworkPacket>) {
    forall i :: 0 <= i < |packets| ==> !IsReset(packets[i])
  }

  /** A poll during which the deadline passes. */
  predicate Expires(e: Event) {
    (e.Read? || e.Shut?) && true in e.clock
  }

  /** The same state, but for the answer to a FIN counted before. */
  ghost predicate Stuck(state: TcpState, state': TcpState) {
    state' != Closed && (state' == state || (state == FinWait1(true) && state' == FinWait2(true)))
  }

  /** No stream waits for its last read while its window is wrapped: the segment that led there was accepted. */
  lemma WrappedIsNotOver(w: World)
    requires Sound(w) && Wrapped(w.s.tcb)
    ensures w.s.tcb.state != FinWait2(false)
  {
    hide Buffer, NonEmpty, Bumps, Spoken, WireSound;
  }

  lemma StuckIteration(w: World, room: nat)
    requires Turning(w) && Wrapped(w.s.tcb) && w.s.tcb.state != Closed && NoReset(w.s.inbox)
    ensures var it := ReadIteration(w.s, false, room);
            Stuck(w.s.tcb.state, it.s.tcb.state) && Wrapped(it.s.tcb) && NoReset(it.s.inbox)
  {
    hide Sound, ReadIteration, Quiet;
    WrappedFar(w);
    WrappedIsNotOver(w);
    WrappedIteration(w.s, false, room);
    IterationSettles(w.s, false, room);
  }

  lemma {:induction false} StuckRead(w: World, room: nat, clock: seq<bool>)
    requires Turning(w) && Wrapped(w.s.tcb) && w.s.tcb.state != Closed && NoReset(w.s.inbox) && true !in clock
    ensures var s := PollRead(w.s, room, clock).s;
            Stuck(w.s.tcb.state, s.tcb.state) && NoReset(s.inbox)
    decreases |w.s.inbox|, 6 - Rank(w.s.tcb.state)
  {
    hide Inv, Sound, Advances, ReadIteration, Wrapped;
    assert !(clock != [] && clock[0]);
    var it := ReadIteration(w.s, false, room);
    StuckIteration(w, room);
    IterationDescends(w.s, false, room);
    IterationKeeps(w, false, room);
    if it.Again? {
      assert w.delivered + [] == w.delivered;
      StuckRead(w.(s := it.s), room, if clock == [] then [] else clock[1..]);
    }
  }

  lemma StuckStep(w: World, e: Event)
    requires Inv(w) && w.s.fault == NoFault && Wrapped(w.s.tcb) && w.s.tcb.state != Closed && NoReset(w.s.inbox)
    requires !Expires(e) && (e.Arrive? ==> !IsReset(e.p))
    ensures var s := Step(w, e).s;
            Stuck(w.s.tcb.state, s.tcb.state) && NoReset(s.inbox)
  {
    hide Sound, PollRead, RevPacket, Resend;
    match e
    case Read(room, clock) => StuckRead(w, room, clock);
    case Shut(clock) =>
      var s := w.s.(shutdown := Requested);
      Unseen(w, s);
      StuckRead(w.(s := s), 1, clock);
    case _ => FlushIdle(w);
  }

  /**
   With a wrapped window nothing but a reset or a deadline ever closes the stream: in a run without either,
   the state stays where it is, opening, established or closing, except that a FIN counted before is answered.
   */
  lemma {:induction false} WrappedNeverCloses(w: World, events: seq<Event>)
    requires Inv(w) && Wrapped(w.s.tcb) && w.s.tcb.state != Closed
    requires NoReset(w.s.inbox) && NoReset(Arrivals(events))
    requires forall i :: 0 <= i < |events| ==> !Expires(events[i])
    ensures Stuck(w.s.tcb.state, Run(w, events).s.tcb.state)
    decreases |events|
  {
    hide Inv, Step, Wrapped, Expires, IsReset;
    if events != [] {
      var w1 := Step(w, events[0]);
      if w.s.fault == NoFault {
        if events[0].Arrive? {
          assert Arrivals(events)[0] == events[0].p;
        }
        StuckStep(w, events[0]);
        StaysWrapped(w, events[0]);
      } else {
        FaultStays(w, events[0]);
      }
      StepKeeps(w, events[0]);
      LaterArrivals(events);
      WrappedNeverCloses(w1, events[1..]);
    }
  }

  lemma StaysWrapped(w: World, e: Event)
    requires Inv(w) && w.s.fault == NoFault && Wrapped(w.s.tcb)
    ensures Wrapped(Step(w, e).s.tcb)
  {
    hide Inv, Step;
    WrappedStep(w, e);
  }

  lemma LaterArrivals(events: seq<Event>)
    requires events != [] && NoReset(Arrivals(events))
    ensures NoReset(Arrivals(events[1..]))
  {
    var first := if events[0].Arrive? then [events[0].p] else [];
    assert Arrivals(events) == first + Arrivals(events[1..]);
    forall i | 0 <= i < |Arrivals(events[1..])| ensures !IsReset(Arrivals(events[1..])[i]) {
      assert Arrivals(events)[i + |first|] == Arrivals(events[1..])[i];
    }
  }
}

/**
 When bytes reach the reader: everything that has arrived, in any order, is handed over by
 repeated reads, and exactly when anything is handed over after the peer's FIN.
 */
module Delivery {
  import opened Words
  import opened Packets
  import opened TcbSpec
  import opened StreamSpec
  import opened Invariants
  import opened Preservation
  import opened ReceiveSide

  lemma DueIsHanded(s: StreamState, room: nat)
    requires s.fault == NoFault && s.shutdown == NotRequested
    requires s.tcb.ack in s.tcb.unordered && |s.tcb.unordered[s.tcb.ack]| <= room
    ensures var it := DeliverOrReceive(s, room);
            && Hands(s, it)
            && (it.s.fault, it.s.shutdown) == (NoFault, NotRequested)
            && (it.s.tcb.lastAck, it.s.tcb.seqno) == (s.tcb.lastAck, s.tcb.seqno)
  {
    hide RevPacket, Receive, AnswerFin, SendFin;
  }

  /** A payload that is due and fits is delivered by the first iteration. */
  lemma DueIsDelivered(s: StreamState, room: nat)
    requires s.fault == NoFault && s.tcb.retransmission == None && s.shutdown == NotRequested
    requires 1 <= Rank(s.tcb.state) <= 4
    requires s.tcb.ack in s.tcb.unordered && |s.tcb.unordered[s.tcb.ack]| <= room
    ensures var it := ReadIteration(s, false, room);
            Hands(s, it) && (it.s.fault, it.s.shutdown) == (NoFault, NotRequested)
    ensures var t := ReadIteration(s, false, room).s.tcb;
            (t.lastAck, t.seqno) == (s.tcb.lastAck, s.tcb.seqno)
  {
    hide RevPacket, AvailableReadBuffer, DeliverOrReceive;
    var s2 := SendQueued(s);
    DueIsHanded(s2.(tcb := ChangeRecvWindow(s2.tcb, AvailableReadBuffer(s2.tcb))), room);
  }

  // --- After the peer's FIN ---

  /** Nothing is buffered where `ack` stands or will stand. */
  ghost predicate Drained(t: TcbState) {
    && (t.state == FinWait1(true) ==> t.ack !in t.unordered && WrapAdd(t.ack, 1) !in t.unordered)
    && (t.state.FinWait2? ==> t.ack !in t.unordered)
    && 3 <= Rank(t.state)
    && t.state != FinWait1(false)
  }

  lemma DrainedIteration(w: World, fired: bool, room: nat)
    requires Turning(w) && Drained(w.s.tcb)
    ensures var it := ReadIteration(w.s, fired, room);
            (it.Stop? ==> it.bytes == []) && (it.s.fault == NoFault ==> Drained(it.s.tcb))
  {
    hide Inv, Numbers, Buffer, NonEmpty, Bumps, Spoken, WireSound, ReadIteration;
    IterationGathers(w.s, fired, room);
    IterationKeeps(w, fired, room);
    if w.s.tcb.state == Closed {
      ClosedStays(w.s, fired, room);
    }
  }

  lemma ClosedStays(s: StreamState, fired: bool, room: nat)
    requires s.tcb.state == Closed
    ensures ReadIteration(s, fired, room).s.tcb == s.tcb && ReadIteration(s, fired, room).Stop?
  {
    hide AfterWindow;
  }

  lemma {:induction false} DrainedRead(w: World, room: nat, clock: seq<bool>)
    requires Turning(w) && Drained(w.s.tcb)
    ensures var r := PollRead(w.s, room, clock);
            r.bytes == [] && (r.s.fault == NoFault ==> Drained(r.s.tcb))
    decreases |w.s.inbox|, 6 - Rank(w.s.tcb.state)
  {
    hide Inv, Sound, Advances, ReadIteration, Drained;
    var fired := clock != [] && clock[0];
    var it := ReadIteration(w.s, fired, room);
    DrainedIteration(w, fired, room);
    IterationDescends(w.s, fired, room);
    IterationKeeps(w, fired, room);
    if it.Again? {
      assert w.delivered + [] == w.delivered;
      DrainedRead(w.(s := it.s), room, if clock == [] then [] else clock[1..]);
    }
  }

  lemma DrainedStep(w: World, e: Event)
    requires Inv(w) && w.s.fault == NoFault && Drained(w.s.tcb)
    ensures Step(w, e).delivered == w.delivered
    ensures Step(w, e).s.fault == NoFault ==> Drained(Step(w, e).s.tcb)
  {
    hide Sound, PollRead, RevPacket, Resend;
    assert w.delivered + [] == w.delivered;
    match e
    case Read(room, clock) => DrainedRead(w, room, clock);
    case Shut(clock) =>
      var s := w.s.(shutdown := Requested);
      Unseen(w, s);
      DrainedRead(w.(s := s), 1, clock);
    case _ => FlushIdle(w);
  }

  lemma {:induction false} DrainedRun(w: World, events: seq<Event>)
    requires Inv(w) && (w.s.fault == NoFault ==> Drained(w.s.tcb))
    ensures Run(w, events).delivered == w.delivered
    decreases |events|
  {
    hide Inv, Step, Drained;
    if events != [] {
      StepKeeps(w, events[0]);
      if w.s.fault == NoFault {
        DrainedStep(w, events[0]);
      } else {
        FaultStays(w, events[0]);
      }
      DrainedRun(Step(w, events[0]), events[1..]);
    }
  }

  /** The FIN is answered in one iteration when nothing is buffered at `ack`. */
  lemma FinAnswered(s: StreamState, room: nat)
    requires s.fault == NoFault && s.tcb.state == FinWait1(true) && s.tcb.ack !in s.tcb.unordered
    ensures var it := ReadIteration(s, false, room);
            && it.Again?
            && it.s.tcb.ack == WrapAdd(s.tcb.ack, 1)
            && it.s.tcb.unordered == s.tcb.unordered
            && it.s.tcb.state == FinWait2(true)
            && (it.s.fault, it.s.shutdown, it.s.tcb.retransmission) == (NoFault, s.shutdown, s.tcb.retransmission)
  {
    hide RevPacket, AvailableReadBuffer, Receive;
    assert s.tcb.unordered - {s.tcb.ack} == s.tcb.unordered;
  }

  /** Something buffered where `ack` stands or will stand is handed over, hole or no hole. */
  lemma LeftoverIsDelivered(w: World) returns (room: nat)
    requires Turning(w) && w.s.tcb.state == FinWait1(true) && w.s.shutdown == NotRequested
    requires !Drained(w.s.tcb)
    ensures PollRead(w.s, room, []).bytes != []
  {
    hide Inv, Numbers, Buffer, Bumps, Spoken, WireSound, ReadIteration;
    var t := w.s.tcb;
    if t.ack in t.unordered {
      room := |t.unordered[t.ack]|;
      DueIsDelivered(w.s, room);
    } else {
      room := |t.unordered[WrapAdd(t.ack, 1)]|;
      FinAnswered(w.s, room);
      var s1 := ReadIteration(w.s, false, room).s;
      DueIsDelivered(s1, room);
      assert PollRead(w.s, room, []) == PollRead(s1, room, []);
    }
  }

  /**
   The peer's FIN is taken at face value: `ack` counts it without looking at its sequence number.
   From then on nothing more is ever delivered, in any continuation, exactly when no payload is
   buffered at the next two sequence numbers; otherwise bytes are delivered across the hole.
   */
  lemma DeliveryAfterPeerFin(w: World)
    requires Turning(w) && w.s.tcb.state == FinWait1(true) && w.s.shutdown == NotRequested
    ensures (forall room, clock, events :: Run(AfterRead(w, PollRead(w.s, room, clock)), events).delivered == w.delivered)
            <==> (w.s.tcb.ack !in w.s.tcb.unordered && WrapAdd(w.s.tcb.ack, 1) !in w.s.tcb.unordered)
  {
    hide Inv, Turning, PollRead, Run;
    if Drained(w.s.tcb) {
      forall room, clock, events ensures Run(AfterRead(w, PollRead(w.s, room, clock)), events).delivered == w.delivered {
        ReadKeeps(w, room, clock);
        DrainedRead(w, room, clock);
        assert w.delivered + [] == w.delivered;
        DrainedRun(AfterRead(w, PollRead(w.s, room, clock)), events);
      }
    } else {
      var room := LeftoverIsDelivered(w);
      var w' := AfterRead(w, PollRead(w.s, room, []));
      assert |w'.delivered| > |w.delivered|;
      EmptyRun(w');
      assert Run(AfterRead(w, PollRead(w.s, room, [])), []).delivered != w.delivered;
    }
  }

  lemma EmptyRun(w: World)
    ensures Run(w, []) == w
  {
  }

  // --- Arrival in any order ---

  ghost function Flatten(chunks: seq<seq<byte>>): seq<byte> {
    if chunks == [] then [] else chunks[0] + Flatten(chunks[1..])
  }

  ghost predicate Sized(chunks: seq<seq<byte>>, room: nat) {
    forall k :: 0 <= k < |chunks| ==> 0 < |chunks[k]| <= room
  }

  /** Where chunk `k` begins when the chunks lie end to end from `base`. */
  ghost function Begin(base: int, chunks: seq<seq<byte>>, k: nat): int
    requires k <= |chunks|
    decreases k
  {
    if k == 0 then base else Begin(base + |chunks[0]|, chunks[1..], k - 1)
  }

  lemma {:induction false} BeginWithin(base: int, chunks: seq<seq<byte>>, k: nat, room: nat)
    requires k < |chunks| && Sized(chunks, room)
    ensures base + (if k == 0 then 0 else 1) <= Begin(base, chunks, k)
    ensures Begin(base, chunks, k) + |chunks[k]| <= base + |Flatten(chunks)|
    decreases k
  {
    if k > 0 {
      BeginWithin(base + |chunks[0]|, chunks[1..], k - 1, room);
    }
  }

  /** `lastAck` after a segment that neither resets nor finishes: it takes the number of every accepted segment but an empty PSH. */
  ghost function NextLastAck(lastAck: u32, seqno: u32, p: NetworkPacket): u32 {
    if && p.transport.Tcp? && lastAck <= p.transport.tcp.ackno <= seqno
       && (p.transport.tcp.flags == ACK || (p.transport.tcp.flags == PSH_ACK && p.payload != []))
    then p.transport.tcp.ackno else lastAck
  }

  /** `lastAck` after the first `i` segments of the inbox. */
  ghost function LastAckAt(lastAck: u32, seqno: u32, inbox: seq<NetworkPacket>, i: nat): u32
    requires i <= |inbox|
    decreases i
  {
    if i == 0 then lastAck else LastAckAt(NextLastAck(lastAck, seqno, inbox[0]), seqno, inbox[1..], i - 1)
  }

  /** Starts no close, and is no bare acknowledgement of `iss` while the SYN is unacknowledged. */
  ghost predicate Harmless(p: NetworkPacket, iss: u32, lastAck: u32) {
    && p.transport.Tcp?
    && !p.transport.tcp.flags.rst
    && p.transport.tcp.flags != FIN_ACK
    && (p.payload == [] && p.transport.tcp.ackno == iss ==> iss < lastAck)
  }

  /** Whatever starts where a chunk starts is that chunk. */
  ghost predicate InPlace(q: int, b: seq<byte>, base: int, chunks: seq<seq<byte>>) {
    forall k :: 0 <= k < |chunks| && Begin(base, chunks, k) == q ==> b == chunks[k]
  }

  /**
   `from` says where each chunk is: buffered when negative, else in the inbox at that place, in a segment that
   will be accepted when it is reached. A segment marked PSH must be preceded by all the chunks before its own,
   one marked ACK may come at any time.
   */
  ghost predicate Found(s: StreamState, chunks: seq<seq<byte>>, from: seq<int>, k: nat)
    requires k < |chunks| == |from|
  {
    var q := Begin(s.tcb.ack, chunks, k);
    if from[k] < 0 then q in s.tcb.unordered && s.tcb.unordered[q] == chunks[k]
    else
      && from[k] < |s.inbox|
      && var p := s.inbox[from[k]];
      && p.transport.Tcp? && p.transport.tcp.seqno == q && p.payload == chunks[k]
      && LastAckAt(s.tcb.lastAck, s.tcb.seqno, s.inbox, from[k]) <= p.transport.tcp.ackno <= s.tcb.seqno
      && (p.transport.tcp.flags == ACK || (p.transport.tcp.flags == PSH_ACK && forall j :: 0 <= j < k ==> from[j] < from[k]))
  }

  /** Some chunk is found at or after place `i` of the inbox. */
  ghost predicate Reaches(from: seq<int>, i: int) {
    exists k :: 0 <= k < |from| && i <= from[k]
  }

  /** All chunks from `ack` on have arrived; what else has arrived, buffered or not, in front of them or between, does no harm. */
  ghost predicate AllArrived(s: StreamState, iss: u32, chunks: seq<seq<byte>>, from: seq<int>) {
    && |from| == |chunks|
    && s.tcb.ack + |Flatten(chunks)| <= TWO32
    && (forall k :: 0 <= k < |chunks| ==> Found(s, chunks, from, k))
    && (forall q :: q in s.tcb.unordered ==> InPlace(q, s.tcb.unordered[q], s.tcb.ack, chunks))
    && (forall i :: 0 <= i < |s.inbox| && Reaches(from, i) ==>
          && Harmless(s.inbox[i], iss, LastAckAt(s.tcb.lastAck, s.tcb.seqno, s.inbox, i))
          && (s.inbox[i].payload != [] ==> InPlace(s.inbox[i].transport.tcp.seqno, s.inbox[i].payload, s.tcb.ack, chunks)))
  }

  ghost predicate Live(s: StreamState) {
    s.fault == NoFault && s.tcb.state == Established
  }

  ghost predicate Open(s: StreamState) {
    Live(s) && s.shutdown == NotRequested
  }

  /** The segment goes into the buffer. */
  ghost predicate Stores(t: TcbState, p: NetworkPacket)
    requires p.transport.Tcp?
  {
    && p.payload != []
    && t.lastAck <= p.transport.tcp.ackno <= t.seqno
    && (|| (p.transport.tcp.flags == ACK && t.ack <= p.transport.tcp.seqno)
        || (p.transport.tcp.flags == PSH_ACK && t.ack == p.transport.tcp.seqno))
  }

  /** Its window is taken. */
  ghost predicate Heeds(t: TcbState, p: NetworkPacket)
    requires p.transport.Tcp?
  {
    || (p.transport.tcp.flags == ACK && t.lastAck <= p.transport.tcp.ackno <= t.seqno)
    || (p.transport.tcp.flags == PSH_ACK && Stores(t, p))
  }

  /** What a harmless segment does to an established stream. */
  ghost predicate Absorbs(s: StreamState, p: NetworkPacket, it: Iteration)
    requires p.transport.Tcp?
  {
    && it.Again?
    && Live(it.s)
    && (it.s.inbox, it.s.shutdown, it.s.tcb.ack, it.s.tcb.seqno) == (s.inbox, s.shutdown, s.tcb.ack, s.tcb.seqno)
    && it.s.tcb.lastAck == NextLastAck(s.tcb.lastAck, s.tcb.seqno, p)
    && it.s.tcb.sendWindow == (if Heeds(s.tcb, p) then p.transport.tcp.window else s.tcb.sendWindow)
    && it.s.tcb.average == (if Heeds(s.tcb, p) then Observe(s.tcb.average, p.transport.tcp.window) else s.tcb.average)
    && it.s.tcb.unordered == if Stores(s.tcb, p) then s.tcb.unordered[p.transport.tcp.seqno := p.payload] else s.tcb.unordered
  }

  lemma SegmentAbsorbed(s: StreamState, p: NetworkPacket)
    requires Live(s) && p.transport.Tcp? && p.transport.tcp.flags != FIN_ACK
    requires s.tcb.lastAck <= p.transport.tcp.ackno <= s.tcb.seqno
    requires CheckPktType(s.tcb, p.transport.tcp, p.payload) == RetransmissionRequest ==> p.transport.tcp.flags != ACK
    ensures Absorbs(s, p, InEstablished(s, p.transport.tcp, p.payload))
  {
    AcceptedIffPlainlyBetween(s.tcb, p.transport.tcp, p.payload);
    hide Trim, Retain, Observe, RevPacket;
  }

  lemma RequestAbsorbed(w: World, p: NetworkPacket)
    requires Midway(w) && Live(w.s) && p.transport.Tcp? && p.transport.tcp.flags == ACK && p.payload == []
    requires CheckPktType(w.s.tcb, p.transport.tcp, []) == RetransmissionRequest && w.s.tcb.lastAck != w.iss
    ensures Absorbs(w.s, p, InEstablished(w.s, p.transport.tcp, p.payload))
  {
    hide Sound, Trim, Retain, Observe, RevPacket;
    RetransmitKeeps(w, p.transport.tcp);
  }

  /**
   Every harmless segment, request to retransmit or not, has exactly this effect: an accepted one leaves its
   acknowledgement and its window, and its payload when that is not old, or, marked PSH, when it is next.
   */
  lemma HarmlessIsAbsorbed(w: World, p: NetworkPacket)
    requires Midway(w) && Live(w.s) && Harmless(p, w.iss, w.s.tcb.lastAck)
    ensures Absorbs(w.s, p, Process(w.s, p))
  {
    var h := p.transport.tcp;
    AcceptedIffPlainlyBetween(w.s.tcb, h, p.payload);
    if w.s.tcb.lastAck <= h.ackno <= w.s.tcb.seqno {
      if CheckPktType(w.s.tcb, h, p.payload) == RetransmissionRequest && h.flags == ACK {
        FirstBeforeLast(w);
        RequestAbsorbed(w, p);
      } else {
        SegmentAbsorbed(w.s, p);
      }
    }
    hide Sound, InEstablished, CheckPktType;
  }

  /** An accepted segment `d` ahead of `ack` and not seen before is kept exactly when no wrap lies between; beyond one it is dropped as old. */
  lemma EarlySegmentKeptIff(w: World, p: NetworkPacket, d: u32)
    requires Midway(w) && Live(w.s) && Harmless(p, w.iss, w.s.tcb.lastAck) && p.payload != []
    requires p.transport.tcp.flags == ACK && w.s.tcb.lastAck <= p.transport.tcp.ackno <= w.s.tcb.seqno
    requires p.transport.tcp.seqno == WrapAdd(w.s.tcb.ack, d) && p.transport.tcp.seqno !in w.s.tcb.unordered
    ensures p.transport.tcp.seqno in Process(w.s, p).s.tcb.unordered <==> w.s.tcb.ack + d < TWO32
  {
    hide Sound, Process;
    HarmlessIsAbsorbed(w, p);
  }

  /** The places of the chunks once the first packet of the inbox is gone. */
  ghost function Shift(from: seq<int>): seq<int> {
    seq(|from|, k requires 0 <= k < |from| => if from[k] <= 0 then -1 else from[k] - 1)
  }

  /** A chunk is still found after the first packet has been absorbed. */
  lemma FoundAfter(s: StreamState, s': StreamState, iss: u32, chunks: seq<seq<byte>>, from: seq<int>, k: nat, room: nat)
    requires k < |chunks| && Sized(chunks, room) && AllArrived(s, iss, chunks, from)
    requires s.inbox != [] && s.inbox[0].transport.Tcp? && s.tcb.ack !in s.tcb.unordered
    requires s'.inbox == s.inbox[1..] && Absorbs(s.(inbox := s.inbox[1..]), s.inbox[0], Again(s'))
    ensures Found(s', chunks, Shift(from), k)
  {
    hide Flatten;
    assert Found(s, chunks, from, k);
    var q := Begin(s.tcb.ack, chunks, k);
    var p := s.inbox[0];
    BeginWithin(s.tcb.ack, chunks, k, room);
    FirstFound(s, chunks, from, iss);
    if from[k] < 0 {
      assert Reaches(from, 0);
      assert q == p.transport.tcp.seqno && p.payload != [] ==> p.payload == chunks[k];
    } else if from[k] == 0 {
      assert Stores(s.tcb, p);
    } else {
      assert s'.inbox[from[k] - 1] == s.inbox[from[k]];
    }
  }

  /** With nothing due, the first chunk is in the inbox. */
  lemma FirstFound(s: StreamState, chunks: seq<seq<byte>>, from: seq<int>, iss: u32)
    requires chunks != [] && AllArrived(s, iss, chunks, from) && s.tcb.ack !in s.tcb.unordered
    ensures 0 <= from[0] < |s.inbox| && Reaches(from, 0) && Harmless(s.inbox[0], iss, s.tcb.lastAck)
  {
    hide Flatten, InPlace, Harmless;
    assert Found(s, chunks, from, 0);
  }

  /** Absorbing the first packet of the inbox loses no chunk. */
  lemma Absorbed(s: StreamState, s': StreamState, iss: u32, chunks: seq<seq<byte>>, from: seq<int>, room: nat)
    requires chunks != [] && Sized(chunks, room) && AllArrived(s, iss, chunks, from)
    requires s.inbox != [] && s.inbox[0].transport.Tcp? && s.tcb.ack !in s.tcb.unordered
    requires s'.inbox == s.inbox[1..] && Absorbs(s.(inbox := s.inbox[1..]), s.inbox[0], Again(s'))
    ensures AllArrived(s', iss, chunks, Shift(from))
  {
    hide Flatten, Found, InPlace;
    FirstFound(s, chunks, from, iss);
    forall k | 0 <= k < |chunks| ensures Found(s', chunks, Shift(from), k) {
      FoundAfter(s, s', iss, chunks, from, k, room);
    }
    forall i | 0 <= i < |s'.inbox| && Reaches(Shift(from), i)
      ensures s'.inbox[i] == s.inbox[i + 1] && Reaches(from, i + 1)
    {
      var k :| 0 <= k < |Shift(from)| && i <= Shift(from)[k];
      assert i + 1 <= from[k];
    }
  }

  /** Delivering the first chunk leaves the rest arrived. */
  lemma HandOver(s: StreamState, s': StreamState, iss: u32, chunks: seq<seq<byte>>, from: seq<int>, room: nat)
    requires chunks != [] && Sized(chunks, room) && AllArrived(s, iss, chunks, from)
    requires s.tcb.ack in s.tcb.unordered
    requires (s'.inbox, s'.tcb.lastAck, s'.tcb.seqno) == (s.inbox, s.tcb.lastAck, s.tcb.seqno)
    requires s'.tcb.unordered == s.tcb.unordered - {s.tcb.ack}
    requires s'.tcb.ack == WrapAdd(s.tcb.ack, Len32(s.tcb.unordered[s.tcb.ack]))
    ensures s.tcb.unordered[s.tcb.ack] == chunks[0]
    ensures AllArrived(s', iss, chunks[1..], from[1..])
  {
    var base: u32 := s.tcb.ack;
    assert Begin(base, chunks, 0) == base;
    assert s.tcb.unordered[base] == chunks[0];
    var rest, next := chunks[1..], base + |chunks[0]|;
    if rest != [] {
      BeginWithin(base, chunks, 1, room);
      assert s'.tcb.ack == next;
    }
    forall k: nat | k < |rest| ensures Found(s', rest, from[1..], k) {
      BeginWithin(base, chunks, k + 1, room);
      assert Begin(base, chunks, k + 1) == Begin(next, rest, k);
      assert Found(s, chunks, from, k + 1);
    }
    forall q, b | InPlace(q, b, base, chunks) ensures InPlace(q, b, next, rest) {
      PlacedRest(q, b, base, chunks);
    }
    forall i | Reaches(from[1..], i) ensures Reaches(from, i) {
      var k :| 0 <= k < |from[1..]| && i <= from[1..][k];
      assert i <= from[k + 1];
    }
  }

  lemma PlacedRest(q: int, b: seq<byte>, base: int, chunks: seq<seq<byte>>)
    requires chunks != [] && InPlace(q, b, base, chunks)
    ensures InPlace(q, b, base + |chunks[0]|, chunks[1..])
  {
    forall k | 0 <= k < |chunks[1..]| && Begin(base + |chunks[0]|, chunks[1..], k) == q ensures b == chunks[1..][k] {
      assert Begin(base, chunks, k + 1) == q;
    }
  }

  /** One read delivers the first chunk, wherever it is, and leaves the others ready. */
  lemma {:induction false} ReadDeliversChunk(w: World, chunks: seq<seq<byte>>, from: seq<int>, room: nat) returns (from': seq<int>)
    requires Turning(w) && Open(w.s) && chunks != [] && Sized(chunks, room) && AllArrived(w.s, w.iss, chunks, from)
    ensures var r := PollRead(w.s, room, []);
            r.bytes == chunks[0] && Open(r.s) && AllArrived(r.s, w.iss, chunks[1..], from')
    decreases |w.s.inbox|
  {
    hide Inv, Sound, Advances, ReadIteration, AllArrived, Sized, Flatten, Absorbs;
    NoRequest(w);
    IterationKeeps(w, false, room);
    var it := ReadIteration(w.s, false, room);
    if w.s.tcb.ack in w.s.tcb.unordered {
      FirstFits(w.s, w.iss, chunks, from, room);
      DueIsDelivered(w.s, room);
      HandOver(w.s, it.s, w.iss, chunks, from, room);
      from' := from[1..];
    } else {
      FirstFound(w.s, chunks, from, w.iss);
      HeadIsProcessed(w.s, room);
      MeetingKeeps(w);
      HarmlessIsAbsorbed(w.(s := Meeting(w.s)), w.s.inbox[0]);
      AbsorbsMeeting(w.s, w.s.inbox[0], it);
      Absorbed(w.s, it.s, w.iss, chunks, from, room);
      assert w.delivered + [] == w.delivered;
      from' := ReadDeliversChunk(w.(s := it.s), chunks, Shift(from), room);
      ReadGoesOn(w.s, room);
    }
  }

  lemma AbsorbsMeeting(s: StreamState, p: NetworkPacket, it: Iteration)
    requires Open(s) && s.inbox != [] && p.transport.Tcp? && s.tcb.ack !in s.tcb.unordered && Absorbs(Meeting(s), p, it)
    ensures Absorbs(s.(inbox := s.inbox[1..]), p, it) && it.Again? && Open(it.s) && it.s.inbox == s.inbox[1..]
  {
    assert s.tcb.unordered - {s.tcb.ack} == s.tcb.unordered;
    hide AvailableReadBuffer;
  }

  lemma FirstFits(s: StreamState, iss: u32, chunks: seq<seq<byte>>, from: seq<int>, room: nat)
    requires chunks != [] && Sized(chunks, room) && AllArrived(s, iss, chunks, from) && s.tcb.ack in s.tcb.unordered
    ensures |s.tcb.unordered[s.tcb.ack]| <= room && |from| == |chunks|
  {
    assert Begin(s.tcb.ack, chunks, 0) == s.tcb.ack;
  }

  ghost function Reads(room: nat, n: nat): seq<Event> {
    if n == 0 then [] else [Read(room, [])] + Reads(room, n - 1)
  }

  /**
   Nothing that has arrived stays behind: segments that tile a range from `ack` on, in any order and with
   any repetition, partly buffered and partly still in the inbox among other segments, are delivered in
   sequence by as many reads as there are segments.
   */
  lemma {:induction false} ArrivedIsDelivered(w: World, chunks: seq<seq<byte>>, from: seq<int>, room: nat)
    requires Inv(w) && Open(w.s) && Sized(chunks, room) && AllArrived(w.s, w.iss, chunks, from)
    ensures var w' := Run(w, Reads(room, |chunks|));
            w'.delivered == w.delivered + Flatten(chunks) && w'.s.fault == NoFault
    decreases |chunks|
  {
    hide Sound, Advances, PollRead, AllArrived;
    if chunks == [] {
      EmptyRun(w);
    } else {
      var from' := ReadDeliversChunk(w, chunks, from, room);
      StepKeeps(w, Read(room, []));
      var w1 := Step(w, Read(room, []));
      ArrivedIsDelivered(w1, chunks[1..], from', room);
      assert Reads(room, |chunks|)[1..] == Reads(room, |chunks| - 1);
      assert Run(w, Reads(room, |chunks|)) == Run(w1, Reads(room, |chunks| - 1));
      assert w.delivered + Flatten(chunks) == (w.delivered + chunks[0]) + Flatten(chunks[1..]);
    }
  }
}

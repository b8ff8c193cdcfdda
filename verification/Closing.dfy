/** How reads end and connections close, for any inbox: resets, deadlines, and both ways round the close handshake. */
module Closing {
  import opened Words
  import opened Packets
  import opened TcbSpec
  import opened StreamSpec
  import opened Invariants
  import opened Preservation
  import opened ReceiveSide
  import opened Delivery
  import opened Grammar
  import opened Responses

  // --- How a read ends ---

  predicate IsReset(p: NetworkPacket) {
    p.transport.Tcp? && p.transport.tcp.flags.rst
  }

  /** Everything that has arrived is handled, everything due is delivered or, after shutdown, dropped, everything said is sent. */
  ghost predicate Quiet(s: StreamState) {
    Attentive(s) && s.inbox == [] && !s.hungUp && s.packetToSend == None && s.tcb.ack !in s.tcb.unordered
  }

  ghost predicate Cause(s: StreamState, fired: bool, e: ErrorKind) {
    match e
    case NotConnected => false
    case ConnectionAborted => s.tcb.state == FinWait2(false)
    case ConnectionReset => s.inbox != [] && IsReset(s.inbox[0])
    case TimedOut => fired
  }

  ghost predicate Numbered(p: NetworkPacket, seqno: u32, ack: u32) {
    p.transport.Tcp? && p.transport.tcp.seqno == seqno && p.transport.tcp.ackno == ack
  }

  /** The last packet says why: a reset to the peer for a deadline, a word to the session table otherwise. */
  ghost predicate Departs(s: StreamState, e: ErrorKind) {
    if e == TimedOut then
      && s.packetToSend == None && s.out != []
      && ResetToPeer(s.out[|s.out| - 1], s.ends) && Numbered(s.out[|s.out| - 1], s.tcb.seqno, s.tcb.ack)
    else
      && s.packetToSend.Some?
      && EndOfSession(s.packetToSend.value, s.ends) && Numbered(s.packetToSend.value, s.tcb.seqno, s.tcb.ack)
  }

  lemma ControlIsNumbered(s: StreamState, flags: Flags, ttl: byte)
    ensures Numbered(Control(s, flags, ttl), s.tcb.seqno, s.tcb.ack)
  {
  }

  /** What the end of an iteration tells; one that stops without a word has an empty inbox or is closed. */
  ghost predicate Settles(s: StreamState, fired: bool, it: Iteration) {
    match it
    case Again(s') =>
      && (s'.inbox == s.inbox || (s.inbox != [] && s'.inbox == s.inbox[1..] && !IsReset(s.inbox[0])))
      && s'.tcb.state != Closed
    case Stop(s', poll, bytes) =>
      && (s'.inbox == s.inbox || (s.inbox != [] && s'.inbox == s.inbox[1..]))
      && (poll == Pending ==> Quiet(s'))
      && (poll.Failed? ==>
            && s'.fault == NoFault && s'.tcb.state == Closed && s'.shutdown == Finished
            && Cause(s, fired, poll.error) && Departs(s', poll.error))
      && (s'.tcb.state == Closed ==> s.tcb.state == Closed || poll.Failed?)
      && (s'.fault == NoFault && !Due(s) ==> s'.tcb.state == Closed || s.inbox == [])
  }

  lemma ProcessSettles(s: StreamState, p: NetworkPacket)
    requires s.fault == NoFault
    ensures var it := Process(s, p);
            && (it.Again? ==> !IsReset(p) && (s.tcb.state != Closed ==> it.s.tcb.state != Closed))
            && (it.Stop? && it.s.fault == NoFault ==>
                  && it.s.tcb.state == Closed && it.s.shutdown == Finished
                  && it.poll == Failed(ConnectionReset) && IsReset(p) && Departs(it.s, ConnectionReset))
            && (it.Stop? && it.s.fault != NoFault ==> it.poll == Panicked && it.s.tcb.state == s.tcb.state)
  {
    EndIsParting(s);
    ControlIsNumbered(s, NON, DROP_TTL);
    hide RevPacket, EndOfSession, ResetToPeer, Numbered, Trim, Retain, Observe, CheckPktType, FirstAt;
  }

  lemma DeliverySettles(s: StreamState, room: nat)
    requires s.fault == NoFault && s.tcb.retransmission == None && s.packetToSend == None && 1 <= Rank(s.tcb.state) <= 4
    ensures Settles(s, false, DeliverOrReceive(s, room))
  {
    hide Process, RevPacket, Departs;
    if s.inbox != [] {
      var s1 := s.(tcb := TakeUnordered(s.tcb), inbox := s.inbox[1..]);
      ProcessSettles(s1, s.inbox[0]);
      ProcessClimbs(s1, s.inbox[0]);
    }
  }

  lemma IterationSettles(s: StreamState, fired: bool, room: nat)
    requires s.fault == NoFault && s.tcb.retransmission == None
    ensures Settles(s, fired, ReadIteration(s, fired, room))
    ensures fired && Rank(s.tcb.state) < 5 ==>
              var it := ReadIteration(s, fired, room);
              it.Stop? && it.poll == Failed(TimedOut) && it.bytes == []
  {
    hide DeliverOrReceive, RevPacket, AvailableReadBuffer, EndOfSession, ResetToPeer, Numbered;
    var s2 := SendQueued(s);
    var s3 := s2.(tcb := ChangeRecvWindow(s2.tcb, AvailableReadBuffer(s2.tcb)));
    EndIsParting(s2);
    EndIsParting(s3);
    ControlIsNumbered(s2, NON, DROP_TTL);
    ControlIsNumbered(s3, RST_ACK, TTL);
    if 1 <= Rank(s.tcb.state) <= 4 {
      DeliverySettles(s3, room);
    }
  }

  /**
   A read that waits has left nothing to do. One that fails has closed the stream and said so, for a reset
   that had arrived, a deadline that had passed, or the end of the close handshake. A reset anywhere in the
   inbox closes the stream within the read unless the read delivers something first.
   */
  lemma {:induction false} HowReadsEnd(w: World, room: nat, clock: seq<bool>)
    requires Turning(w)
    ensures var r := PollRead(w.s, room, clock);
            && (r.poll == Pending ==> Quiet(r.s))
            && (r.poll.Failed? ==> r.s.tcb.state == Closed && r.s.shutdown == Finished && Departs(r.s, r.poll.error))
            && r.poll != Failed(NotConnected)
            && (r.s.tcb.state == Closed ==> w.s.tcb.state == Closed || r.poll.Failed?)
            && (r.poll == Failed(ConnectionReset) ==> exists p :: p in w.s.inbox && IsReset(p))
            && (r.poll == Failed(TimedOut) ==> true in clock)
            && (clock != [] && clock[0] && Rank(w.s.tcb.state) < 5 ==> r.poll == Failed(TimedOut) && r.bytes == [])
            && ((exists p :: p in w.s.inbox && IsReset(p)) && r.bytes == [] && r.s.fault == NoFault ==> r.s.tcb.state == Closed)
    decreases |w.s.inbox|, 6 - Rank(w.s.tcb.state)
  {
    hide Sound, Advances, ReadIteration, Departs, Quiet, IsReset;
    var fired := clock != [] && clock[0];
    var it := ReadIteration(w.s, fired, room);
    NoRequest(w);
    IterationSettles(w.s, fired, room);
    IterationDescends(w.s, fired, room);
    IterationKeeps(w, fired, room);
    if it.Again? {
      assert w.delivered + [] == w.delivered;
      HowReadsEnd(w.(s := it.s), room, if clock == [] then [] else clock[1..]);
    } else {
      BufferedIsNonEmpty(w);
      DueIsBytes(w.s, fired, room);
    }
  }

  lemma DueIsBytes(s: StreamState, fired: bool, room: nat)
    requires s.fault == NoFault && s.tcb.retransmission == None && NonEmpty(s.tcb.unordered)
    ensures var it := ReadIteration(s, fired, room);
            Due(s) && it.Stop? && it.s.fault == NoFault && it.bytes == [] ==> it.s.tcb.state == Closed
  {
    hide RevPacket, AvailableReadBuffer, Receive, AnswerFin, SendFin;
  }

  lemma BufferedIsNonEmpty(w: World)
    requires Sound(w)
    ensures NonEmpty(w.s.tcb.unordered)
  {
    hide Numbers, Buffer, NonEmpty, Bumps, WireSound, Spoken;
  }

  // --- The close handshake ---

  /** A segment that acknowledges our FIN, at `a`, or finishes with it. */
  predicate Closes(p: NetworkPacket, a: u32) {
    p.transport.Tcp? && (p.transport.tcp.flags == ACK || p.transport.tcp.flags == FIN_ACK) && p.transport.tcp.ackno == a
  }

  function Closers(inbox: seq<NetworkPacket>, a: u32): nat {
    if inbox == [] then 0 else (if Closes(inbox[0], a) then 1 else 0) + Closers(inbox[1..], a)
  }

  /** How many such segments a closing stream waits for. */
  function Needed(state: TcpState): nat {
    match state
    case FinWait1(false) => 2
    case FinWait1(true) => 1
    case FinWait2(true) => 1
    case _ => 0
  }

  /** Where our FIN ends. */
  function AfterFin(t: TcbState): int {
    if t.state == FinWait1(true) then t.seqno + 1 else t.seqno
  }

  /** Nothing will be delivered any more. */
  ghost predicate Silent(s: StreamState) {
    s.shutdown != NotRequested || Drained(s.tcb)
  }

  /** Closing, without a wrap in the way, and enough has arrived. */
  ghost predicate CanClose(s: StreamState) {
    && Silent(s)
    && 3 <= Rank(s.tcb.state)
    && s.tcb.lastAck <= s.tcb.seqno
    && AfterFin(s.tcb) < TWO32
    && AllTcp(s.inbox)
    && Needed(s.tcb.state) <= Closers(s.inbox, AfterFin(s.tcb))
  }

  /** One step of the close handshake: our FIN taken as acknowledged, and the peer's as sent, by the first ACK or FIN. */
  function NextInClose(t: TcbState, h: TcpHeader): TcbState {
    var fin := h.flags == FIN_ACK;
    if !(t.lastAck <= h.ackno <= t.seqno) || (!fin && h.flags != ACK) then t
    else if t.state == FinWait2(true) then t.(state := FinWait2(false))
    else if fin then t.(state := FinWait2(true), ack := (t.ack + 1) % 0x1_0000_0000, sendWindow := h.window, average := Observe(t.average, h.window))
    else t.(state := FinWait2(true), ack := (t.ack + 1) % 0x1_0000_0000, lastAck := h.ackno)
  }

  lemma ClosingProcessed(s: StreamState, p: NetworkPacket)
    requires p.transport.Tcp? && !IsReset(p)
    requires s.tcb.state == FinWait1(false) || s.tcb.state == FinWait2(true)
    ensures var it := Process(s, p);
            it.Again? && it.s.tcb == NextInClose(s.tcb, p.transport.tcp)
  {
    AcceptedIffPlainlyBetween(s.tcb, p.transport.tcp, p.payload);
    hide RevPacket, Trim, Retain, Observe, CheckPktType;
  }

  /** An accepted ACK or FIN moves a waiting stream on by one state, and other segments change nothing. */
  lemma ClosingMovesOn(s: StreamState, p: NetworkPacket)
    requires p.transport.Tcp? && !IsReset(p) && s.tcb.lastAck <= s.tcb.seqno
    requires s.tcb.state == FinWait1(false) || s.tcb.state == FinWait2(true)
    ensures var it := Process(s, p);
            && it.Again?
            && 3 <= Rank(it.s.tcb.state) && it.s.tcb.state != FinWait1(true)
            && it.s.tcb.seqno == s.tcb.seqno && it.s.tcb.lastAck <= s.tcb.seqno
            && Needed(it.s.tcb.state) + (if Closes(p, s.tcb.seqno) then 1 else 0) <= Needed(s.tcb.state)
            && it.s.tcb == NextInClose(s.tcb, p.transport.tcp)
  {
    hide Process, Observe;
    ClosingProcessed(s, p);
  }

  /** A silent stream delivers nothing and cannot panic over TCP packets. */
  lemma SilentIteration(w: World, fired: bool, room: nat)
    requires Turning(w) && Silent(w.s) && 3 <= Rank(w.s.tcb.state) && AllTcp(w.s.inbox)
    ensures var it := ReadIteration(w.s, fired, room);
            && it.s.fault == NoFault
            && Silent(it.s)
            && (it.Stop? ==> it.bytes == [])
            && AllTcp(it.s.inbox)
  {
    hide Sound, ReadIteration, SubMap;
    NoRequest(w);
    IterationGathers(w.s, fired, room);
    IterationKeeps(w, fired, room);
    if w.s.tcb.state == Closed {
      ClosedStays(w.s, fired, room);
      ClosedIsSafe(w.s, fired, room);
    } else if w.s.shutdown == NotRequested {
      DrainedIteration(w, fired, room);
    }
  }

  lemma ClosedIsSafe(s: StreamState, fired: bool, room: nat)
    requires s.tcb.state == Closed && s.fault == NoFault
    ensures var it := ReadIteration(s, fired, room);
            it.s.fault == NoFault && it.s.shutdown == Finished && it.Stop? && it.bytes == []
  {
    hide AfterWindow;
  }

  lemma FinIsMet(s: StreamState, room: nat)
    requires s.fault == NoFault && s.tcb.retransmission == None && s.tcb.state == FinWait1(true) && !Due(s)
    ensures var it := ReadIteration(s, false, room);
            && it.Again?
            && it.s.tcb.state == FinWait2(true) && it.s.inbox == s.inbox
            && it.s.tcb.seqno == WrapAdd(s.tcb.seqno, 1) && it.s.tcb.lastAck == s.tcb.lastAck
            && it.s.packetToSend.Some? && it.s.out == SendQueued(s).out
            && Finishes(it.s.packetToSend.value, s.tcb.seqno, s.tcb.ack)
  {
    hide ReadIteration, RevPacket, AvailableReadBuffer, Receive, Finishes;
    var s1 := Prepared(s);
    IterationPrepares(s, false, room);
    ControlFinishes(s1.(tcb := TakeUnordered(s1.tcb)));
  }

  lemma LastReadCloses(s: StreamState, room: nat)
    requires s.fault == NoFault && s.tcb.state == FinWait2(false)
    ensures var it := ReadIteration(s, false, room);
            it.Stop? && it.s.tcb.state == Closed
  {
    hide AfterWindow;
  }

  lemma WaitingIteration(s: StreamState, room: nat)
    requires Attentive(s) && (s.tcb.state == FinWait1(false) || s.tcb.state == FinWait2(true)) && CanClose(s)
    ensures var it := ReadIteration(s, false, room);
            && it.s.inbox == s.inbox[1..]
            && (if it.Again?
                then && 3 <= Rank(it.s.tcb.state) && it.s.tcb.state != FinWait1(true)
                     && it.s.tcb.seqno == s.tcb.seqno && it.s.tcb.lastAck <= s.tcb.seqno
                     && Needed(it.s.tcb.state) <= Closers(it.s.inbox, s.tcb.seqno)
                else it.s.tcb.state == Closed)
  {
    hide ReadIteration, Process, AvailableReadBuffer, Silent;
    var p := s.inbox[0];
    HeadIsProcessed(s, room);
    ProcessSettles(Meeting(s), p);
    ProcessClimbs(Meeting(s), p);
    ProcessGathers(Meeting(s), p);
    if !IsReset(p) {
      ClosingMovesOn(Meeting(s), p);
    } else {
      ResetAborts(Meeting(s), p);
    }
  }

  lemma ResetAborts(s: StreamState, p: NetworkPacket)
    requires IsReset(p)
    ensures Process(s, p) == Abort(s, ConnectionReset)
  {
  }

  lemma CanCloseIteration(w: World, room: nat)
    requires Turning(w) && CanClose(w.s)
    ensures var it := ReadIteration(w.s, false, room);
            && it.s.fault == NoFault
            && (if it.Again? then CanClose(it.s) else it.s.tcb.state == Closed && it.bytes == [])
  {
    hide Sound, ReadIteration;
    NoRequest(w);
    SilentIteration(w, false, room);
    match w.s.tcb.state
    case FinWait1(true) => FinIsMet(w.s, room);
    case FinWait2(false) => LastReadCloses(w.s, room);
    case Closed => ClosedStays(w.s, false, room);
    case _ => WaitingIteration(w.s, room);
  }

  /**
   A closing stream is closed by one read when the inbox holds as many acknowledgements of its FIN as the
   state waits for, two after our own FIN and one after answering the peer's, whatever stands between them.
   */
  lemma {:induction false} CloseCompletes(w: World, room: nat)
    requires Turning(w) && CanClose(w.s)
    ensures var r := PollRead(w.s, room, []);
            r.s.tcb.state == Closed && r.s.fault == NoFault && r.bytes == []
    decreases |w.s.inbox|, 6 - Rank(w.s.tcb.state)
  {
    hide Inv, Sound, Advances, ReadIteration, CanClose;
    IterationDescends(w.s, false, room);
    IterationKeeps(w, false, room);
    CanCloseIteration(w, room);
    var it := ReadIteration(w.s, false, room);
    if it.Again? {
      assert w.delivered + [] == w.delivered;
      CloseCompletes(w.(s := it.s), room);
      ReadGoesOn(w.s, room);
    }
  }

  /** The first `i` segments of the inbox are harmless and acknowledge everything sent. */
  ghost predicate Acknowledged(s: StreamState, iss: u32, i: nat) {
    && i <= |s.inbox|
    && LastAckAt(s.tcb.lastAck, s.tcb.seqno, s.inbox, i) == s.tcb.seqno
    && forall j :: 0 <= j < i ==> Harmless(s.inbox[j], iss, LastAckAt(s.tcb.lastAck, s.tcb.seqno, s.inbox, j))
  }

  lemma {:induction false} ClosersAfter(inbox: seq<NetworkPacket>, i: nat, a: u32)
    requires i <= |inbox|
    ensures Closers(inbox[i..], a) <= Closers(inbox, a)
    decreases i
  {
    if i > 0 {
      ClosersAfter(inbox[1..], i - 1, a);
      assert inbox[1..][i - 1..] == inbox[i..];
    }
  }

  /** One of the acknowledgements before the FIN. */
  lemma AcknowledgedIteration(w: World, i: nat, room: nat)
    requires Turning(w) && Live(w.s) && w.s.shutdown == Requested && w.s.tcb.lastAck < w.s.tcb.seqno
    requires Acknowledged(w.s, w.iss, i)
    ensures 0 < i && w.s.inbox[0].transport.Tcp?
    ensures var it := ReadIteration(w.s, false, room);
            && it.Again? && Live(it.s) && it.s.shutdown == Requested
            && it.s.inbox == w.s.inbox[1..]
            && it.s.tcb.seqno == w.s.tcb.seqno && it.s.tcb.lastAck <= w.s.tcb.seqno
            && Acknowledged(it.s, w.iss, i - 1)
  {
    hide Sound, ReadIteration, AvailableReadBuffer, Process, Stores, Heeds;
    NoRequest(w);
    HeadIsProcessed(w.s, room);
    MeetingKeeps(w);
    HarmlessIsAbsorbed(w.(s := Meeting(w.s)), w.s.inbox[0]);
    var it := ReadIteration(w.s, false, room);
    forall j | 0 <= j < i - 1
      ensures Harmless(it.s.inbox[j], w.iss, LastAckAt(it.s.tcb.lastAck, it.s.tcb.seqno, it.s.inbox, j))
    {
      assert it.s.inbox[j] == w.s.inbox[j + 1];
    }
  }

  lemma {:induction false} ShutdownRead(w: World, i: nat, room: nat)
    requires Turning(w) && Live(w.s) && w.s.shutdown == Requested
    requires w.s.tcb.lastAck <= w.s.tcb.seqno && w.s.tcb.seqno + 1 < TWO32
    requires AllTcp(w.s.inbox) && Acknowledged(w.s, w.iss, i)
    requires 2 <= Closers(w.s.inbox[i..], w.s.tcb.seqno + 1)
    ensures var r := PollRead(w.s, room, []);
            r.s.tcb.state == Closed && r.s.fault == NoFault && r.bytes == []
    decreases |w.s.inbox|
  {
    hide Sound, ReadIteration, PollRead, Acknowledged, Closers;
    NoRequest(w);
    var it := ReadIteration(w.s, false, room);
    IterationKeeps(w, false, room);
    assert w.delivered + [] == w.delivered;
    if w.s.tcb.lastAck == w.s.tcb.seqno {
      FinIsQueued(w.s, room);
      AcknowledgedWithin(w.s, w.iss, i);
      ClosersAfter(w.s.inbox, i, w.s.tcb.seqno + 1);
      CloseCompletes(w.(s := it.s), room);
    } else {
      AcknowledgedIteration(w, i, room);
      AcknowledgedWithin(w.s, w.iss, i);
      assert w.s.inbox[1..][i - 1..] == w.s.inbox[i..];
      ShutdownRead(w.(s := it.s), i - 1, room);
    }
    ReadGoesOn(w.s, room);
  }

  lemma AcknowledgedWithin(s: StreamState, iss: u32, i: nat)
    requires Acknowledged(s, iss, i)
    ensures i <= |s.inbox|
  {
  }

  /**
   A shutdown closes within one poll when the inbox acknowledges everything outstanding, however many segments
   that takes and whatever they carry, and then twice the FIN that the poll sends in between.
   */
  lemma ShutdownCompletes(w: World, i: nat)
    requires Inv(w) && Live(w.s) && w.s.shutdown != Finished
    requires w.s.tcb.lastAck <= w.s.tcb.seqno && w.s.tcb.seqno + 1 < TWO32
    requires AllTcp(w.s.inbox) && Acknowledged(w.s, w.iss, i)
    requires 2 <= Closers(w.s.inbox[i..], w.s.tcb.seqno + 1)
    ensures var w' := Step(w, Shut([]));
            w'.s.tcb.state == Closed && w'.s.fault == NoFault && w'.delivered == w.delivered
  {
    hide Sound, PollRead, Closers;
    var s := w.s.(shutdown := Requested);
    Unseen(w, s);
    assert w.delivered + [] == w.delivered;
    ShutdownRead(w.(s := s), i, 1);
  }

  lemma FinProcessed(s: StreamState, p: NetworkPacket)
    requires s.tcb.state == Established && s.fault == NoFault && s.packetToSend == None
    requires p.transport.Tcp? && p.transport.tcp.flags == FIN_ACK && s.tcb.lastAck <= p.transport.tcp.ackno <= s.tcb.seqno
    ensures var it := Process(s, p);
            && it.Again? && it.s.packetToSend.Some? && it.s.out == s.out && it.s.inbox == s.inbox
            && Answers(it.s.packetToSend.value, s.tcb.seqno, WrapAdd(s.tcb.ack, 1))
            && it.s.shutdown == s.shutdown
            && it.s.tcb == s.tcb.(state := FinWait1(true), ack := WrapAdd(s.tcb.ack, 1))
  {
    AcceptedIffPlainlyBetween(s.tcb, p.transport.tcp, p.payload);
    hide CheckPktType, ReplyHeader;
  }

  /** A read that gets to the peer's FIN acknowledges it, and puts the stream where `DeliveryAfterPeerFin` starts. */
  lemma FinIteration(w: World, room: nat)
    requires Turning(w) && Attentive(w.s) && w.s.tcb.state == Established && w.s.inbox != []
    requires var p := w.s.inbox[0];
             p.transport.Tcp? && p.transport.tcp.flags == FIN_ACK && w.s.tcb.lastAck <= p.transport.tcp.ackno <= w.s.tcb.seqno
    ensures var it := ReadIteration(w.s, false, room);
            && it.Again? && Turning(w.(s := it.s))
            && it.s.packetToSend.Some? && Wire(it.s) == Wire(w.s) + [it.s.packetToSend.value]
            && Answers(it.s.packetToSend.value, w.s.tcb.seqno, WrapAdd(w.s.tcb.ack, 1))
            && (it.s.inbox, it.s.shutdown, it.s.fault) == (w.s.inbox[1..], w.s.shutdown, NoFault)
            && it.s.tcb == w.s.tcb.(state := FinWait1(true), ack := it.s.tcb.ack, unordered := w.s.tcb.unordered - {w.s.tcb.ack}, recvWindow := it.s.tcb.recvWindow)
            && it.s.tcb.ack == WrapAdd(w.s.tcb.ack, 1)
  {
    hide Sound, ReadIteration, AvailableReadBuffer, Process;
    HeadIsProcessed(w.s, room);
    MeetingKeeps(w);
    FinProcessed(Meeting(w.s), w.s.inbox[0]);
    var it := ReadIteration(w.s, false, room);
    WireQueued(Meeting(w.s), it.s, it.s.packetToSend.value);
    IterationKeeps(w, false, room);
    assert w.delivered + [] == w.delivered;
  }

  /** With nothing due, a read that has counted the peer's FIN puts ours on the wire. */
  lemma FinFollows(w: World, room: nat) returns (fin: NetworkPacket)
    requires Turning(w) && w.s.tcb.state == FinWait1(true) && !Due(w.s)
    ensures Wire(w.s) + [fin] <= Wire(PollRead(w.s, room, []).s)
    ensures Finishes(fin, w.s.tcb.seqno, w.s.tcb.ack)
  {
    hide Sound, ReadIteration, PollRead, Finishes;
    NoRequest(w);
    FinIsMet(w.s, room);
    var it := ReadIteration(w.s, false, room);
    fin := it.s.packetToSend.value;
    assert Wire(it.s) == Wire(w.s) + [fin];
    IterationKeeps(w, false, room);
    assert w.delivered + [] == w.delivered;
    ReadKeeps(w.(s := it.s), room, []);
    ReadGoesOn(w.s, room);
  }

  lemma ClosingFinProcessed(s: StreamState, p: NetworkPacket)
    requires s.tcb.state == FinWait1(false) || s.tcb.state == FinWait2(true)
    requires s.fault == NoFault && s.packetToSend == None
    requires p.transport.Tcp? && p.transport.tcp.flags == FIN_ACK && s.tcb.lastAck <= p.transport.tcp.ackno <= s.tcb.seqno
    ensures var it := Process(s, p);
            var ack := if s.tcb.state == FinWait1(false) then WrapAdd(s.tcb.ack, 1) else s.tcb.ack;
            && it.Again? && it.s.packetToSend.Some? && it.s.out == s.out
            && Answers(it.s.packetToSend.value, s.tcb.seqno, ack)
  {
    AcceptedIffPlainlyBetween(s.tcb, p.transport.tcp, p.payload);
    ControlAnswers(s);
    ControlAnswers(s.(tcb := AddAck(s.tcb, 1)));
    hide CheckPktType, RevPacket, Answers, Observe;
  }

  /**
   A read that gets to a FIN of the peer acknowledges it, whatever follows: in Established and FinWait1(false) with
   `ack` one further, in FinWait2(true), where it is counted already, with the current `ack`.
   */
  lemma PeerFinIsAnswered(w: World, room: nat) returns (answer: NetworkPacket)
    requires Turning(w) && Attentive(w.s) && w.s.inbox != []
    requires w.s.tcb.state == Established || w.s.tcb.state == FinWait1(false) || w.s.tcb.state == FinWait2(true)
    requires var p := w.s.inbox[0];
             p.transport.Tcp? && p.transport.tcp.flags == FIN_ACK && w.s.tcb.lastAck <= p.transport.tcp.ackno <= w.s.tcb.seqno
    ensures Wire(w.s) + [answer] <= Wire(PollRead(w.s, room, []).s)
    ensures Answers(answer, w.s.tcb.seqno, if w.s.tcb.state == FinWait2(true) then w.s.tcb.ack else WrapAdd(w.s.tcb.ack, 1))
  {
    hide Sound, ReadIteration, PollRead, AvailableReadBuffer, Process, Answers;
    HeadIsProcessed(w.s, room);
    MeetingKeeps(w);
    if w.s.tcb.state == Established {
      FinProcessed(Meeting(w.s), w.s.inbox[0]);
    } else {
      ClosingFinProcessed(Meeting(w.s), w.s.inbox[0]);
    }
    var it := ReadIteration(w.s, false, room);
    answer := it.s.packetToSend.value;
    WireQueued(Meeting(w.s), it.s, answer);
    IterationKeeps(w, false, room);
    assert w.delivered + [] == w.delivered;
    ReadKeeps(w.(s := it.s), room, []);
    ReadGoesOn(w.s, room);
  }

  /**
   The passive close: a read that gets to the peer's FIN, with nothing buffered at the next two sequence
   numbers, acknowledges it, sends our FIN, and closes as soon as that is acknowledged in the same inbox.
   */
  lemma PeerCloseCompletes(w: World, room: nat) returns (answer: NetworkPacket, fin: NetworkPacket)
    requires Turning(w) && Attentive(w.s) && w.s.tcb.state == Established && w.s.inbox != [] && w.s.tcb.seqno + 1 < TWO32
    requires var p := w.s.inbox[0];
             p.transport.Tcp? && p.transport.tcp.flags == FIN_ACK && w.s.tcb.lastAck <= p.transport.tcp.ackno <= w.s.tcb.seqno
    requires WrapAdd(w.s.tcb.ack, 1) !in w.s.tcb.unordered && WrapAdd(w.s.tcb.ack, 2) !in w.s.tcb.unordered
    requires AllTcp(w.s.inbox) && 1 <= Closers(w.s.inbox[1..], w.s.tcb.seqno + 1)
    ensures var r := PollRead(w.s, room, []);
            && r.s.tcb.state == Closed && r.s.fault == NoFault && r.bytes == []
            && Wire(w.s) + [answer] + [fin] <= Wire(r.s)
    ensures Answers(answer, w.s.tcb.seqno, WrapAdd(w.s.tcb.ack, 1)) && Finishes(fin, w.s.tcb.seqno, WrapAdd(w.s.tcb.ack, 1))
  {
    hide Sound, ReadIteration, PollRead, Finishes, Answers;
    FinIteration(w, room);
    var it := ReadIteration(w.s, false, room);
    answer := it.s.packetToSend.value;
    assert WrapAdd(WrapAdd(w.s.tcb.ack, 1), 1) == WrapAdd(w.s.tcb.ack, 2);
    fin := FinFollows(w.(s := it.s), room);
    CloseCompletes(w.(s := it.s), room);
    ReadGoesOn(w.s, room);
  }

  /**
   The positive half of `DeliveryAfterPeerFin`: when the peer's FIN is met with nothing buffered at the next two
   sequence numbers, what has been delivered stays, in every continuation, the prefix of the peer's stream it was.
   */
  lemma PrefixAfterPeerFin(w: World, room: nat, clock: seq<bool>, events: seq<Event>, peer: seq<byte>)
    requires Turning(w) && Attentive(w.s) && w.s.tcb.state == Established && w.s.inbox != []
    requires var p := w.s.inbox[0];
             p.transport.Tcp? && p.transport.tcp.flags == FIN_ACK && w.s.tcb.lastAck <= p.transport.tcp.ackno <= w.s.tcb.seqno
    requires WrapAdd(w.s.tcb.ack, 1) !in w.s.tcb.unordered && WrapAdd(w.s.tcb.ack, 2) !in w.s.tcb.unordered
    requires w.delivered <= peer
    ensures var delivered := Run(AfterRead(w, PollRead(w.s, room, clock)), events).delivered;
            delivered == w.delivered <= peer
  {
    hide Sound, ReadIteration, Run;
    var fired := clock != [] && clock[0];
    var it := ReadIteration(w.s, fired, room);
    ReadKeeps(w, room, clock);
    assert w.delivered + [] == w.delivered;
    if fired {
      IterationSettles(w.s, fired, room);
    } else {
      FinIteration(w, room);
      assert WrapAdd(WrapAdd(w.s.tcb.ack, 1), 1) == WrapAdd(w.s.tcb.ack, 2);
      DrainedRead(w.(s := it.s), room, if clock == [] then [] else clock[1..]);
    }
    DrainedRun(AfterRead(w, PollRead(w.s, room, clock)), events);
  }
}

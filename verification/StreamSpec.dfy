/**
 The TCP stream as a value (src/stream/tcp.rs): its fields, one iteration of the
 `poll_read` loop, the four polls, and runs of polls interleaved with arriving packets.
 */
module StreamSpec {
  import opened Words
  import opened Packets
  import opened TcbSpec

  datatype Shutdown = NotRequested | Requested | Finished

  /** A panic unwinds out of the poll; the stream is not polled again. */
  datatype Fault = NoFault | LookupFailed | NoRoom | WrongProtocol

  datatype ErrorKind = NotConnected | ConnectionAborted | ConnectionReset | TimedOut

  datatype Poll = Pending | Ready(n: nat) | Failed(error: ErrorKind) | Panicked

  /**
   `inbox` is the channel from the session table and `hungUp` says that it has ended once
   drained; `out` is everything ever sent on `packet_sender`.
   */
  datatype StreamState = StreamState(
    ends: Endpoints,
    mtu: u16,
    tcb: TcbState,
    packetToSend: Option<NetworkPacket>,
    shutdown: Shutdown,
    inbox: seq<NetworkPacket>,
    hungUp: bool,
    out: seq<NetworkPacket>,
    fault: Fault)

  function NewStream(ends: Endpoints, mtu: u16, iss: u32, irs: u32): StreamState {
    StreamState(ends, mtu, NewTcb(iss, WrapAdd(irs, 1)), None, NotRequested, [], false, [], NoFault)
  }

  // --- Building packets ---

  function IpHeaderSize(ends: Endpoints): nat {
    if ends.src.ip.V4? then IPV4_HEADER else IPV6_HEADER
  }

  /** The most payload the link can carry in one packet. */
  function MaxPayload(s: StreamState): (n: u16)
    ensures n + TCP_HEADER <= 0xFFFF - IPV4_HEADER
  {
    SatSub(s.mtu, IpHeaderSize(s.ends) + TCP_HEADER)
  }

  /** `calculate_payload_len` */
  function PayloadLimit(s: StreamState): nat {
    Min(s.tcb.sendWindow, MaxPayload(s))
  }

  /** `create_rev_packet`: a packet from the dialled address back to the peer. */
  function RevPacket(s: StreamState, flags: Flags, ttl: byte, seqno: u32, payload: seq<byte>): NetworkPacket {
    var kept := Truncate(payload, PayloadLimit(s));
    var header := TcpHeader(s.ends.dst.port, s.ends.src.port, seqno, s.tcb.ack, s.tcb.recvWindow, flags);
    NetworkPacket(ReplyHeader(s.ends, ttl, PROTOCOL_TCP, |kept| + TCP_HEADER), Tcp(header), kept)
  }

  /** A packet without payload at the current sequence number. */
  function Control(s: StreamState, flags: Flags, ttl: byte): NetworkPacket {
    RevPacket(s, flags, ttl, s.tcb.seqno, [])
  }

  function Send(s: StreamState, p: NetworkPacket): StreamState {
    s.(out := s.out + [p])
  }

  function Queue(s: StreamState, p: NetworkPacket): StreamState {
    s.(packetToSend := Some(p))
  }

  function SetState(s: StreamState, st: TcpState): StreamState {
    s.(tcb := s.tcb.(state := st))
  }

  // --- poll_flush ---

  /** Index of the first in-flight packet that starts at `q`, or the length of the list. */
  function FirstAt(l: seq<InflightPacket>, q: u32): (i: nat)
    ensures i <= |l|
    ensures i < |l| ==> l[i].seqno == q
    ensures forall j :: 0 <= j < i ==> l[j].seqno != q
  {
    if l == [] || l[0].seqno == q then 0 else 1 + FirstAt(l[1..], q)
  }

  /** Resends the packet that starts at `q`; the source panics when there is none. */
  function Resend(s: StreamState, q: u32): StreamState {
    var i := FirstAt(s.tcb.inflight, q);
    if i < |s.tcb.inflight| then
      Send(s, RevPacket(s, PSH_ACK, TTL, s.tcb.inflight[i].seqno, s.tcb.inflight[i].payload))
    else
      s.(fault := LookupFailed)
  }

  function Flushed(s: StreamState): StreamState {
    if s.tcb.state != Established || s.tcb.retransmission.None? then s
    else Resend(s.(tcb := s.tcb.(retransmission := None)), s.tcb.retransmission.value)
  }

  function FlushPoll(s: StreamState): Poll {
    if s.tcb.state != Established then Failed(NotConnected)
    else if Flushed(s).fault != NoFault then Panicked
    else Ready(0)
  }

  // --- One iteration of the poll_read loop ---

  datatype Iteration =
    | Again(s: StreamState)
    | Stop(s: StreamState, poll: Poll, bytes: seq<byte>)

  function SendQueued(s: StreamState): StreamState {
    match s.packetToSend
    case Some(p) => Send(s, p).(packetToSend := None)
    case None => s
  }

  /** Announces the end of the session to the session table and closes. */
  function Abort(s: StreamState, e: ErrorKind): Iteration {
    Stop(SetState(Queue(s, Control(s, NON, DROP_TTL)), Closed).(shutdown := Finished), Failed(e), [])
  }

  ghost function ReadIteration(s: StreamState, fired: bool, room: nat): Iteration {
    var s1 := Flushed(s);
    if s1.fault != NoFault then Stop(s1, Panicked, [])
    else
      var s2 := SendQueued(s1);
      if s2.tcb.state == Closed then
        Stop(s2.(shutdown := Finished), Ready(0), [])
      else if s2.tcb.state == FinWait2(false) then
        Abort(s2, ConnectionAborted)
      else
        AfterWindow(s2.(tcb := ChangeRecvWindow(s2.tcb, AvailableReadBuffer(s2.tcb))), fired, room)
  }

  /** The rest of the iteration, once the receive window is up to date. */
  function AfterWindow(s: StreamState, fired: bool, room: nat): Iteration {
    if fired then
      Stop(SetState(Send(s, Control(s, RST_ACK, TTL)), Closed).(shutdown := Finished), Failed(TimedOut), [])
    else if s.tcb.state == SynReceived(false) then
      Again(SendSynAck(s))
    else
      DeliverOrReceive(s, room)
  }

  function SendSynAck(s: StreamState): StreamState {
    SetState(Queue(s, Control(s, SYN_ACK, TTL)).(tcb := AddSeqOne(s.tcb)), SynReceived(true))
  }

  function DeliverOrReceive(s: StreamState, room: nat): Iteration {
    var next := NextUnordered(s.tcb);
    var s1 := s.(tcb := TakeUnordered(s.tcb));
    if next.Some? && s.shutdown == NotRequested then
      Deliver(s1, next.value, room)
    else if s.tcb.state == FinWait1(true) then
      Again(AnswerFin(s1))
    else if s.shutdown == Requested && s.tcb.state == Established && s.tcb.lastAck == s.tcb.seqno then
      Again(SendFin(s1))
    else
      Receive(s1)
  }

  /** Hands a payload to the reader, whose buffer must have room for all of it. */
  function Deliver(s: StreamState, b: seq<byte>, room: nat): Iteration {
    var s1 := s.(tcb := AddAck(s.tcb, Len32(b)));
    if |b| > room then Stop(s1.(fault := NoRoom), Panicked, [])
    else Stop(Send(s1, Control(s1, ACK, TTL)), Ready(|b|), b)
  }

  function AnswerFin(s: StreamState): StreamState {
    SetState(Queue(s, Control(s, FIN_ACK, TTL)).(tcb := AddAck(AddSeqOne(s.tcb), 1)), FinWait2(true))
  }

  function SendFin(s: StreamState): StreamState {
    SetState(Queue(s, Control(s, FIN_ACK, TTL)).(tcb := AddSeqOne(s.tcb)), FinWait1(false))
  }

  function Receive(s: StreamState): Iteration {
    if s.inbox == [] then
      Stop(s, if s.hungUp then Ready(0) else Pending, [])
    else
      Process(s.(inbox := s.inbox[1..]), s.inbox[0])
  }

  function Process(s: StreamState, p: NetworkPacket): Iteration {
    if !p.transport.Tcp? then
      Stop(s.(fault := WrongProtocol), Panicked, [])
    else
      var h := p.transport.tcp;
      if h.flags.rst then Abort(s, ConnectionReset)
      else if CheckPktType(s.tcb, h, p.payload) == Invalid then Again(s)
      else match s.tcb.state
        case SynReceived(true) => Again(if h.flags == ACK then CompleteHandshake(s, h) else s)
        case Established => InEstablished(s, h, p.payload)
        case FinWait1(false) => Again(InFinWait1(s, h))
        case FinWait2(true) => Again(InFinWait2(s, h))
        case _ => Again(s)
  }

  function CompleteHandshake(s: StreamState, h: TcpHeader): StreamState {
    SetState(s.(tcb := ChangeSendWindow(ChangeLastAck(s.tcb, h.ackno), h.window)), Established)
  }

  function InEstablished(s: StreamState, h: TcpHeader, payload: seq<byte>): Iteration {
    if h.flags == ACK then
      match CheckPktType(s.tcb, h, payload)
      case WindowUpdate => Again(s.(tcb := ChangeSendWindow(s.tcb, h.window)))
      case Invalid => Again(s)
      case KeepAlive => Again(AnswerKeepAlive(s, h))
      case RetransmissionRequest => Retransmit(s, h)
      case NewPacket => Again(s.(tcb := ChangeSendWindow(AddUnordered(ChangeLastAck(s.tcb, h.ackno), h.seqno, payload), h.window)))
      case Ack => Again(s.(tcb := ChangeSendWindow(ChangeLastAck(s.tcb, h.ackno), h.window)))
    else if h.flags == FIN_ACK then
      Again(PeerFin(s))
    else if h.flags == PSH_ACK then
      if CheckPktType(s.tcb, h, payload) != NewPacket then Again(s)
      else
        var s1 := s.(tcb := ChangeLastAck(s.tcb, h.ackno));
        if payload == [] || s1.tcb.ack != h.seqno then Again(s1)
        else Again(s1.(tcb := AddUnordered(ChangeSendWindow(s1.tcb, h.window), h.seqno, payload)))
    else
      Again(s)
  }

  function AnswerKeepAlive(s: StreamState, h: TcpHeader): StreamState {
    var s1 := s.(tcb := ChangeSendWindow(ChangeLastAck(s.tcb, h.ackno), h.window));
    Queue(s1, Control(s1, ACK, TTL))
  }

  function Retransmit(s: StreamState, h: TcpHeader): Iteration {
    var s1 := Flushed(s.(tcb := ChangeSendWindow(s.tcb, h.window).(retransmission := Some(h.ackno))));
    if s1.fault != NoFault then Stop(s1, Panicked, []) else Again(s1)
  }

  /** The peer's FIN is acknowledged wherever it lies in the sequence space. */
  function PeerFin(s: StreamState): StreamState {
    var s1 := s.(tcb := AddAck(s.tcb, 1));
    SetState(Queue(s1, Control(s1, ACK, TTL)), FinWait1(true))
  }

  function InFinWait1(s: StreamState, h: TcpHeader): StreamState {
    if h.flags == ACK then
      SetState(s.(tcb := AddAck(ChangeLastAck(s.tcb, h.ackno), 1)), FinWait2(true))
    else if h.flags == FIN_ACK then
      var s1 := s.(tcb := AddAck(s.tcb, 1));
      SetState(Queue(s1, Control(s1, ACK, TTL)).(tcb := ChangeSendWindow(s1.tcb, h.window)), FinWait2(true))
    else
      s
  }

  function InFinWait2(s: StreamState, h: TcpHeader): StreamState {
    if h.flags == ACK then SetState(s, FinWait2(false))
    else if h.flags == FIN_ACK then SetState(Queue(s, Control(s, ACK, TTL)), FinWait2(false))
    else s
  }

  /** A stream with nothing queued and its receive window up to date. */
  ghost function Prepared(s: StreamState): StreamState {
    var s2 := SendQueued(s);
    s2.(tcb := ChangeRecvWindow(s2.tcb, AvailableReadBuffer(s2.tcb)))
  }

  lemma IterationPrepares(s: StreamState, fired: bool, room: nat)
    requires s.fault == NoFault && s.tcb.retransmission == None && s.tcb.state != Closed && s.tcb.state != FinWait2(false)
    ensures ReadIteration(s, fired, room) == AfterWindow(Prepared(s), fired, room)
  {
    hide AfterWindow, AvailableReadBuffer;
  }

  // --- The polls ---

  /** How far a connection has come; every state change climbs. */
  function Rank(st: TcpState): nat {
    match st
    case SynReceived(false) => 0
    case SynReceived(true) => 1
    case Established => 2
    case FinWait1(_) => 3
    case FinWait2(true) => 4
    case FinWait2(false) => 5
    case Closed => 6
  }

  /** An iteration that goes round again has consumed a packet or climbed. */
  ghost predicate Descends(s: StreamState, it: Iteration) {
    it.Again? ==>
      || (it.s.inbox == s.inbox && Rank(s.tcb.state) < Rank(it.s.tcb.state))
      || (|it.s.inbox| < |s.inbox| && Rank(s.tcb.state) <= Rank(it.s.tcb.state))
  }

  lemma EstablishedClimbs(s: StreamState, h: TcpHeader, payload: seq<byte>)
    requires s.tcb.state == Established
    ensures var it := InEstablished(s, h, payload);
            it.s.inbox == s.inbox && Rank(s.tcb.state) <= Rank(it.s.tcb.state)
  {
    hide CheckPktType, RevPacket, Trim, Retain, Observe, FirstAt;
  }

  lemma ProcessClimbs(s: StreamState, p: NetworkPacket)
    ensures var it := Process(s, p);
            it.s.inbox == s.inbox && Rank(s.tcb.state) <= Rank(it.s.tcb.state)
  {
    hide CheckPktType, RevPacket, Trim, Retain, Observe, InEstablished;
    if p.transport.Tcp? && s.tcb.state == Established {
      EstablishedClimbs(s, p.transport.tcp, p.payload);
    }
  }

  lemma ReceiveDescends(s: StreamState, room: nat)
    ensures Descends(s, DeliverOrReceive(s, room))
  {
    hide Process, RevPacket;
    if s.inbox != [] {
      var s1 := s.(tcb := TakeUnordered(s.tcb));
      ProcessClimbs(s1.(inbox := s.inbox[1..]), s.inbox[0]);
    }
  }

  lemma IterationDescends(s: StreamState, fired: bool, room: nat)
    ensures Descends(s, ReadIteration(s, fired, room))
  {
    hide DeliverOrReceive, RevPacket, AvailableReadBuffer;
    var s2 := SendQueued(Flushed(s));
    ReceiveDescends(s2.(tcb := ChangeRecvWindow(s2.tcb, AvailableReadBuffer(s2.tcb))), room);
  }

  datatype ReadResult = ReadResult(s: StreamState, poll: Poll, bytes: seq<byte>)

  /**
   `poll_read`. Each iteration reads the timer once: `clock` holds the readings, true where
   the deadline has passed; a clock that has run out reads false.
   */
  ghost function PollRead(s: StreamState, room: nat, clock: seq<bool>): ReadResult
    decreases |s.inbox|, 6 - Rank(s.tcb.state)
  {
    IterationDescends(s, clock != [] && clock[0], room);
    match ReadIteration(s, clock != [] && clock[0], room)
    case Stop(s1, poll, bytes) => ReadResult(s1, poll, bytes)
    case Again(s1) => PollRead(s1, room, if clock == [] then [] else clock[1..])
  }

  ghost function PollShutdown(s: StreamState, clock: seq<bool>): ReadResult {
    if s.shutdown == Finished then ReadResult(s, Ready(0), [])
    else PollRead(s.(shutdown := Requested), 1, clock)
  }

  datatype WriteResult = WriteResult(s: StreamState, poll: Poll)

  function PollWrite(s: StreamState, buf: seq<byte>): WriteResult {
    if s.tcb.state != Established then WriteResult(s, Failed(NotConnected))
    else if s.tcb.sendWindow < s.tcb.average.avg / 2 || SendBufferFull(s.tcb) then WriteResult(s, Pending)
    else
      var s1 := Flushed(s);
      if s1.fault != NoFault then WriteResult(s1, Panicked)
      else
        var p := RevPacket(s1, PSH_ACK, TTL, s1.tcb.seqno, buf);
        WriteResult(Send(s1, p).(tcb := AddInflight(s1.tcb, s1.tcb.seqno, p.payload)), Ready(|p.payload|))
  }

  // --- Runs ---

  /** A stream with its history: initial sequence numbers, bytes accepted and bytes delivered so far. */
  datatype World = World(s: StreamState, iss: u32, irs: u32, sent: seq<byte>, delivered: seq<byte>)

  datatype Event =
    | Arrive(p: NetworkPacket)
    | HangUp
    | Read(room: nat, clock: seq<bool>)
    | Write(buf: seq<byte>)
    | Flush
    | Shut(clock: seq<bool>)

  function Start(ends: Endpoints, mtu: u16, iss: u32, irs: u32): World {
    World(NewStream(ends, mtu, iss, irs), iss, irs, [], [])
  }

  function AfterIteration(w: World, it: Iteration): World {
    w.(s := it.s, delivered := w.delivered + if it.Stop? then it.bytes else [])
  }

  function AfterRead(w: World, r: ReadResult): World {
    w.(s := r.s, delivered := w.delivered + r.bytes)
  }

  function AfterWrite(w: World, buf: seq<byte>, r: WriteResult): World {
    w.(s := r.s, sent := w.sent + if r.poll.Ready? then Truncate(buf, r.poll.n) else [])
  }

  ghost function Step(w: World, e: Event): World {
    if w.s.fault != NoFault then w
    else match e
      case Arrive(p) => w.(s := w.s.(inbox := w.s.inbox + [p]))
      case HangUp => w.(s := w.s.(hungUp := true))
      case Read(room, clock) => AfterRead(w, PollRead(w.s, room, clock))
      case Write(buf) => AfterWrite(w, buf, PollWrite(w.s, buf))
      case Flush => w.(s := Flushed(w.s))
      case Shut(clock) => AfterRead(w, PollShutdown(w.s, clock))
  }

  ghost function Run(w: World, events: seq<Event>): World
    decreases |events|
  {
    if events == [] then w else Run(Step(w, events[0]), events[1..])
  }

  /** The packets that arrive in a run, in order. */
  function Arrivals(events: seq<Event>): seq<NetworkPacket> {
    if events == [] then []
    else (if events[0].Arrive? then [events[0].p] else []) + Arrivals(events[1..])
  }
}

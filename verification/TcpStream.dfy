/** The TCP stream as the application holds it: polls that change it in place (src/stream/tcp.rs). */
module TcpStream {
  import opened Words
  import opened Packets
  import opened TcbSpec
  import opened ControlBlock
  import opened StreamSpec
  import opened Invariants
  import opened Preservation
  import opened ReceiveSide

  /** The iteration that a helper of the read loop has carried out. */
  ghost function Outcome(stop: bool, s: StreamState, poll: Poll, bytes: seq<byte>): Iteration {
    if stop then Stop(s, poll, bytes) else Again(s)
  }

  class Stream {
    const ends: Endpoints
    const mtu: u16
    const tcb: Tcb
    var packetToSend: Option<NetworkPacket>
    var shutdown: Shutdown
    var inbox: seq<NetworkPacket>
    var hungUp: bool
    var out: seq<NetworkPacket>
    var fault: Fault

    // The history that the invariant speaks about.
    ghost const iss: u32
    ghost const irs: u32
    ghost var sent: seq<byte>
    ghost var delivered: seq<byte>

    ghost function View(): StreamState
      reads this, tcb
    {
      StreamState(ends, mtu, tcb.View(), packetToSend, shutdown, inbox, hungUp, out, fault)
    }

    ghost function World(): World
      reads this, tcb
    {
      StreamSpec.World(View(), iss, irs, sent, delivered)
    }

    ghost predicate Valid()
      reads this, tcb
    {
      Inv(World())
    }

    constructor (ends: Endpoints, mtu: u16, iss: u32, irs: u32)
      ensures Valid() && World() == Start(ends, mtu, iss, irs)
      ensures fresh(tcb)
    {
      this.ends := ends;
      this.mtu := mtu;
      this.tcb := new Tcb(iss, WrapAdd(irs, 1));
      this.packetToSend := None;
      this.shutdown := NotRequested;
      this.inbox := [];
      this.hungUp := false;
      this.out := [];
      this.fault := NoFault;
      this.iss := iss;
      this.irs := irs;
      this.sent := [];
      this.delivered := [];
      new;
      StartSound(ends, mtu, iss, irs);
    }

    // --- Packets ---

    method CreateRevPacket(flags: Flags, ttl: byte, q: u32, payload: seq<byte>) returns (p: NetworkPacket)
      ensures p == RevPacket(View(), flags, ttl, q, payload)
    {
      var ipHeader := if ends.src.ip.V4? then IPV4_HEADER else IPV6_HEADER;
      var limit := Min(tcb.sendWindow, SatSub(mtu, ipHeader + TCP_HEADER));
      var kept := if |payload| <= limit then payload else payload[..limit];
      var header := TcpHeader(ends.dst.port, ends.src.port, q, tcb.ack, tcb.recvWindow, flags);
      p := NetworkPacket(ReplyHeader(ends, ttl, PROTOCOL_TCP, |kept| + TCP_HEADER), Tcp(header), kept);
    }

    method SendNow(flags: Flags, ttl: byte)
      modifies this`out
      ensures View() == Send(old(View()), Control(old(View()), flags, ttl))
    {
      var p := CreateRevPacket(flags, ttl, tcb.seqno, []);
      out := out + [p];
    }

    /** Queues a control packet; the slot is always free. */
    method Enqueue(flags: Flags, ttl: byte)
      requires packetToSend == None
      modifies this`packetToSend
      ensures View() == Queue(old(View()), Control(old(View()), flags, ttl))
    {
      var p := CreateRevPacket(flags, ttl, tcb.seqno, []);
      packetToSend := Some(p);
    }

    method ChangeState(st: TcpState)
      modifies tcb
      ensures View() == SetState(old(View()), st)
    {
      tcb.state := st;
    }

    // --- poll_flush ---

    /** `find`: the first in-flight packet that starts at `q`. */
    method Find(q: u32) returns (i: nat)
      ensures i == FirstAt(tcb.inflight, q)
    {
      i := 0;
      while i < |tcb.inflight| && tcb.inflight[i].seqno != q
        invariant i <= |tcb.inflight|
        invariant forall j :: 0 <= j < i ==> tcb.inflight[j].seqno != q
      {
        i := i + 1;
      }
      FirstAtUnique(tcb.inflight, q, i);
    }

    method FlushInner() returns (poll: Poll)
      requires fault == NoFault
      modifies this`out, this`fault, tcb`retransmission
      ensures View() == Flushed(old(View())) && poll == FlushPoll(old(View()))
    {
      hide RevPacket;
      if tcb.state != Established {
        return Failed(NotConnected);
      }
      poll := Ready(0);
      if tcb.retransmission.Some? {
        var q := tcb.retransmission.value;
        tcb.retransmission := None;
        var i := Find(q);
        if i < |tcb.inflight| {
          var p := CreateRevPacket(PSH_ACK, TTL, tcb.inflight[i].seqno, tcb.inflight[i].payload);
          out := out + [p];
        } else {
          fault := LookupFailed;
          poll := Panicked;
        }
      }
    }

    // --- The read loop ---

    method Abort(e: ErrorKind) returns (poll: Poll)
      requires packetToSend == None
      modifies this`packetToSend, this`shutdown, tcb
      ensures Stop(View(), poll, []) == StreamSpec.Abort(old(View()), e)
    {
      hide RevPacket;
      Enqueue(NON, DROP_TTL);
      ChangeState(Closed);
      shutdown := Finished;
      poll := Failed(e);
    }

    /** A segment marked just ACK, in Established. */
    method OnAck(h: TcpHeader, payload: seq<byte>) returns (stop: bool, poll: Poll)
      requires fault == NoFault && packetToSend == None && tcb.state == Established && h.flags == ACK
      modifies this`packetToSend, this`out, this`fault, tcb
      ensures Outcome(stop, View(), poll, []) == InEstablished(old(View()), h, payload)
      ensures !stop ==> fault == NoFault
      ensures shutdown == old(shutdown) && inbox == old(inbox)
    {
      hide RevPacket, Trim, Retain, Observe, CheckPktType;
      stop, poll := false, Pending;
      var status := tcb.CheckPacketType(h, payload);
      match status
      case WindowUpdate =>
        tcb.ChangeSendWindow(h.window);
      case Invalid =>
      case KeepAlive =>
        tcb.ChangeLastAck(h.ackno);
        tcb.ChangeSendWindow(h.window);
        Enqueue(ACK, TTL);
      case RetransmissionRequest =>
        tcb.ChangeSendWindow(h.window);
        tcb.retransmission := Some(h.ackno);
        var _ := FlushInner();
        if fault != NoFault {
          stop, poll := true, Panicked;
        }
      case NewPacket =>
        tcb.ChangeLastAck(h.ackno);
        tcb.AddUnorderedPacket(h.seqno, payload);
        tcb.ChangeSendWindow(h.window);
      case Ack =>
        tcb.ChangeLastAck(h.ackno);
        tcb.ChangeSendWindow(h.window);
    }

    method OnEstablished(h: TcpHeader, payload: seq<byte>) returns (stop: bool, poll: Poll)
      requires fault == NoFault && packetToSend == None && tcb.state == Established
      modifies this`packetToSend, this`out, this`fault, tcb
      ensures Outcome(stop, View(), poll, []) == InEstablished(old(View()), h, payload)
      ensures !stop ==> fault == NoFault
    {
      hide RevPacket, Trim, Retain, Observe, CheckPktType;
      stop, poll := false, Pending;
      if h.flags == ACK {
        stop, poll := OnAck(h, payload);
      } else if h.flags == FIN_ACK {
        tcb.AddAck(1);
        Enqueue(ACK, TTL);
        ChangeState(FinWait1(true));
      } else if h.flags == PSH_ACK {
        var status := tcb.CheckPacketType(h, payload);
        if status == NewPacket {
          tcb.ChangeLastAck(h.ackno);
          if payload != [] && tcb.ack == h.seqno {
            tcb.ChangeSendWindow(h.window);
            tcb.AddUnorderedPacket(h.seqno, payload);
          }
        }
      }
    }

    method OnClosing(h: TcpHeader)
      requires packetToSend == None && (tcb.state == FinWait1(false) || tcb.state == FinWait2(true))
      modifies this`packetToSend, tcb
      ensures View() == if old(tcb.state) == FinWait1(false) then InFinWait1(old(View()), h) else InFinWait2(old(View()), h)
    {
      hide RevPacket, Trim, Retain, Observe;
      if tcb.state == FinWait1(false) {
        if h.flags == ACK {
          tcb.ChangeLastAck(h.ackno);
          tcb.AddAck(1);
          ChangeState(FinWait2(true));
        } else if h.flags == FIN_ACK {
          tcb.AddAck(1);
          Enqueue(ACK, TTL);
          tcb.ChangeSendWindow(h.window);
          ChangeState(FinWait2(true));
        }
      } else if h.flags == ACK {
        ChangeState(FinWait2(false));
      } else if h.flags == FIN_ACK {
        Enqueue(ACK, TTL);
        ChangeState(FinWait2(false));
      }
    }

    method ProcessPacket(p: NetworkPacket) returns (stop: bool, poll: Poll)
      requires fault == NoFault && packetToSend == None
      modifies this`packetToSend, this`out, this`fault, this`shutdown, tcb
      ensures Outcome(stop, View(), poll, []) == Process(old(View()), p)
      ensures !stop ==> fault == NoFault
    {
      hide RevPacket, Trim, Retain, Observe, CheckPktType, InEstablished, InFinWait1, InFinWait2;
      stop, poll := false, Pending;
      if !p.transport.Tcp? {
        fault := WrongProtocol;
        return true, Panicked;
      }
      var h := p.transport.tcp;
      if h.flags.rst {
        poll := Abort(ConnectionReset);
        return true, poll;
      }
      var status := tcb.CheckPacketType(h, p.payload);
      if status == Invalid {
        return;
      }
      match tcb.state
      case SynReceived(true) =>
        if h.flags == ACK {
          tcb.ChangeLastAck(h.ackno);
          tcb.ChangeSendWindow(h.window);
          ChangeState(Established);
        }
      case Established =>
        stop, poll := OnEstablished(h, p.payload);
      case FinWait1(false) =>
        OnClosing(h);
      case FinWait2(true) =>
        OnClosing(h);
      case _ =>
    }

    /** The part of an iteration after the window update and the timer. */
    method DeliverOrReceiveInner(room: nat) returns (stop: bool, poll: Poll, bytes: seq<byte>)
      requires fault == NoFault && packetToSend == None
      modifies this`packetToSend, this`out, this`fault, this`shutdown, this`inbox, tcb
      ensures Outcome(stop, View(), poll, bytes) == DeliverOrReceive(old(View()), room)
      ensures !stop ==> fault == NoFault
    {
      hide RevPacket, Process;
      stop, poll, bytes := false, Pending, [];
      var next := tcb.GetUnorderedPackets();
      if next.Some? && shutdown == NotRequested {
        var b := next.value;
        tcb.AddAck(Len32(b));
        if |b| > room {
          fault := NoRoom;
          return true, Panicked, [];
        }
        SendNow(ACK, TTL);
        return true, Ready(|b|), b;
      }
      if tcb.state == FinWait1(true) {
        Enqueue(FIN_ACK, TTL);
        tcb.AddSeqOne();
        tcb.AddAck(1);
        ChangeState(FinWait2(true));
      } else if shutdown == Requested && tcb.state == Established && tcb.lastAck == tcb.seqno {
        Enqueue(FIN_ACK, TTL);
        tcb.AddSeqOne();
        ChangeState(FinWait1(false));
      } else if inbox == [] {
        return true, if hungUp then Ready(0) else Pending, [];
      } else {
        var p := inbox[0];
        inbox := inbox[1..];
        stop, poll := ProcessPacket(p);
      }
    }

    method IterateAfterWindow(fired: bool, room: nat) returns (stop: bool, poll: Poll, bytes: seq<byte>)
      requires fault == NoFault && packetToSend == None
      modifies this`packetToSend, this`out, this`fault, this`shutdown, this`inbox, tcb
      ensures Outcome(stop, View(), poll, bytes) == AfterWindow(old(View()), fired, room)
      ensures !stop ==> fault == NoFault
    {
      hide RevPacket, DeliverOrReceive;
      stop, poll, bytes := false, Pending, [];
      if fired {
        SendNow(RST_ACK, TTL);
        ChangeState(Closed);
        shutdown := Finished;
        return true, Failed(TimedOut), [];
      }
      if tcb.state == SynReceived(false) {
        Enqueue(SYN_ACK, TTL);
        tcb.AddSeqOne();
        ChangeState(SynReceived(true));
        return;
      }
      stop, poll, bytes := DeliverOrReceiveInner(room);
    }

    /** Serves a request to retransmit and sends what is queued. */
    method SendPending()
      requires fault == NoFault
      modifies this`packetToSend, this`out, this`fault, tcb
      ensures var s := Flushed(old(View()));
              View() == if s.fault == NoFault then SendQueued(s) else s
    {
      hide RevPacket, Resend;
      if tcb.retransmission.Some? {
        var _ := FlushInner();
        if fault != NoFault {
          return;
        }
      }
      if packetToSend.Some? {
        out := out + [packetToSend.value];
        packetToSend := None;
      }
    }

    method Iterate(fired: bool, room: nat) returns (stop: bool, poll: Poll, bytes: seq<byte>)
      requires fault == NoFault
      modifies this`packetToSend, this`out, this`fault, this`shutdown, this`inbox, tcb
      ensures Outcome(stop, View(), poll, bytes) == ReadIteration(old(View()), fired, room)
      ensures !stop ==> fault == NoFault
    {
      hide RevPacket, AfterWindow, AvailableReadBuffer, Flushed;
      stop, poll, bytes := false, Pending, [];
      SendPending();
      if fault != NoFault {
        return true, Panicked, [];
      }
      if tcb.state == Closed {
        shutdown := Finished;
        return true, Ready(0), [];
      }
      if tcb.state == FinWait2(false) {
        poll := Abort(ConnectionAborted);
        return true, poll, [];
      }
      var min := tcb.GetAvailableReadBufferSize();
      tcb.recvWindow := min;
      stop, poll, bytes := IterateAfterWindow(fired, room);
    }

    /** The loop of `poll_read`. */
    method ReadInner(room: nat, clock: seq<bool>) returns (poll: Poll, bytes: seq<byte>)
      requires fault == NoFault
      modifies this`packetToSend, this`out, this`fault, this`shutdown, this`inbox, tcb
      ensures ReadResult(View(), poll, bytes) == StreamSpec.PollRead(old(View()), room, clock)
    {
      hide ReadIteration;
      var rest := clock;
      while true
        invariant fault == NoFault
        invariant StreamSpec.PollRead(View(), room, rest) == StreamSpec.PollRead(old(View()), room, clock)
        decreases |inbox|, 6 - Rank(tcb.state)
      {
        ghost var before := View();
        var fired := rest != [] && rest[0];
        IterationDescends(before, fired, room);
        var stop, p, b := Iterate(fired, room);
        if stop {
          return p, b;
        }
        rest := if rest == [] then [] else rest[1..];
      }
    }

    // --- The polls ---

    /** `poll_read` with room for `room` bytes. */
    method PollRead(room: nat, clock: seq<bool>) returns (poll: Poll, bytes: seq<byte>)
      requires Valid() && fault == NoFault
      modifies this, tcb
      ensures Valid()
      ensures World() == Step(old(World()), Read(room, clock))
      ensures ReadResult(View(), poll, bytes) == StreamSpec.PollRead(old(View()), room, clock)
    {
      hide Inv, StreamSpec.PollRead;
      StepKeeps(World(), Read(room, clock));
      poll, bytes := ReadInner(room, clock);
      delivered := delivered + bytes;
    }

    method PollWrite(buf: seq<byte>) returns (poll: Poll)
      requires Valid() && fault == NoFault
      modifies this, tcb
      ensures Valid()
      ensures World() == Step(old(World()), Write(buf))
      ensures WriteResult(View(), poll) == StreamSpec.PollWrite(old(View()), buf)
    {
      hide Inv, RevPacket, Resend;
      StepKeeps(World(), Write(buf));
      poll := WriteInner(buf);
      sent := sent + if poll.Ready? then Truncate(buf, poll.n) else [];
    }

    method WriteInner(buf: seq<byte>) returns (poll: Poll)
      requires fault == NoFault
      modifies this`out, this`fault, tcb
      ensures WriteResult(View(), poll) == StreamSpec.PollWrite(old(View()), buf)
    {
      hide RevPacket, Resend;
      if tcb.state != Established {
        return Failed(NotConnected);
      }
      var full := tcb.IsSendBufferFull();
      if tcb.sendWindow < tcb.average.avg / 2 || full {
        return Pending;
      }
      if tcb.retransmission.Some? {
        var _ := FlushInner();
        if fault != NoFault {
          return Panicked;
        }
      }
      var p := CreateRevPacket(PSH_ACK, TTL, tcb.seqno, buf);
      var q := tcb.seqno;
      out := out + [p];
      tcb.AddInflightPacket(q, p.payload);
      poll := Ready(|p.payload|);
    }

    method PollFlush() returns (poll: Poll)
      requires Valid() && fault == NoFault
      modifies this, tcb
      ensures Valid()
      ensures World() == Step(old(World()), Flush)
      ensures poll == FlushPoll(old(View()))
    {
      hide Inv, Flushed;
      StepKeeps(World(), Flush);
      poll := FlushInner();
    }

    method PollShutdown(clock: seq<bool>) returns (poll: Poll)
      requires Valid() && fault == NoFault
      modifies this, tcb
      ensures Valid()
      ensures World() == Step(old(World()), Shut(clock))
      ensures poll == StreamSpec.PollShutdown(old(View()), clock).poll
      ensures delivered == old(delivered)
    {
      hide Inv, StreamSpec.PollRead;
      StepKeeps(World(), Shut(clock));
      NothingAfterShutdown(World(), clock);
      if shutdown == Finished {
        assert delivered + [] == delivered;
        return Ready(0);
      }
      if shutdown == NotRequested {
        shutdown := Requested;
      }
      ghost var bytes;
      poll, bytes := ReadInner(1, clock);
      assert delivered + [] == delivered;
    }
  }

  /** `poll_shutdown` reads without delivering. */
  lemma NothingAfterShutdown(w: World, clock: seq<bool>)
    requires Inv(w) && w.s.fault == NoFault
    ensures StreamSpec.PollShutdown(w.s, clock).bytes == []
  {
    hide Sound, StreamSpec.PollRead;
    if w.s.shutdown != Finished {
      var s := w.s.(shutdown := Requested);
      Unseen(w, s);
      NoFalseEnd(w.(s := s), 1, clock);
    }
  }

  lemma {:induction false} FirstAtUnique(l: seq<InflightPacket>, q: u32, i: nat)
    requires i <= |l|
    requires forall j :: 0 <= j < i ==> l[j].seqno != q
    requires i < |l| ==> l[i].seqno == q
    ensures i == FirstAt(l, q)
  {
    if i > 0 {
      assert l[0].seqno != q;
      FirstAtUnique(l[1..], q, i - 1);
    }
  }
}

/** Every step of a stream keeps the invariant and undoes nothing. */
module Preservation {
  import opened Words
  import opened Packets
  import opened TcbSpec
  import opened SendBuffer
  import opened StreamSpec
  import opened Invariants

  // --- The send buffer ---

  lemma BufferAcks(state: TcpState, lastAck: u32, a: u32, iss: u32, sent: seq<byte>, inflight: seq<InflightPacket>)
    requires state == Established && Buffer(state, lastAck, iss, sent, inflight)
    requires iss <= lastAck <= a <= iss + 1 + |sent|
    ensures Buffer(state, a, iss, sent, Retain(Trim(inflight, a), a))
  {
    hide Trim, Retain, Represents;
    if iss + 1 + |sent| < TWO32 {
      var lo := FirstUnacked(lastAck, iss);
      var data := sent[lo - iss - 1..];
      if lo <= a {
        AcknowledgeRepresents(inflight, lo, data, a);
        assert data[a - lo..] == sent[a - iss - 1..];
      } else {
        StaleAcknowledgement(inflight, lo, data, a);
      }
    }
  }

  lemma BufferWrites(lastAck: u32, iss: u32, sent: seq<byte>, inflight: seq<InflightPacket>, q: u32, b: seq<byte>)
    requires Buffer(Established, lastAck, iss, sent, inflight)
    requires q == Mod32(iss + 1 + |sent|)
    ensures Buffer(Established, lastAck, iss, sent + b, inflight + [InflightPacket(q, b)])
  {
    hide Represents;
    if iss + 1 + |sent + b| < TWO32 {
      var lo := FirstUnacked(lastAck, iss);
      AppendRepresents(inflight, lo, sent[lo - iss - 1..], InflightPacket(q, b));
      assert (sent + b)[lo - iss - 1..] == sent[lo - iss - 1..] + b;
    }
  }

  lemma BufferOpens(iss: u32, a: u32)
    requires iss <= a <= iss + 1
    ensures Buffer(Established, a, iss, [], [])
  {
    assert Arranges([], [], FirstUnacked(a, iss), []);
  }

  /** Everything acknowledged: only empty packets can be left. */
  lemma BufferEmpty(lastAck: u32, iss: u32, sent: seq<byte>, inflight: seq<InflightPacket>)
    requires Buffer(Established, lastAck, iss, sent, inflight)
    requires lastAck == iss + 1 + |sent| < TWO32
    ensures forall p :: p in inflight ==> p.payload == []
  {
    forall p | p in inflight ensures p.payload == [] {
      RepresentsInside(inflight, lastAck, sent[|sent|..], p);
    }
  }

  lemma BufferIdle(state: TcpState, lastAck: u32, iss: u32, sent: seq<byte>, inflight: seq<InflightPacket>)
    requires state == FinWait1(true) || state.FinWait2? || state == Closed
    ensures Buffer(state, lastAck, iss, sent, inflight)
  {
  }

  lemma BufferOpening(lastAck: u32, iss: u32, sent: seq<byte>, inflight: seq<InflightPacket>)
    requires Buffer(SynReceived(false), lastAck, iss, sent, inflight) || Buffer(SynReceived(true), lastAck, iss, sent, inflight)
    ensures inflight == [] && Buffer(SynReceived(true), lastAck, iss, sent, inflight)
  {
  }

  lemma BufferCloses(lastAck: u32, iss: u32, sent: seq<byte>, inflight: seq<InflightPacket>)
    requires Buffer(Established, lastAck, iss, sent, inflight)
    requires lastAck == iss + 1 + |sent| < TWO32
    ensures Buffer(FinWait1(false), lastAck, iss, sent, inflight)
  {
    BufferEmpty(lastAck, iss, sent, inflight);
  }

  lemma BufferMoves(lastAck: u32, a: u32, iss: u32, sent: seq<byte>, inflight: seq<InflightPacket>)
    requires Buffer(FinWait1(false), lastAck, iss, sent, inflight)
    ensures Buffer(FinWait1(false), a, iss, sent, inflight)
  {
  }

  // --- Sequence numbers ---

  lemma NumbersFirst(state: TcpState, seqno: u32, lastAck: u32, iss: u32, syns: nat, bytes: nat, fins: nat, max: nat)
    requires Numbers(state, seqno, lastAck, iss, syns, bytes, fins, max)
    ensures iss <= lastAck
  {
  }

  lemma NumbersAck(state: TcpState, seqno: u32, lastAck: u32, a: u32, iss: u32, syns: nat, bytes: nat, fins: nat, max: nat)
    requires Numbers(state, seqno, lastAck, iss, syns, bytes, fins, max) && lastAck <= a <= seqno
    requires state == Established || state == FinWait1(false)
    ensures Numbers(state, seqno, a, iss, syns, bytes, fins, max)
    ensures state == Established ==> seqno == iss + 1 + bytes
  {
  }

  lemma NumbersOpen(seqno: u32, iss: u32, a: u32, syns: nat, bytes: nat, fins: nat, max: nat)
    requires Numbers(SynReceived(true), seqno, iss, iss, syns, bytes, fins, max) && iss <= a <= seqno
    ensures Numbers(Established, seqno, a, iss, syns, bytes, fins, max)
    ensures bytes == 0 && a <= iss + 1
  {
  }

  /** The state moves on without touching the sequence space. */
  lemma NumbersMove(state: TcpState, state': TcpState, seqno: u32, lastAck: u32, iss: u32, syns: nat, bytes: nat, fins: nat, max: nat)
    requires Numbers(state, seqno, lastAck, iss, syns, bytes, fins, max)
    requires || state' == Closed
             || (state == Established && state' == FinWait1(true))
             || (state == FinWait1(false) && state' == FinWait2(true))
             || (state == FinWait2(true) && state' == FinWait2(false) && lastAck <= seqno)
    ensures Numbers(state', seqno, lastAck, iss, syns, bytes, fins, max)
  {
  }

  lemma NumbersSyn(seqno: u32, lastAck: u32, iss: u32, bytes: nat, fins: nat, max: nat)
    requires Numbers(SynReceived(false), seqno, lastAck, iss, 0, bytes, fins, max)
    ensures Numbers(SynReceived(true), WrapAdd(seqno, 1), lastAck, iss, 1, bytes, fins, max)
  {
  }

  lemma NumbersFin(state: TcpState, seqno: u32, lastAck: u32, iss: u32, syns: nat, bytes: nat, max: u16)
    requires Numbers(state, seqno, lastAck, iss, syns, bytes, 0, max)
    ensures state == FinWait1(true) ==> Numbers(FinWait2(true), WrapAdd(seqno, 1), lastAck, iss, syns, bytes, 1, max)
    ensures state == Established && lastAck == seqno ==>
              && Numbers(FinWait1(false), WrapAdd(seqno, 1), lastAck, iss, syns, bytes, 1, max)
              && lastAck == iss + 1 + bytes
  {
  }

  lemma NumbersWrite(seqno: u32, lastAck: u32, iss: u32, syns: nat, bytes: nat, fins: nat, max: u16, n: nat)
    requires Numbers(Established, seqno, lastAck, iss, syns, bytes, fins, max)
    requires WrapSub(seqno, lastAck) < MAX_UNACK && n <= max
    ensures Numbers(Established, WrapAdd(seqno, n), lastAck, iss, syns, bytes + n, fins, max)
    ensures seqno == Mod32(iss + 1 + bytes)
  {
  }

  /** What is known of the counters in each state. */
  lemma NumbersState(state: TcpState, seqno: u32, lastAck: u32, iss: u32, syns: nat, bytes: nat, fins: nat, max: nat)
    requires Numbers(state, seqno, lastAck, iss, syns, bytes, fins, max)
    ensures state == SynReceived(false) ==> syns == 0 && seqno == iss
    ensures state == Established || state == FinWait1(true) ==> seqno == Mod32(iss + 1 + bytes)
    ensures state.SynReceived? ==> lastAck == iss && bytes == 0
    ensures state.SynReceived? || state == Established || state == FinWait1(true) ==> fins == 0
  {
  }

  lemma WireSame(s: StreamState, s': StreamState)
    requires s'.out == s.out && s'.packetToSend == s.packetToSend
    ensures Wire(s') == Wire(s)
  {
  }

  lemma WireQueued(s: StreamState, s': StreamState, p: NetworkPacket)
    requires s.packetToSend == None && s'.out == s.out && s'.packetToSend == Some(p)
    ensures Wire(s') == Wire(s) + [p]
  {
  }

  // --- Packets the stream builds ---

  /** What packets may say they acknowledge. */
  ghost function Limit(w: World): nat {
    |w.delivered| + Bumps(w.s.tcb.ack, w.irs, |w.delivered|)
  }

  /** Packets the stream builds go back to the peer, from the address it dialled. */
  lemma RevPacketAddressed(s: StreamState, flags: Flags, ttl: byte, q: u32, payload: seq<byte>)
    ensures ReverseTupleOf(RevPacket(s, flags, ttl, q, payload)) == SessionKey(s.ends)
  {
  }

  lemma ControlHonest(w: World, flags: Flags, ttl: byte)
    ensures Honest(Control(w.s, flags, ttl), w.s.ends, w.iss, w.irs, w.sent, Limit(w))
  {
    hide Bumps, ReplyHeader, ReverseTupleOf;
    RevPacketAddressed(w.s, flags, ttl, w.s.tcb.seqno, []);
    AckIsLimit(w.s.tcb.ack, w.irs, |w.delivered|);
    assert AcksUpTo(Control(w.s, flags, ttl), Limit(w), w.irs);
  }

  /** A packet without payload can be appended whenever it is not marked PSH. */
  lemma ControlSound(w: World, flags: Flags, ttl: byte)
    requires Sound(w) && !flags.psh
    ensures WireSound(Wire(w.s) + [Control(w.s, flags, ttl)], w.s.ends, w.iss, w.irs, w.sent, Limit(w))
  {
    hide Numbers, Buffer, WireSound, Spoken, Honest, ReplyHeader, Bumps;
    ControlHonest(w, flags, ttl);
    WireAppend(Wire(w.s), Control(w.s, flags, ttl), w.s.ends, w.iss, w.irs, w.sent, Limit(w));
  }

  /** One more packet, neither SYN nor FIN, sent or queued. */
  lemma AppendKeeps(w: World, s: StreamState, p: NetworkPacket)
    requires Turning(w) && s == w.s.(out := s.out, packetToSend := s.packetToSend) && Wire(s) == Wire(w.s) + [p]
    requires Honest(p, w.s.ends, w.iss, w.irs, w.sent, Limit(w)) && !IsSyn(p) && !IsFin(p)
    requires IsData(p) ==> w.s.tcb.state == Established
    ensures Turning(w.(s := s)) && Advances(w, w.(s := s))
  {
    hide Numbers, Buffer, WireSound, Spoken, NonEmpty, Bumps, Honest, Acknowledging, Wire;
    var t := w.s.tcb;
    var wire := Wire(w.s);
    NumbersState(t.state, t.seqno, t.lastAck, w.iss, Syns(wire), |w.sent|, Fins(wire), MaxPayload(w.s));
    Counts(wire, p);
    WireAppend(wire, p, w.s.ends, w.iss, w.irs, w.sent, Limit(w));
    SpokenAppend(t.state, t.state, wire, p, t.ack, t.ack, w.iss, w.sent);
  }

  // --- Updates the invariant does not see ---

  lemma Unseen(w: World, s: StreamState)
    requires Turning(w)
    requires (s.ends, s.mtu, s.packetToSend, s.out, s.fault) == (w.s.ends, w.s.mtu, w.s.packetToSend, w.s.out, w.s.fault)
    requires s.tcb == w.s.tcb.(recvWindow := s.tcb.recvWindow, sendWindow := s.tcb.sendWindow, average := s.tcb.average)
    requires w.s.shutdown != NotRequested ==> s.shutdown != NotRequested
    ensures Turning(w.(s := s)) && Advances(w, w.(s := s))
  {
    hide Numbers, Buffer, WireSound, Spoken, Acknowledging, NonEmpty, Bumps;
  }

  lemma SendQueuedKeeps(w: World)
    requires Turning(w)
    ensures Midway(w.(s := SendQueued(w.s))) && Advances(w, w.(s := SendQueued(w.s)))
  {
    hide Numbers, Buffer, WireSound, Spoken, Acknowledging, NonEmpty, Bumps;
    assert Wire(SendQueued(w.s)) == Wire(w.s);
  }

  lemma TakeKeeps(w: World)
    requires Midway(w)
    ensures var w' := w.(s := w.s.(tcb := TakeUnordered(w.s.tcb)));
            Midway(w') && Advances(w, w')
  {
    hide Numbers, Buffer, WireSound, Spoken, Acknowledging, Bumps;
  }

  // --- Leaves of an iteration ---

  lemma TtlIs(s: StreamState, flags: Flags, ttl: byte)
    ensures Ttl(Control(s, flags, ttl)) == ttl
  {
  }

  /** The last packet on the wire says that the stream is over. */
  lemma EndsWith(s: StreamState, wire: seq<NetworkPacket>, p: NetworkPacket)
    requires Wire(s) == wire + [p] && Farewell(p)
    ensures Ended(Wire(s))
  {
    assert (wire + [p])[|wire|] == p;
  }

  lemma AbortKeeps(w: World, e: ErrorKind)
    requires Midway(w)
    ensures var w' := AfterIteration(w, Abort(w.s, e));
            Inv(w') && Advances(w, w')
  {
    hide Sound, Advances, ReplyHeader, Ended;
    var p := Control(w.s, NON, DROP_TTL);
    var w1 := w.(s := Queue(w.s, p));
    SendControlKeeps(w, NON, DROP_TTL);
    TtlIs(w.s, NON, DROP_TTL);
    EndsWith(w1.s, Wire(w.s), p);
    CloseKeeps(w1);
    assert w.delivered + [] == w.delivered;
    AdvancesTransitive(w, w1, w1.(s := SetState(w1.s, Closed).(shutdown := Finished)));
  }

  lemma SendControlKeeps(w: World, flags: Flags, ttl: byte)
    requires Midway(w) && !flags.psh && !flags.syn && !flags.fin
    ensures var w' := w.(s := Send(w.s, Control(w.s, flags, ttl)));
            Midway(w') && Advances(w, w')
    ensures var w' := w.(s := Queue(w.s, Control(w.s, flags, ttl)));
            Turning(w') && Advances(w, w')
  {
    hide Sound, Honest, Advances, ReplyHeader;
    var p := Control(w.s, flags, ttl);
    ControlHonest(w, flags, ttl);
    AppendKeeps(w, Send(w.s, p), p);
    AppendKeeps(w, Queue(w.s, p), p);
  }

  lemma CloseKeeps(w: World)
    requires Turning(w) && Ended(Wire(w.s))
    ensures var w' := w.(s := SetState(w.s, Closed).(shutdown := Finished));
            Inv(w') && Advances(w, w')
  {
    hide Numbers, Buffer, WireSound, Spoken, NonEmpty, Bumps, Wire, Ended;
    var t := w.s.tcb;
    var wire := Wire(w.s);
    NumbersMove(t.state, Closed, t.seqno, t.lastAck, w.iss, Syns(wire), |w.sent|, Fins(wire), MaxPayload(w.s));
    BufferIdle(Closed, t.lastAck, w.iss, w.sent, t.inflight);
    SpokenMove(t.state, Closed, wire, t.ack, t.ack, w.iss, w.sent);
    WireSame(w.s, SetState(w.s, Closed).(shutdown := Finished));
  }

  lemma TimeOutKeeps(w: World)
    requires Midway(w)
    ensures var w' := w.(s := SetState(Send(w.s, Control(w.s, RST_ACK, TTL)), Closed).(shutdown := Finished));
            Inv(w') && Advances(w, w')
  {
    hide Sound, Advances, ReplyHeader, Ended;
    var p := Control(w.s, RST_ACK, TTL);
    var w1 := w.(s := Send(w.s, p));
    SendControlKeeps(w, RST_ACK, TTL);
    WireSent(w.s, w1.s, p);
    EndsWith(w1.s, Wire(w.s), p);
    CloseKeeps(w1);
    AdvancesTransitive(w, w1, w1.(s := SetState(w1.s, Closed).(shutdown := Finished)));
  }

  lemma SynKeeps(w: World)
    requires Midway(w) && w.s.tcb.state == SynReceived(false)
    ensures var w' := w.(s := SendSynAck(w.s));
            Turning(w') && Advances(w, w')
  {
    hide Numbers, Buffer, WireSound, Spoken, NonEmpty, Bumps, Wire, ReplyHeader;
    var t := w.s.tcb;
    var wire := Wire(w.s);
    var p := Control(w.s, SYN_ACK, TTL);
    NumbersState(t.state, t.seqno, t.lastAck, w.iss, Syns(wire), |w.sent|, Fins(wire), MaxPayload(w.s));
    NumbersSyn(t.seqno, t.lastAck, w.iss, |w.sent|, Fins(wire), MaxPayload(w.s));
    BufferOpening(t.lastAck, w.iss, w.sent, t.inflight);
    ControlSound(w, SYN_ACK, TTL);
    TtlIs(w.s, SYN_ACK, TTL);
    SpokenAppend(t.state, SynReceived(true), wire, p, t.ack, t.ack, w.iss, w.sent);
    Counts(wire, p);
    WireQueued(w.s, SendSynAck(w.s), p);
  }

  /** A payload handed to the reader is acknowledged at once. */
  lemma HandKeeps(w: World, b: seq<byte>)
    requires Midway(w) && w.s.shutdown == NotRequested
    ensures var w1 := w.(s := w.s.(tcb := AddAck(w.s.tcb, Len32(b))), delivered := w.delivered + b);
            var w' := w1.(s := Send(w1.s, Control(w1.s, ACK, TTL)));
            Inv(w') && Advances(w, w')
  {
    hide Numbers, Buffer, WireSound, Spoken, NonEmpty, Bumps, Wire, ReplyHeader, Honest;
    var t := w.s.tcb;
    var wire := Wire(w.s);
    var w1 := w.(s := w.s.(tcb := AddAck(t, Len32(b))), delivered := w.delivered + b);
    var p := Control(w1.s, ACK, TTL);
    BumpsDeliver(t.ack, w.irs, |w.delivered|, b);
    WireGrows(wire, w.s.ends, w.iss, w.irs, w.sent, Limit(w), [], Limit(w1));
    assert w.sent + [] == w.sent;
    ControlHonest(w1, ACK, TTL);
    WireAppend(wire, p, w.s.ends, w.iss, w.irs, w.sent, Limit(w1));
    TtlIs(w1.s, ACK, TTL);
    SpokenAppend(t.state, t.state, wire, p, t.ack, w1.s.tcb.ack, w.iss, w.sent);
    Counts(wire, p);
    WireSent(w.s, Send(w1.s, p), p);
  }

  /** A payload that does not fit stops the stream with only its receive side changed. */
  lemma OverflowKeeps(w: World, b: seq<byte>)
    requires Midway(w)
    ensures var w' := w.(s := w.s.(tcb := AddAck(w.s.tcb, Len32(b)), fault := NoRoom));
            Inv(w') && Advances(w, w')
  {
    hide Sound;
    AdvancesReflexive(w);
    FaultAdvances(w, w, NoRoom);
    var w' := w.(s := w.s.(tcb := AddAck(w.s.tcb, Len32(b)), fault := NoRoom));
    assert w.(s := w.s.(fault := NoRoom)) == Rewound(w', w.s.tcb.ack, w.s.tcb.unordered);
  }

  lemma DeliverKeeps(w: World, b: seq<byte>, room: nat)
    requires Midway(w) && w.s.shutdown == NotRequested
    ensures var w' := AfterIteration(w, Deliver(w.s, b, room));
            Inv(w') && Advances(w, w')
  {
    hide Sound, Inv, Advances, RevPacket;
    assert w.delivered + [] == w.delivered;
    HandKeeps(w, b);
    OverflowKeeps(w, b);
  }

  lemma AnswerFinKeeps(w: World)
    requires Midway(w) && w.s.tcb.state == FinWait1(true)
    ensures var w' := w.(s := AnswerFin(w.s));
            Turning(w') && Advances(w, w')
  {
    hide Numbers, Buffer, WireSound, Spoken, NonEmpty, Bumps, Wire, ReplyHeader;
    var t := w.s.tcb;
    var wire := Wire(w.s);
    var p := Control(w.s, FIN_ACK, TTL);
    NumbersState(t.state, t.seqno, t.lastAck, w.iss, Syns(wire), |w.sent|, Fins(wire), MaxPayload(w.s));
    NumbersFin(t.state, t.seqno, t.lastAck, w.iss, Syns(wire), |w.sent|, MaxPayload(w.s));
    BufferIdle(FinWait2(true), t.lastAck, w.iss, w.sent, t.inflight);
    ControlSound(w, FIN_ACK, TTL);
    Counts(wire, p);
    BumpsOne(t.ack, w.irs, |w.delivered|);
    WireGrows(wire + [p], w.s.ends, w.iss, w.irs, w.sent, Limit(w), [], Limit(w) + 1);
    assert w.sent + [] == w.sent;
    SpokenAppend(t.state, FinWait2(true), wire, p, t.ack, AnswerFin(w.s).tcb.ack, w.iss, w.sent);
    WireQueued(w.s, AnswerFin(w.s), p);
  }

  lemma SendFinKeeps(w: World)
    requires Midway(w) && w.s.tcb.state == Established && w.s.tcb.lastAck == w.s.tcb.seqno
    ensures var w' := w.(s := SendFin(w.s));
            Turning(w') && Advances(w, w')
  {
    hide Numbers, Buffer, WireSound, Spoken, NonEmpty, Bumps, Wire, ReplyHeader;
    var t := w.s.tcb;
    var wire := Wire(w.s);
    var p := Control(w.s, FIN_ACK, TTL);
    NumbersState(t.state, t.seqno, t.lastAck, w.iss, Syns(wire), |w.sent|, Fins(wire), MaxPayload(w.s));
    NumbersFin(t.state, t.seqno, t.lastAck, w.iss, Syns(wire), |w.sent|, MaxPayload(w.s));
    BufferCloses(t.lastAck, w.iss, w.sent, t.inflight);
    ControlSound(w, FIN_ACK, TTL);
    SpokenAppend(t.state, FinWait1(false), wire, p, t.ack, t.ack, w.iss, w.sent);
    Counts(wire, p);
    WireQueued(w.s, SendFin(w.s), p);
  }

  // --- Acknowledgements, windows and stored segments ---

  lemma AckKeeps(w: World, a: u32)
    requires Midway(w) && w.s.tcb.lastAck <= a <= w.s.tcb.seqno
    requires w.s.tcb.state == Established || w.s.tcb.state == FinWait1(false)
    ensures var w' := w.(s := w.s.(tcb := ChangeLastAck(w.s.tcb, a)));
            Midway(w') && Advances(w, w')
  {
    hide Numbers, Buffer, WireSound, Spoken, NonEmpty, Bumps, Wire, Trim, Retain;
    var t := w.s.tcb;
    var wire := Wire(w.s);
    NumbersAck(t.state, t.seqno, t.lastAck, a, w.iss, Syns(wire), |w.sent|, Fins(wire), MaxPayload(w.s));
    if t.state == Established {
      NumbersFirst(t.state, t.seqno, t.lastAck, w.iss, Syns(wire), |w.sent|, Fins(wire), MaxPayload(w.s));
      BufferAcks(Established, t.lastAck, a, w.iss, w.sent, t.inflight);
    } else {
      BufferMoves(t.lastAck, a, w.iss, w.sent, t.inflight);
    }
    WireSame(w.s, w.s.(tcb := ChangeLastAck(t, a)));
  }

  lemma OpenKeeps(w: World, a: u32)
    requires Midway(w) && w.s.tcb.state == SynReceived(true) && w.s.tcb.lastAck <= a <= w.s.tcb.seqno
    ensures var w' := w.(s := w.s.(tcb := w.s.tcb.(lastAck := a, state := Established)));
            Midway(w') && Advances(w, w')
  {
    hide Numbers, Buffer, WireSound, Spoken, NonEmpty, Bumps, Wire;
    var t := w.s.tcb;
    var wire := Wire(w.s);
    NumbersState(t.state, t.seqno, t.lastAck, w.iss, Syns(wire), |w.sent|, Fins(wire), MaxPayload(w.s));
    NumbersOpen(t.seqno, w.iss, a, Syns(wire), |w.sent|, Fins(wire), MaxPayload(w.s));
    BufferOpening(t.lastAck, w.iss, w.sent, t.inflight);
    BufferOpens(w.iss, a);
    SpokenMove(t.state, Established, wire, t.ack, t.ack, w.iss, w.sent);
    WireSame(w.s, w.s.(tcb := t.(lastAck := a, state := Established)));
  }

  lemma HandshakeKeeps(w: World, h: TcpHeader)
    requires Midway(w) && w.s.tcb.state == SynReceived(true) && w.s.tcb.lastAck <= h.ackno <= w.s.tcb.seqno
    ensures var w' := w.(s := CompleteHandshake(w.s, h));
            Midway(w') && Advances(w, w')
  {
    hide Sound, Advances, Observe, Trim, Retain;
    OpenKeeps(w, h.ackno);
    var w1 := w.(s := w.s.(tcb := w.s.tcb.(lastAck := h.ackno, state := Established)));
    Unseen(w1, CompleteHandshake(w.s, h));
    AdvancesTransitive(w, w1, w.(s := CompleteHandshake(w.s, h)));
  }

  lemma StoreKeeps(w: World, q: u32, payload: seq<byte>)
    requires Midway(w) && payload != []
    ensures var w' := w.(s := w.s.(tcb := AddUnordered(w.s.tcb, q, payload)));
            Midway(w') && Advances(w, w')
  {
    hide Numbers, Buffer, WireSound, Spoken, Bumps;
  }

  lemma PeerFinKeeps(w: World)
    requires Midway(w) && w.s.tcb.state == Established
    ensures var w' := w.(s := PeerFin(w.s));
            Turning(w') && Advances(w, w')
  {
    hide Numbers, Buffer, WireSound, Spoken, NonEmpty, Bumps, Wire, ReplyHeader, Honest;
    var t := w.s.tcb;
    var wire := Wire(w.s);
    var s1 := w.s.(tcb := AddAck(t, 1));
    var p := Control(s1, ACK, TTL);
    NumbersState(t.state, t.seqno, t.lastAck, w.iss, Syns(wire), |w.sent|, Fins(wire), MaxPayload(w.s));
    NumbersMove(t.state, FinWait1(true), t.seqno, t.lastAck, w.iss, Syns(wire), |w.sent|, Fins(wire), MaxPayload(w.s));
    BufferIdle(FinWait1(true), t.lastAck, w.iss, w.sent, t.inflight);
    BumpsOne(t.ack, w.irs, |w.delivered|);
    WireGrows(wire, w.s.ends, w.iss, w.irs, w.sent, Limit(w), [], Limit(w) + 1);
    assert w.sent + [] == w.sent;
    ControlHonest(w.(s := s1), ACK, TTL);
    WireAppend(wire, p, w.s.ends, w.iss, w.irs, w.sent, Limit(w) + 1);
    TtlIs(s1, ACK, TTL);
    SpokenAppend(t.state, FinWait1(true), wire, p, t.ack, s1.tcb.ack, w.iss, w.sent);
    Counts(wire, p);
    WireQueued(w.s, PeerFin(w.s), p);
  }

  /** The close handshake counts the peer's FIN, seen or presumed, in `ack`. */
  lemma BumpKeeps(w: World, state: TcpState)
    requires Midway(w) && w.s.tcb.state == FinWait1(false) && state == FinWait2(true)
    ensures var w' := w.(s := SetState(w.s.(tcb := AddAck(w.s.tcb, 1)), state));
            Midway(w') && Advances(w, w')
  {
    hide Numbers, Buffer, WireSound, Spoken, NonEmpty, Bumps, Wire;
    var t := w.s.tcb;
    var wire := Wire(w.s);
    NumbersMove(t.state, state, t.seqno, t.lastAck, w.iss, Syns(wire), |w.sent|, Fins(wire), MaxPayload(w.s));
    BufferIdle(state, t.lastAck, w.iss, w.sent, t.inflight);
    BumpsOne(t.ack, w.irs, |w.delivered|);
    WireGrows(wire, w.s.ends, w.iss, w.irs, w.sent, Limit(w), [], Limit(w) + 1);
    assert w.sent + [] == w.sent;
    SpokenMove(t.state, state, wire, t.ack, AddAck(t, 1).ack, w.iss, w.sent);
    WireSame(w.s, SetState(w.s.(tcb := AddAck(t, 1)), state));
  }

  lemma FinWait1Keeps(w: World, h: TcpHeader)
    requires Midway(w) && w.s.tcb.state == FinWait1(false) && w.s.tcb.lastAck <= h.ackno <= w.s.tcb.seqno
    ensures var w' := w.(s := InFinWait1(w.s, h));
            Turning(w') && Advances(w, w')
  {
    hide Sound, Advances, ReplyHeader, Observe, Trim, Retain;
    AdvancesReflexive(w);
    if h.flags == ACK {
      AckKeeps(w, h.ackno);
      var w1 := w.(s := w.s.(tcb := ChangeLastAck(w.s.tcb, h.ackno)));
      BumpKeeps(w1, FinWait2(true));
      AdvancesTransitive(w, w1, w.(s := InFinWait1(w.s, h)));
    } else if h.flags == FIN_ACK {
      BumpKeeps(w, FinWait2(true));
      var w1 := w.(s := SetState(w.s.(tcb := AddAck(w.s.tcb, 1)), FinWait2(true)));
      SendControlKeeps(w1, ACK, TTL);
      var w2 := w1.(s := Queue(w1.s, Control(w1.s, ACK, TTL)));
      AdvancesTransitive(w, w1, w2);
      Unseen(w2, InFinWait1(w.s, h));
      AdvancesTransitive(w, w2, w.(s := InFinWait1(w.s, h)));
    }
  }

  lemma AdvancesReflexive(w: World)
    ensures Advances(w, w)
  {
  }

  lemma LastAckKeeps(w: World, state: TcpState)
    requires Midway(w) && w.s.tcb.state == FinWait2(true) && state == FinWait2(false) && w.s.tcb.lastAck <= w.s.tcb.seqno
    ensures var w' := w.(s := SetState(w.s, state));
            Midway(w') && Advances(w, w')
  {
    hide Numbers, Buffer, WireSound, Spoken, NonEmpty, Bumps, Wire;
    var t := w.s.tcb;
    var wire := Wire(w.s);
    NumbersMove(t.state, state, t.seqno, t.lastAck, w.iss, Syns(wire), |w.sent|, Fins(wire), MaxPayload(w.s));
    BufferIdle(state, t.lastAck, w.iss, w.sent, t.inflight);
    SpokenMove(t.state, state, wire, t.ack, t.ack, w.iss, w.sent);
    WireSame(w.s, SetState(w.s, state));
  }

  lemma FinWait2Keeps(w: World, h: TcpHeader)
    requires Midway(w) && w.s.tcb.state == FinWait2(true) && w.s.tcb.lastAck <= w.s.tcb.seqno
    ensures var w' := w.(s := InFinWait2(w.s, h));
            Turning(w') && Advances(w, w')
  {
    hide Sound, Advances, ReplyHeader;
    AdvancesReflexive(w);
    LastAckKeeps(w, FinWait2(false));
    var w1 := w.(s := SetState(w.s, FinWait2(false)));
    SendControlKeeps(w1, ACK, TTL);
    AdvancesTransitive(w, w1, w1.(s := Queue(w1.s, Control(w1.s, ACK, TTL))));
  }

  // --- Retransmission ---

  /** While the window is not wrapped, the in-flight list is the unacknowledged suffix of `sent`. */
  lemma BufferHolds(w: World)
    requires Sound(w) && w.s.tcb.state == Established && w.s.tcb.lastAck <= w.s.tcb.seqno
    ensures var una := Max(w.s.tcb.lastAck, w.iss + 1);
            && una <= w.s.tcb.seqno == w.iss + 1 + |w.sent|
            && Represents(w.s.tcb.inflight, una, w.sent[una - w.iss - 1..])
  {
    hide Numbers, Buffer, NonEmpty, Bumps, Spoken, WireSound, Represents;
    var t := w.s.tcb;
    var wire := Wire(w.s);
    NumbersAck(t.state, t.seqno, t.lastAck, t.lastAck, w.iss, Syns(wire), |w.sent|, Fins(wire), MaxPayload(w.s));
    BufferHeld(t.lastAck, w.iss, w.sent, t.inflight);
  }

  lemma BufferHeld(lastAck: u32, iss: u32, sent: seq<byte>, inflight: seq<InflightPacket>)
    requires Buffer(Established, lastAck, iss, sent, inflight) && iss + 1 + |sent| < TWO32
    ensures var una := Max(lastAck, iss + 1);
            una <= iss + 1 + |sent| && Represents(inflight, una, sent[una - iss - 1..])
  {
  }

  /** While something is unacknowledged, a packet starts at `lastAck` exactly when the SYN is acknowledged. */
  lemma LookupSucceedsIff(w: World)
    requires Sound(w) && w.s.tcb.state == Established && w.s.tcb.lastAck < w.s.tcb.seqno
    ensures FirstAt(w.s.tcb.inflight, w.s.tcb.lastAck) < |w.s.tcb.inflight| <==> w.s.tcb.lastAck != w.iss
  {
    hide Sound, Represents, PieceOf;
    BufferHolds(w);
    var t := w.s.tcb;
    var lo := Max(t.lastAck, w.iss + 1);
    var data := w.sent[lo - w.iss - 1..];
    if t.lastAck == w.iss {
      forall p | p in t.inflight ensures p.seqno != w.iss {
        RepresentsInside(t.inflight, lo, data, p);
        PieceStart(p, lo, data);
      }
    } else {
      FirstBeforeLast(w);
      RepresentsHead(t.inflight, lo, data);
    }
  }

  lemma FirstBeforeLast(w: World)
    requires Sound(w)
    ensures w.iss <= w.s.tcb.lastAck
  {
    hide Buffer, WireSound, Spoken, NonEmpty, Bumps;
  }

  /** A piece of a piece of `sent`. */
  lemma ResentPiece(lo: int, iss: u32, sent: seq<byte>, p: InflightPacket, kept: seq<byte>)
    requires 0 <= lo - iss - 1 <= |sent| && PieceOf(p, lo, sent[lo - iss - 1..]) && kept <= p.payload
    ensures var off := p.seqno - iss - 1;
            off + |kept| <= |sent| && kept == sent[off..off + |kept|]
  {
    var off := p.seqno - iss - 1;
    assert sent[lo - iss - 1..][p.seqno - lo..p.seqno - lo + |p.payload|] == sent[off..off + |p.payload|];
  }

  /** A resent packet, cut to the current limit, still carries the bytes its sequence number says. */
  lemma ResentIsHonest(w: World, p: InflightPacket)
    requires Sound(w) && w.s.tcb.state == Established && w.s.tcb.lastAck < w.s.tcb.seqno
    requires p in w.s.tcb.inflight
    ensures Honest(RevPacket(w.s, PSH_ACK, TTL, p.seqno, p.payload), w.s.ends, w.iss, w.irs, w.sent, Limit(w))
  {
    hide Sound, Represents, Bumps, ReplyHeader, PieceOf, ReverseTupleOf;
    BufferHolds(w);
    var lo := Max(w.s.tcb.lastAck, w.iss + 1);
    var resent := RevPacket(w.s, PSH_ACK, TTL, p.seqno, p.payload);
    RepresentsInside(w.s.tcb.inflight, lo, w.sent[lo - w.iss - 1..], p);
    PieceStart(p, lo, w.sent[lo - w.iss - 1..]);
    ResentPiece(lo, w.iss, w.sent, p, resent.payload);
    assert SentAt(resent, p.seqno - w.iss - 1, w.iss, w.sent);
    RevPacketAddressed(w.s, PSH_ACK, TTL, p.seqno, p.payload);
    AckIsLimit(w.s.tcb.ack, w.irs, |w.delivered|);
    assert AcksUpTo(resent, Limit(w), w.irs);
  }

  lemma PieceStart(p: InflightPacket, lo: int, data: seq<byte>)
    requires PieceOf(p, lo, data)
    ensures lo <= p.seqno
  {
  }

  lemma ResendKeeps(w: World)
    requires Midway(w) && w.s.tcb.state == Established && w.s.tcb.lastAck < w.s.tcb.seqno
    requires w.s.tcb.lastAck != w.iss
    ensures var w' := w.(s := Resend(w.s, w.s.tcb.lastAck));
            Midway(w') && Advances(w, w')
  {
    hide Sound, Honest, Advances, ReplyHeader;
    LookupSucceedsIff(w);
    var p := w.s.tcb.inflight[FirstAt(w.s.tcb.inflight, w.s.tcb.lastAck)];
    ResentIsHonest(w, p);
    AppendKeeps(w, Resend(w.s, w.s.tcb.lastAck), RevPacket(w.s, PSH_ACK, TTL, p.seqno, p.payload));
  }

  /** The lookup fails when the handshake was completed without acknowledging the SYN, and only then. */
  lemma RetransmitKeeps(w: World, h: TcpHeader)
    requires Midway(w) && w.s.tcb.state == Established && CheckPktType(w.s.tcb, h, []) == RetransmissionRequest
    ensures var it := Retransmit(w.s, h);
            var w' := w.(s := it.s);
            && Advances(w, w')
            && it == (if w.s.tcb.lastAck == w.iss then Stop(it.s, Panicked, []) else Again(it.s))
            && if it.Stop? then Inv(w') && it.s.fault == LookupFailed else Midway(w')
  {
    hide Sound, Advances, Observe, RevPacket;
    var s1 := w.s.(tcb := ChangeSendWindow(w.s.tcb, h.window));
    var w1 := w.(s := s1);
    Unseen(w, s1);
    assert Flushed(s1.(tcb := s1.tcb.(retransmission := Some(h.ackno)))) == Resend(s1, h.ackno) by {
      Retaken(w, s1);
    }
    LookupSucceedsIff(w1);
    if w.s.tcb.lastAck != w.iss {
      ResendKeeps(w1);
      AdvancesTransitive(w, w1, w1.(s := Resend(s1, h.ackno)));
    } else {
      FaultAdvances(w, w1, LookupFailed);
    }
  }

  /** Setting the request and taking it again leaves the control block as it was. */
  lemma Retaken(w: World, s: StreamState)
    requires Sound(w) && s.tcb.retransmission == w.s.tcb.retransmission
    ensures s.tcb.(retransmission := None) == s.tcb
  {
    hide Numbers, Buffer, WireSound, Spoken, NonEmpty, Bumps;
  }

  lemma FaultAdvances(u: World, w: World, fault: Fault)
    requires Advances(u, w) && Sound(w)
    ensures Advances(u, w.(s := w.s.(fault := fault))) && Sound(w.(s := w.s.(fault := fault)))
  {
    hide Numbers, Buffer, WireSound, Spoken, NonEmpty, Bumps;
  }

  // --- An iteration ---

  /** What an iteration leaves behind: ready to go round again, or ready for the next poll. */
  ghost predicate Keeps(w: World, it: Iteration) {
    var w' := AfterIteration(w, it);
    && Advances(w, w')
    && (if it.Again? then Turning(w') else Inv(w'))
  }

  lemma KeepsAgain(w: World, s: StreamState)
    requires Turning(w.(s := s)) && Advances(w, w.(s := s))
    ensures Keeps(w, Again(s))
  {
    assert w.delivered + [] == w.delivered;
  }

  lemma KeepsAfter(w: World, s: StreamState, it: Iteration)
    requires Advances(w, w.(s := s)) && Keeps(w.(s := s), it)
    ensures Keeps(w, it)
  {
    hide Turning, Inv, Advances;
    AdvancesTransitive(w, w.(s := s), AfterIteration(w, it));
  }

  /** Acknowledgement and window of an accepted segment. */
  lemma AckAndWindowKeeps(w: World, h: TcpHeader)
    requires Midway(w) && w.s.tcb.state == Established && w.s.tcb.lastAck <= h.ackno <= w.s.tcb.seqno
    ensures var w' := w.(s := w.s.(tcb := ChangeSendWindow(ChangeLastAck(w.s.tcb, h.ackno), h.window)));
            Midway(w') && Advances(w, w')
  {
    hide Sound, Advances, Observe, Trim, Retain;
    AckKeeps(w, h.ackno);
    var w1 := w.(s := w.s.(tcb := ChangeLastAck(w.s.tcb, h.ackno)));
    var w2 := w1.(s := w1.s.(tcb := ChangeSendWindow(w1.s.tcb, h.window)));
    Unseen(w1, w2.s);
    AdvancesTransitive(w, w1, w2);
  }

  /** Acknowledgement, payload and window of an accepted segment; the order of the last two does not matter. */
  lemma NewPacketKeeps(w: World, h: TcpHeader, payload: seq<byte>)
    requires Midway(w) && w.s.tcb.state == Established && w.s.tcb.lastAck <= h.ackno <= w.s.tcb.seqno && payload != []
    ensures var w' := w.(s := w.s.(tcb := ChangeSendWindow(AddUnordered(ChangeLastAck(w.s.tcb, h.ackno), h.seqno, payload), h.window)));
            Midway(w') && Advances(w, w')
    ensures ChangeSendWindow(AddUnordered(ChangeLastAck(w.s.tcb, h.ackno), h.seqno, payload), h.window) ==
            AddUnordered(ChangeSendWindow(ChangeLastAck(w.s.tcb, h.ackno), h.window), h.seqno, payload)
  {
    hide Sound, Advances, Observe, Trim, Retain;
    AckAndWindowKeeps(w, h);
    var w1 := w.(s := w.s.(tcb := ChangeSendWindow(ChangeLastAck(w.s.tcb, h.ackno), h.window)));
    var w2 := w1.(s := w1.s.(tcb := AddUnordered(w1.s.tcb, h.seqno, payload)));
    StoreKeeps(w1, h.seqno, payload);
    AdvancesTransitive(w, w1, w2);
  }

  lemma KeepAliveKeeps(w: World, h: TcpHeader)
    requires Midway(w) && w.s.tcb.state == Established && w.s.tcb.lastAck <= h.ackno <= w.s.tcb.seqno
    ensures var w' := w.(s := AnswerKeepAlive(w.s, h));
            Turning(w') && Advances(w, w')
  {
    hide Sound, Advances, ChangeLastAck, ChangeSendWindow, Control;
    AckAndWindowKeeps(w, h);
    var w1 := w.(s := w.s.(tcb := ChangeSendWindow(ChangeLastAck(w.s.tcb, h.ackno), h.window)));
    SendControlKeeps(w1, ACK, TTL);
    AdvancesTransitive(w, w1, w.(s := AnswerKeepAlive(w.s, h)));
  }

  lemma AckSegmentKeeps(w: World, h: TcpHeader, payload: seq<byte>)
    requires Midway(w) && w.s.tcb.state == Established && CheckPktType(w.s.tcb, h, payload) != Invalid && h.flags == ACK
    ensures Keeps(w, InEstablished(w.s, h, payload))
  {
    AcceptedIffPlainlyBetween(w.s.tcb, h, payload);
    hide Sound, Advances, Keeps, AnswerKeepAlive, Retransmit, ChangeLastAck, Observe;
    match CheckPktType(w.s.tcb, h, payload)
    case WindowUpdate =>
      Unseen(w, w.s.(tcb := ChangeSendWindow(w.s.tcb, h.window)));
      KeepsAgain(w, w.s.(tcb := ChangeSendWindow(w.s.tcb, h.window)));
    case KeepAlive =>
      KeepAliveKeeps(w, h);
      KeepsAgain(w, AnswerKeepAlive(w.s, h));
    case RetransmissionRequest =>
      assert payload == [];
      RetransmitKeeps(w, h);
      KeepsRetransmit(w, h);
    case NewPacket =>
      NewPacketKeeps(w, h, payload);
      KeepsAgain(w, InEstablished(w.s, h, payload).s);
    case Ack =>
      AckAndWindowKeeps(w, h);
      KeepsAgain(w, InEstablished(w.s, h, payload).s);
  }

  lemma KeepsRetransmit(w: World, h: TcpHeader)
    requires var it := Retransmit(w.s, h);
             var w' := w.(s := it.s);
             Advances(w, w') && if it.Stop? then it.bytes == [] && Inv(w') else Midway(w')
    ensures Keeps(w, Retransmit(w.s, h))
  {
    hide Sound, Advances, Retransmit;
    assert w.delivered + [] == w.delivered;
  }

  lemma EstablishedKeeps(w: World, h: TcpHeader, payload: seq<byte>)
    requires Midway(w) && w.s.tcb.state == Established && CheckPktType(w.s.tcb, h, payload) != Invalid
    ensures Keeps(w, InEstablished(w.s, h, payload))
  {
    AcceptedIffPlainlyBetween(w.s.tcb, h, payload);
    hide Sound, Advances, Keeps, PeerFin, ChangeLastAck, Observe, AnswerKeepAlive, Retransmit, CheckPktType;
    if h.flags == ACK {
      AckSegmentKeeps(w, h, payload);
    } else if h.flags == FIN_ACK {
      PeerFinKeeps(w);
      KeepsAgain(w, PeerFin(w.s));
    } else if h.flags == PSH_ACK && CheckPktType(w.s.tcb, h, payload) == NewPacket {
      AckKeeps(w, h.ackno);
      if payload != [] {
        NewPacketKeeps(w, h, payload);
      }
      KeepsAgain(w, InEstablished(w.s, h, payload).s);
    } else {
      AdvancesReflexive(w);
      KeepsAgain(w, w.s);
    }
  }

  lemma ProcessKeeps(w: World, p: NetworkPacket)
    requires Midway(w)
    ensures Keeps(w, Process(w.s, p))
  {
    hide Sound, Advances, CheckPktType, InEstablished, InFinWait1, InFinWait2, CompleteHandshake, Abort;
    AdvancesReflexive(w);
    assert w.delivered + [] == w.delivered;
    if !p.transport.Tcp? {
      FaultAdvances(w, w, WrongProtocol);
    } else {
      var h := p.transport.tcp;
      AcceptedIffPlainlyBetween(w.s.tcb, h, p.payload);
      AbortKeeps(w, ConnectionReset);
      AbortStops(w.s, ConnectionReset);
      if CheckPktType(w.s.tcb, h, p.payload) != Invalid {
        match w.s.tcb.state
        case SynReceived(true) => HandshakeKeeps(w, h);
        case Established => EstablishedKeeps(w, h, p.payload);
        case FinWait1(false) => FinWait1Keeps(w, h);
        case FinWait2(true) => FinWait2Keeps(w, h);
        case _ =>
      }
    }
  }

  lemma ReceiveKeeps(w: World)
    requires Midway(w)
    ensures Keeps(w, Receive(w.s))
  {
    hide Sound, Advances, Process;
    AdvancesReflexive(w);
    assert w.delivered + [] == w.delivered;
    if w.s.inbox != [] {
      var s := w.s.(inbox := w.s.inbox[1..]);
      Unseen(w, s);
      ProcessKeeps(w.(s := s), w.s.inbox[0]);
      KeepsAfter(w, s, Process(s, w.s.inbox[0]));
    }
  }

  lemma DeliverOrReceiveKeeps(w: World, room: nat)
    requires Midway(w)
    ensures Keeps(w, DeliverOrReceive(w.s, room))
  {
    hide Sound, Advances, Deliver, AnswerFin, SendFin, Receive;
    var s := w.s.(tcb := TakeUnordered(w.s.tcb));
    var w1 := w.(s := s);
    var it := DeliverOrReceive(w.s, room);
    TakeKeeps(w);
    assert Keeps(w1, it) by {
      assert w1.delivered + [] == w1.delivered;
      if w.s.tcb.ack in w.s.tcb.unordered && w.s.shutdown == NotRequested {
        DeliverKeeps(w1, w.s.tcb.unordered[w.s.tcb.ack], room);
        DeliverStops(s, w.s.tcb.unordered[w.s.tcb.ack], room);
      } else if w.s.tcb.state == FinWait1(true) {
        AnswerFinKeeps(w1);
      } else if w.s.shutdown == Requested && w.s.tcb.state == Established && w.s.tcb.lastAck == w.s.tcb.seqno {
        SendFinKeeps(w1);
      } else {
        ReceiveKeeps(w1);
      }
    }
    KeepsAfter(w, s, it);
  }

  lemma DeliverStops(s: StreamState, b: seq<byte>, room: nat)
    ensures Deliver(s, b, room).Stop?
  {
  }

  lemma IterationKeeps(w: World, fired: bool, room: nat)
    requires Turning(w)
    ensures Keeps(w, ReadIteration(w.s, fired, room))
  {
    hide Sound, Advances, SendQueued, Abort, AfterWindow, AvailableReadBuffer;
    FlushIdle(w);
    var s2 := SendQueued(w.s);
    var w2 := w.(s := s2);
    SendQueuedKeeps(w);
    var it := ReadIteration(w.s, fired, room);
    assert Keeps(w2, it) by {
      assert w2.delivered + [] == w2.delivered;
      if s2.tcb.state == Closed {
        CloseAgain(w2);
      } else if s2.tcb.state == FinWait2(false) {
        AbortKeeps(w2, ConnectionAborted);
        AbortStops(s2, ConnectionAborted);
      } else {
        AfterWindowKeeps(w2, fired, room);
      }
    }
    KeepsAfter(w, s2, it);
  }

  lemma AfterWindowKeeps(w: World, fired: bool, room: nat)
    requires Midway(w)
    ensures var s := w.s.(tcb := ChangeRecvWindow(w.s.tcb, AvailableReadBuffer(w.s.tcb)));
            Keeps(w, AfterWindow(s, fired, room))
  {
    hide Sound, Advances, DeliverOrReceive, SendSynAck, AvailableReadBuffer, Control;
    var s := w.s.(tcb := ChangeRecvWindow(w.s.tcb, AvailableReadBuffer(w.s.tcb)));
    var w1 := w.(s := s);
    var it := AfterWindow(s, fired, room);
    Unseen(w, s);
    assert w.delivered + [] == w.delivered;
    assert Keeps(w1, it) by {
      if fired {
        TimeOutKeeps(w1);
      } else if s.tcb.state == SynReceived(false) {
        SynKeeps(w1);
      } else {
        DeliverOrReceiveKeeps(w1, room);
      }
    }
    KeepsAfter(w, s, it);
  }

  lemma NoRequest(w: World)
    requires Sound(w)
    ensures w.s.tcb.retransmission == None
  {
  }

  lemma FlushIdle(w: World)
    requires Turning(w)
    ensures Flushed(w.s) == w.s
  {
    hide Numbers, Buffer, WireSound, Spoken, NonEmpty, Bumps, Resend;
  }

  lemma AbortStops(s: StreamState, e: ErrorKind)
    ensures Abort(s, e).Stop?
  {
  }

  lemma CloseAgain(w: World)
    requires Midway(w) && w.s.tcb.state == Closed
    ensures Keeps(w, Stop(w.s.(shutdown := Finished), Ready(0), []))
  {
    hide Sound, Advances;
    assert w.delivered + [] == w.delivered;
    Unseen(w, w.s.(shutdown := Finished));
  }

  // --- Polls, steps and runs ---

  lemma {:induction false} ReadKeeps(w: World, room: nat, clock: seq<bool>)
    requires Turning(w)
    ensures var w' := AfterRead(w, PollRead(w.s, room, clock));
            Inv(w') && Advances(w, w')
    decreases |w.s.inbox|, 6 - Rank(w.s.tcb.state)
  {
    hide Turning, Inv, Advances, ReadIteration;
    var fired := clock != [] && clock[0];
    var it := ReadIteration(w.s, fired, room);
    IterationKeeps(w, fired, room);
    IterationDescends(w.s, fired, room);
    if it.Again? {
      assert w.delivered + [] == w.delivered;
      var w1 := w.(s := it.s);
      var rest := if clock == [] then [] else clock[1..];
      ReadKeeps(w1, room, rest);
      AdvancesTransitive(w, w1, AfterRead(w1, PollRead(it.s, room, rest)));
    }
  }

  lemma WrittenIsHonest(w: World, p: NetworkPacket)
    requires p.transport.Tcp? && p.transport.tcp.seqno == Mod32(w.iss + 1 + |w.sent|) && p.transport.tcp.ackno == w.s.tcb.ack
    requires ReverseTupleOf(p) == SessionKey(w.s.ends)
    ensures Honest(p, w.s.ends, w.iss, w.irs, w.sent + p.payload, Limit(w))
    ensures SentAt(p, |w.sent|, w.iss, w.sent + p.payload)
  {
    hide Bumps, ReverseTupleOf;
    var sent := w.sent + p.payload;
    assert sent[|w.sent|..|w.sent| + |p.payload|] == p.payload;
    assert SentAt(p, |w.sent|, w.iss, sent);
    AckIsLimit(w.s.tcb.ack, w.irs, |w.delivered|);
    assert AcksUpTo(p, Limit(w), w.irs);
  }

  /** The new packet joins the wire together with the bytes it carries. */
  lemma WrittenToWire(w: World, p: NetworkPacket)
    requires Sound(w) && w.s.tcb.state == Established && !IsSyn(p) && !IsFin(p)
    requires p.transport.Tcp? && p.transport.tcp.seqno == w.s.tcb.seqno && p.transport.tcp.ackno == w.s.tcb.ack
    requires ReverseTupleOf(p) == SessionKey(w.s.ends)
    ensures WireSound(Wire(w.s) + [p], w.s.ends, w.iss, w.irs, w.sent + p.payload, Limit(w))
    ensures Spoken(Established, Wire(w.s) + [p], w.s.tcb.ack, w.iss, w.sent + p.payload)
    ensures Syns(Wire(w.s) + [p]) == Syns(Wire(w.s)) && Fins(Wire(w.s) + [p]) == Fins(Wire(w.s))
  {
    hide Numbers, Buffer, WireSound, Spoken, NonEmpty, Bumps, Honest, Wire, ReverseTupleOf, SentAt;
    var t := w.s.tcb;
    var wire := Wire(w.s);
    NumbersState(t.state, t.seqno, t.lastAck, w.iss, Syns(wire), |w.sent|, Fins(wire), MaxPayload(w.s));
    WrittenIsHonest(w, p);
    WireGrows(wire, w.s.ends, w.iss, w.irs, w.sent, Limit(w), p.payload, Limit(w));
    WireAppend(wire, p, w.s.ends, w.iss, w.irs, w.sent + p.payload, Limit(w));
    SpokenWrite(wire, p, t.ack, w.iss, w.sent);
    Counts(wire, p);
  }

  lemma WriteKeeps(w: World, p: NetworkPacket)
    requires Midway(w) && w.s.tcb.state == Established && !SendBufferFull(w.s.tcb)
    requires |p.payload| <= MaxPayload(w.s) && !IsSyn(p) && !IsFin(p)
    requires p.transport.Tcp? && p.transport.tcp.seqno == w.s.tcb.seqno && p.transport.tcp.ackno == w.s.tcb.ack
    requires ReverseTupleOf(p) == SessionKey(w.s.ends)
    ensures var w' := w.(s := Send(w.s, p).(tcb := AddInflight(w.s.tcb, w.s.tcb.seqno, p.payload)), sent := w.sent + p.payload);
            Inv(w') && Advances(w, w')
  {
    hide Numbers, Buffer, WireSound, Spoken, NonEmpty, Bumps, Honest, Wire, ReverseTupleOf;
    var t := w.s.tcb;
    var wire := Wire(w.s);
    NumbersState(t.state, t.seqno, t.lastAck, w.iss, Syns(wire), |w.sent|, Fins(wire), MaxPayload(w.s));
    NumbersWrite(t.seqno, t.lastAck, w.iss, Syns(wire), |w.sent|, Fins(wire), MaxPayload(w.s), |p.payload|);
    BufferWrites(t.lastAck, w.iss, w.sent, t.inflight, t.seqno, p.payload);
    WrittenToWire(w, p);
    WireSent(w.s, Send(w.s, p).(tcb := AddInflight(t, t.seqno, p.payload)), p);
  }

  lemma WireSent(s: StreamState, s': StreamState, p: NetworkPacket)
    requires s.packetToSend == None && s'.out == s.out + [p] && s'.packetToSend == None
    ensures Wire(s') == Wire(s) + [p]
  {
  }

  lemma PollWriteKeeps(w: World, buf: seq<byte>)
    requires Inv(w) && w.s.fault == NoFault
    ensures var w' := AfterWrite(w, buf, PollWrite(w.s, buf));
            Inv(w') && Advances(w, w')
  {
    hide Sound, Advances, ReplyHeader, ReverseTupleOf;
    AdvancesReflexive(w);
    FlushIdle(w);
    RevPacketAddressed(w.s, PSH_ACK, TTL, w.s.tcb.seqno, buf);
    assert w.sent + [] == w.sent;
    if PollWrite(w.s, buf).poll.Ready? {
      WriteKeeps(w, RevPacket(w.s, PSH_ACK, TTL, w.s.tcb.seqno, buf));
    }
  }

  lemma StepKeeps(w: World, e: Event)
    requires Inv(w)
    ensures Inv(Step(w, e)) && Advances(w, Step(w, e))
  {
    hide Sound, Advances, PollRead, PollWrite;
    AdvancesReflexive(w);
    if w.s.fault == NoFault {
      match e
      case Arrive(p) => Unseen(w, w.s.(inbox := w.s.inbox + [p]));
      case HangUp => Unseen(w, w.s.(hungUp := true));
      case Read(room, clock) => ReadKeeps(w, room, clock);
      case Write(buf) => PollWriteKeeps(w, buf);
      case Flush => FlushIdle(w);
      case Shut(clock) => ShutKeeps(w, clock);
    }
  }

  lemma ShutKeeps(w: World, clock: seq<bool>)
    requires Inv(w) && w.s.fault == NoFault
    ensures var w' := AfterRead(w, PollShutdown(w.s, clock));
            Inv(w') && Advances(w, w')
  {
    hide Sound, Advances, PollRead;
    AdvancesReflexive(w);
    assert w.delivered + [] == w.delivered;
    if w.s.shutdown != Finished {
      var s := w.s.(shutdown := Requested);
      Unseen(w, s);
      ReadKeeps(w.(s := s), 1, clock);
      AdvancesTransitive(w, w.(s := s), AfterRead(w, PollRead(s, 1, clock)));
    }
  }

  lemma StartSound(ends: Endpoints, mtu: u16, iss: u32, irs: u32)
    ensures Inv(Start(ends, mtu, iss, irs))
  {
  }

  /** Whatever has happened, the sending side is sound: a panic of the reader touches the receiving side only. */
  lemma SenderSound(w: World) returns (v: World)
    requires Inv(w)
    ensures Sound(v) && v == Rewound(w, v.s.tcb.ack, v.s.tcb.unordered)
    ensures w.s.fault != NoRoom ==> v == w
  {
    hide Sound;
    if w.s.fault == NoRoom {
      var ack, unordered :| Sound(Rewound(w, ack, unordered));
      v := Rewound(w, ack, unordered);
    } else {
      v := w;
    }
  }

  /** After a panic nothing happens any more. */
  lemma FaultStays(w: World, e: Event)
    requires w.s.fault != NoFault
    ensures Step(w, e) == w
  {
  }

  /** Every run keeps the invariant and undoes nothing. */
  lemma {:induction false} RunKeeps(w: World, events: seq<Event>)
    requires Inv(w)
    ensures Inv(Run(w, events)) && Advances(w, Run(w, events))
    decreases |events|
  {
    hide Inv, Advances, Step;
    if events == [] {
      AdvancesReflexive(w);
    } else {
      StepKeeps(w, events[0]);
      RunKeeps(Step(w, events[0]), events[1..]);
      AdvancesTransitive(w, Step(w, events[0]), Run(w, events));
    }
  }
}

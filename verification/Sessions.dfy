/**
 The session table (src/lib.rs): packets read from the device are routed to streams by their
 tuple, and packets from the streams are written to the device or end a session.
 */
module Sessions {
  import opened Words
  import opened Packets
  import opened StreamSpec
  import opened Invariants
  import opened Preservation
  import opened SendSide
  import opened ReceiveSide

  /** A stream as the table sees it: its tuple, everything ever sent on its channel, and whether it still listens. */
  datatype Record = Record(key: NetworkTuple, queue: seq<NetworkPacket>, open: bool)

  /** A packet on its way to the device, with the tuple of the stream that made it. */
  datatype Outgoing = Outgoing(origin: NetworkTuple, packet: NetworkPacket)

  datatype Table = Table(
    sessions: map<NetworkTuple, nat>,
    streams: seq<Record>,
    upstream: seq<Outgoing>,
    device: seq<NetworkPacket>)

  const EMPTY := Table(map[], [], [], [])

  /** The ends of the stream that a packet opens: both addresses come from one header. */
  function EndpointsOf(p: NetworkPacket): Endpoints {
    Endpoints(SrcAddr(p), DstAddr(p))
  }

  /**
   A TCP packet that is no SYN is refused: a reset unless it is one itself, and the packet with TTL 0
   that dropping the stream built for it sends. No session belongs to either.
   */
  function Refusal(p: NetworkPacket, mtu: u16, iss: u32): seq<Outgoing>
    requires p.transport.Tcp?
  {
    var dropped := StreamSpec.NewStream(EndpointsOf(p), mtu, iss, p.transport.tcp.seqno);
    (if p.transport.tcp.flags.rst then [] else [Outgoing(TupleOf(p), Control(dropped, RST_ACK, TTL))])
    + [Outgoing(TupleOf(p), Control(dropped, NON, DROP_TTL))]
  }

  /** `create_stream`: a new stream, or a refusal. */
  function CreateStream(t: Table, p: NetworkPacket, mtu: u16, iss: u32): (Table, Option<nat>)
    requires !p.transport.Unknown?
  {
    if p.transport.Udp? || p.transport.tcp.flags.syn then
      (t.(streams := t.streams + [Record(TupleOf(p), [], true)]), Some(|t.streams|))
    else
      (t.(upstream := t.upstream + Refusal(p, mtu, iss)), None)
  }

  predicate Listening(t: Table, key: NetworkTuple) {
    key in t.sessions && t.sessions[key] < |t.streams| && t.streams[t.sessions[key]].open
  }

  function Enqueue(t: Table, id: nat, p: NetworkPacket): Table
    requires id < |t.streams|
  {
    t.(streams := t.streams[id := t.streams[id].(queue := t.streams[id].queue + [p])])
  }

  /** `process_device_read`; `parsed` is None when the bytes are no IP packet. */
  function DeviceRead(t: Table, parsed: Option<NetworkPacket>, mtu: u16, iss: u32): Table {
    if parsed.None? || parsed.value.transport.Unknown? then t
    else
      var p := parsed.value;
      var key := TupleOf(p);
      if Listening(t, key) then Enqueue(t, t.sessions[key], p)
      else
        var (t1, id) := CreateStream(t, p, mtu, iss);
        if id.Some? then t1.(sessions := t1.sessions[key := id.value]) else t1
  }

  /** `process_upstream_recv` on the oldest waiting packet. */
  function UpstreamRecv(t: Table): Table {
    if t.upstream == [] then t
    else
      var p := t.upstream[0].packet;
      var t1 := t.(upstream := t.upstream[1..]);
      if Ttl(p) == 0 then t1.(sessions := t.sessions - {ReverseTupleOf(p)})
      else t1.(device := t.device + [p])
  }

  // --- Runs ---

  datatype Event =
    | FromDevice(parsed: Option<NetworkPacket>, iss: u32)
    | ToDevice
    | FromStream(id: nat, p: NetworkPacket)
    | FromUnknown(p: NetworkPacket)
    | StreamGone(id: nat)

  /** Packets of a stream go back along its tuple, and only TCP streams announce their end with TTL 0. */
  ghost predicate MadeBy(key: NetworkTuple, p: NetworkPacket) {
    ReverseTupleOf(p) == key && (Ttl(p) == DROP_TTL ==> key.tcp)
  }

  /** What streams of an unknown transport send. */
  ghost predicate MadeByUnknown(p: NetworkPacket) {
    p.transport.Unknown? && Ttl(p) == TTL
  }

  /** One step of the `run` loop, or of a stream beside it; a send no stream can make does not happen. */
  ghost function Step(t: Table, e: Event, mtu: u16): Table {
    match e
    case FromDevice(parsed, iss) => DeviceRead(t, parsed, mtu, iss)
    case ToDevice => UpstreamRecv(t)
    case FromStream(id, p) =>
      if id < |t.streams| && MadeBy(t.streams[id].key, p)
      then t.(upstream := t.upstream + [Outgoing(t.streams[id].key, p)]) else t
    case FromUnknown(p) =>
      if MadeByUnknown(p) then t.(upstream := t.upstream + [Outgoing(ReverseTupleOf(p), p)]) else t
    case StreamGone(id) =>
      if id < |t.streams| then t.(streams := t.streams[id := t.streams[id].(open := false)]) else t
  }

  ghost function Run(t: Table, events: seq<Event>, mtu: u16): Table
    decreases |events|
  {
    if events == [] then t else Run(Step(t, events[0], mtu), events[1..], mtu)
  }

  // --- Routing consistency ---

  /** A stream's tuple joins addresses of one family, and its channel holds packets of its own tuple and protocol only. */
  ghost predicate OwnPackets(r: Record) {
    && SameFamily(r.key.src.ip, r.key.dst.ip)
    && forall i :: 0 <= i < |r.queue| ==>
         TupleOf(r.queue[i]) == r.key && (if r.key.tcp then r.queue[i].transport.Tcp? else r.queue[i].transport.Udp?)
  }

  ghost predicate Sourced(o: Outgoing) {
    ReverseTupleOf(o.packet) == o.origin && (Ttl(o.packet) == DROP_TTL ==> o.origin.tcp)
  }

  ghost predicate Routed(t: Table) {
    && (forall key :: key in t.sessions ==> t.sessions[key] < |t.streams| && t.streams[t.sessions[key]].key == key)
    && (forall i :: 0 <= i < |t.streams| ==> OwnPackets(t.streams[i]))
    && (forall i :: 0 <= i < |t.upstream| ==> Sourced(t.upstream[i]))
  }

  lemma RefusalIsSourced(p: NetworkPacket, mtu: u16, iss: u32)
    requires p.transport.Tcp?
    ensures forall i :: 0 <= i < |Refusal(p, mtu, iss)| ==> Sourced(Refusal(p, mtu, iss)[i]) && Refusal(p, mtu, iss)[i].origin == TupleOf(p)
    ensures Refusal(p, mtu, iss) != [] && Ttl(Refusal(p, mtu, iss)[|Refusal(p, mtu, iss)| - 1].packet) == DROP_TTL
  {
    hide ReverseTupleOf;
    var dropped := StreamSpec.NewStream(EndpointsOf(p), mtu, iss, p.transport.tcp.seqno);
    RevPacketAddressed(dropped, RST_ACK, TTL, iss, []);
    RevPacketAddressed(dropped, NON, DROP_TTL, iss, []);
  }

  lemma EnqueueRoutes(t: Table, p: NetworkPacket)
    requires Routed(t) && !p.transport.Unknown? && Listening(t, TupleOf(p))
    ensures Routed(Enqueue(t, t.sessions[TupleOf(p)], p))
  {
    hide Sourced, SameFamily;
  }

  lemma OpenRoutes(t: Table, p: NetworkPacket)
    requires Routed(t) && !p.transport.Unknown?
    ensures Routed(t.(streams := t.streams + [Record(TupleOf(p), [], true)], sessions := t.sessions[TupleOf(p) := |t.streams|]))
  {
    var r := Record(TupleOf(p), [], true);
    assert OwnPackets(r);
    hide OwnPackets, Sourced;
  }

  lemma RefusalRoutes(t: Table, p: NetworkPacket, mtu: u16, iss: u32)
    requires Routed(t) && p.transport.Tcp?
    ensures Routed(t.(upstream := t.upstream + Refusal(p, mtu, iss)))
  {
    hide OwnPackets, Sourced, Refusal;
    RefusalIsSourced(p, mtu, iss);
  }

  lemma DeviceReadRoutes(t: Table, parsed: Option<NetworkPacket>, mtu: u16, iss: u32)
    requires Routed(t)
    ensures Routed(DeviceRead(t, parsed, mtu, iss))
  {
    hide Routed, Refusal, Enqueue;
    if parsed.Some? && !parsed.value.transport.Unknown? {
      var p := parsed.value;
      if Listening(t, TupleOf(p)) {
        EnqueueRoutes(t, p);
      } else if p.transport.Udp? || p.transport.tcp.flags.syn {
        OpenRoutes(t, p);
      } else {
        RefusalRoutes(t, p, mtu, iss);
      }
    }
  }

  lemma StepRoutes(t: Table, e: Event, mtu: u16)
    requires Routed(t)
    ensures Routed(Step(t, e, mtu))
  {
    hide DeviceRead, OwnPackets;
    match e
    case FromDevice(parsed, iss) => DeviceReadRoutes(t, parsed, mtu, iss);
    case StreamGone(id) =>
      if id < |t.streams| {
        ClosingKeepsPackets(t.streams[id]);
      }
    case _ =>
  }

  lemma ClosingKeepsPackets(r: Record)
    requires OwnPackets(r)
    ensures OwnPackets(r.(open := false))
  {
  }

  /**
   Over every interleaving of device reads, upstream packets and streams coming and going, each
   session leads to the stream of that very tuple, and every stream is sent only packets of its
   own tuple, protocol and address family.
   */
  lemma {:induction false} RoutingIsConsistent(t: Table, events: seq<Event>, mtu: u16)
    requires Routed(t)
    ensures Routed(Run(t, events, mtu))
    decreases |events|
  {
    hide Routed, Step;
    if events != [] {
      StepRoutes(t, events[0], mtu);
      RoutingIsConsistent(Step(t, events[0], mtu), events[1..], mtu);
    }
  }

  lemma EmptyIsRouted()
    ensures Routed(EMPTY)
  {
  }

  /** A packet with a listening session goes to the end of that one queue and nowhere else. */
  lemma PacketGoesToItsStream(events: seq<Event>, mtu: u16, p: NetworkPacket, iss: u32, i: nat)
    requires var t := Run(EMPTY, events, mtu);
             i < |t.streams| && !p.transport.Unknown? && Listening(t, TupleOf(p))
    ensures var t := Run(EMPTY, events, mtu);
            var t' := DeviceRead(t, Some(p), mtu, iss);
            && |t'.streams| == |t.streams| && t'.sessions == t.sessions && t'.upstream == t.upstream
            && t'.streams[i].key == t.streams[i].key
            && t'.streams[i].queue == t.streams[i].queue + (if t.sessions[TupleOf(p)] == i then [p] else [])
            && (t.sessions[TupleOf(p)] == i ==> t.streams[i].key == TupleOf(p))
  {
    EmptyIsRouted();
    RoutingIsConsistent(EMPTY, events, mtu);
    hide Run, OwnPackets, Sourced;
  }

  /**
   With no listening session, a UDP packet or a SYN opens a stream under its tuple. Any other TCP packet
   leaves sessions and streams alone and is answered along its tuple: a reset first unless it is one, and
   then always a packet that ends whatever session the tuple has by the time it is handled.
   */
  lemma FirstPacketDecides(t: Table, p: NetworkPacket, mtu: u16, iss: u32)
    requires !p.transport.Unknown? && !Listening(t, TupleOf(p))
    ensures var t' := DeviceRead(t, Some(p), mtu, iss);
            var opens := p.transport.Udp? || p.transport.tcp.flags.syn;
            && Listening(t', TupleOf(p)) == opens
            && t.upstream <= t'.upstream
            && (opens ==> t'.sessions[TupleOf(p)] == |t.streams| && t'.upstream == t.upstream)
            && (!opens ==>
                  && t'.sessions == t.sessions && t'.streams == t.streams
                  && |t'.upstream| == |t.upstream| + (if p.transport.tcp.flags.rst then 1 else 2)
                  && var end := t'.upstream[|t'.upstream| - 1];
                  && end.origin == ReverseTupleOf(end.packet) == TupleOf(p)
                  && Ttl(end.packet) == DROP_TTL)
            && (!opens && !p.transport.tcp.flags.rst ==>
                  && var reset := t'.upstream[|t.upstream|];
                  && reset.origin == ReverseTupleOf(reset.packet) == TupleOf(p)
                  && Ttl(reset.packet) == TTL
                  && reset.packet.transport.tcp.flags == RST_ACK
                  && (reset.packet.transport.tcp.seqno, reset.packet.transport.tcp.window) == (iss, 0)
                  && reset.packet.transport.tcp.ackno == WrapAdd(p.transport.tcp.seqno, 1))
  {
    hide ReverseTupleOf;
    if p.transport.Tcp? {
      RefusalIsSourced(p, mtu, iss);
    }
  }

  /** A session whose stream is gone does not keep its tuple: the next SYN or UDP packet opens a stream in its place. */
  lemma GoneStreamIsReplaced(events: seq<Event>, mtu: u16, p: NetworkPacket, iss: u32)
    requires p.transport.Udp? || (p.transport.Tcp? && p.transport.tcp.flags.syn)
    requires var t := Run(EMPTY, events, mtu);
             TupleOf(p) in t.sessions
    ensures var t := Run(EMPTY, events, mtu);
            var id := t.sessions[TupleOf(p)];
            && id < |t.streams|
            && var t' := DeviceRead(Step(t, StreamGone(id), mtu), Some(p), mtu, iss);
            && t'.sessions == t.sessions[TupleOf(p) := |t.streams|]
            && |t'.streams| == |t.streams| + 1 && t'.streams[|t.streams|] == Record(TupleOf(p), [], true)
            && t'.streams[id].queue == t.streams[id].queue
  {
    EmptyIsRouted();
    RoutingIsConsistent(EMPTY, events, mtu);
    hide Run, OwnPackets, Sourced, TupleOf;
  }

  // --- A session that ends too early ---

  ghost function Drain(n: nat): seq<Event> {
    if n == 0 then [] else [ToDevice] + Drain(n - 1)
  }

  /** Once its end has been handled a session is gone, whatever else is handled before it. */
  lemma {:induction false} DrainedEnds(t: Table, n: nat, mtu: u16, key: NetworkTuple)
    requires 0 < n <= |t.upstream|
    requires var end := t.upstream[n - 1].packet;
             Ttl(end) == DROP_TTL && ReverseTupleOf(end) == key
    ensures var t' := Run(t, Drain(n), mtu);
            key !in t'.sessions && t'.streams == t.streams
    decreases n
  {
    hide Ttl, ReverseTupleOf;
    var t1 := UpstreamRecv(t);
    assert Drain(n)[0] == ToDevice && Drain(n)[1..] == Drain(n - 1);
    assert Run(t, Drain(n), mtu) == Run(t1, Drain(n - 1), mtu);
    if n == 1 {
      assert Run(t1, [], mtu) == t1;
    } else {
      assert t1.upstream[n - 2] == t.upstream[n - 1];
      DrainedEnds(t1, n - 1, mtu, key);
    }
  }

  /**
   A session is not safe from the end of another stream. From any table without a session for the tuple,
   let a packet `p` be refused and a SYN `q` of the same tuple open a stream before the answers to `p` are
   handled: handling them removes the new session, while its stream still listens.
   */
  lemma RefusalEndsNewSession(t: Table, p: NetworkPacket, q: NetworkPacket, mtu: u16, iss: u32, iss': u32)
    requires p.transport.Tcp? && !p.transport.tcp.flags.syn && q.transport.Tcp? && q.transport.tcp.flags.syn
    requires TupleOf(p) == TupleOf(q) && !Listening(t, TupleOf(p))
    ensures var t2 := Run(t, [FromDevice(Some(p), iss), FromDevice(Some(q), iss')], mtu);
            var t3 := Run(t2, Drain(|t2.upstream|), mtu);
            && Listening(t2, TupleOf(q)) && t2.sessions[TupleOf(q)] == |t.streams|
            && TupleOf(q) !in t3.sessions
            && |t.streams| < |t3.streams| && t3.streams[|t.streams|] == Record(TupleOf(q), [], true)
  {
    hide ReverseTupleOf, TupleOf, Ttl, Refusal;
    RefusalIsSourced(p, mtu, iss);
    var t1 := DeviceRead(t, Some(p), mtu, iss);
    var t2 := DeviceRead(t1, Some(q), mtu, iss');
    RunTwice(t, FromDevice(Some(p), iss), FromDevice(Some(q), iss'), mtu);
    var answers := Refusal(p, mtu, iss);
    assert t2.upstream[|t2.upstream| - 1] == answers[|answers| - 1];
    DrainedEnds(t2, |t2.upstream|, mtu, TupleOf(q));
  }

  lemma RunTwice(t: Table, e: Event, e': Event, mtu: u16)
    ensures Run(t, [e, e'], mtu) == Step(Step(t, e, mtu), e', mtu)
  {
    hide Step;
    var t1 := Step(t, e, mtu);
    assert [e, e'][1..] == [e'] && [e'][1..] == [];
    assert Run(t1, [e'], mtu) == Run(Step(t1, e', mtu), [], mtu);
  }

  /** A packet with TTL 0 ends the session of the tuple that sent it, a TCP one, and touches no other. */
  lemma EndRemovesOnlyItself(events: seq<Event>, mtu: u16, key: NetworkTuple)
    requires var t := Run(EMPTY, events, mtu);
             t.upstream != [] && key in t.sessions
    ensures var t := Run(EMPTY, events, mtu);
            var head := t.upstream[0];
            var t' := UpstreamRecv(t);
            && (key in t'.sessions <==> !(Ttl(head.packet) == 0 && key == head.origin))
            && (key in t'.sessions ==> t'.sessions[key] == t.sessions[key])
            && (key !in t'.sessions ==> key.tcp)
            && t'.device == t.device + (if Ttl(head.packet) == 0 then [] else [head.packet])
  {
    EmptyIsRouted();
    RoutingIsConsistent(EMPTY, events, mtu);
    hide Run, OwnPackets;
    assert Sourced(Run(EMPTY, events, mtu).upstream[0]);
  }

  /** Everything a TCP stream ever sends is the table's packet of that stream: the two models fit together. */
  lemma StreamSendsItsOwn(w: World, i: nat)
    requires Reachable(w) && i < |w.s.out|
    ensures MadeBy(SessionKey(w.s.ends), w.s.out[i])
  {
    hide Reachable, Inv, Buffer, NonEmpty, Bumps, Spoken, Numbers, QuietAfterFin, ReverseTupleOf;
    ReachableKeeps(w);
    var v := SenderSound(w);
    assert Wire(v.s)[i] == w.s.out[i];
  }

  /** A queued packet of a TCP stream passes the protocol check that the stream makes on receipt. */
  lemma QueuedPacketsAreTcp(events: seq<Event>, mtu: u16, i: nat, j: nat)
    requires var t := Run(EMPTY, events, mtu);
             i < |t.streams| && t.streams[i].key.tcp && j < |t.streams[i].queue|
    ensures var r := Run(EMPTY, events, mtu).streams[i];
            && r.queue[j].transport.Tcp?
            && TupleOf(r.queue[j]) == r.key
            && SameFamily(r.key.src.ip, r.key.dst.ip)
  {
    EmptyIsRouted();
    RoutingIsConsistent(EMPTY, events, mtu);
    hide Run, Sourced;
    assert OwnPackets(Run(EMPTY, events, mtu).streams[i]);
  }

  /**
   A stream in any run, whose arrivals are packets the table has queued for it in any run of the table,
   never reaches its protocol panic.
   */
  lemma ProtocolPanicUnreachable(events: seq<Event>, mtu: u16, i: nat, ends: Endpoints, iss: u32, irs: u32, polls: seq<StreamSpec.Event>)
    requires var t := Run(EMPTY, events, mtu);
             i < |t.streams| && t.streams[i].key == SessionKey(ends)
    requires forall k :: 0 <= k < |polls| && polls[k].Arrive? ==> polls[k].p in Run(EMPTY, events, mtu).streams[i].queue
    ensures StreamSpec.Run(Start(ends, mtu, iss, irs), polls).s.fault != WrongProtocol
  {
    hide Run, StreamSpec.Run, Inv, Sound;
    forall k | 0 <= k < |polls| && polls[k].Arrive? ensures polls[k].p.transport.Tcp? {
      var r := Run(EMPTY, events, mtu).streams[i];
      var j :| 0 <= j < |r.queue| && r.queue[j] == polls[k].p;
      QueuedPacketsAreTcp(events, mtu, i, j);
    }
    StartSound(ends, mtu, iss, irs);
    TcpNeverPanics(Start(ends, mtu, iss, irs), polls);
  }

  // --- The table in place ---

  datatype Accepted = UnknownNetwork | UnknownTransport | NewStream(id: nat) | Nothing

  class Stack {
    const mtu: u16
    var sessions: map<NetworkTuple, nat>
    var streams: seq<Record>
    var upstream: seq<Outgoing>
    var device: seq<NetworkPacket>

    ghost function View(): Table
      reads this
    {
      Table(sessions, streams, upstream, device)
    }

    ghost predicate Valid()
      reads this
    {
      Routed(View())
    }

    constructor (mtu: u16)
      ensures Valid() && View() == EMPTY && this.mtu == mtu
    {
      this.mtu := mtu;
      this.sessions := map[];
      this.streams := [];
      this.upstream := [];
      this.device := [];
    }

    method Create(p: NetworkPacket, iss: u32) returns (id: Option<nat>)
      requires !p.transport.Unknown?
      modifies this
      ensures (View(), id) == CreateStream(old(View()), p, mtu, iss)
    {
      match p.transport
      case Udp(_) =>
        id := Some(|streams|);
        streams := streams + [Record(TupleOf(p), [], true)];
      case Tcp(h) =>
        if h.flags.syn {
          id := Some(|streams|);
          streams := streams + [Record(TupleOf(p), [], true)];
        } else {
          id := None;
          var refused := StreamSpec.NewStream(EndpointsOf(p), mtu, iss, h.seqno);
          if !h.flags.rst {
            upstream := upstream + [Outgoing(TupleOf(p), Control(refused, RST_ACK, TTL))];
          }
          upstream := upstream + [Outgoing(TupleOf(p), Control(refused, NON, DROP_TTL))];
          assert upstream == old(upstream) + Refusal(p, mtu, iss);
        }
    }

    method ProcessDeviceRead(parsed: Option<NetworkPacket>, iss: u32) returns (accepted: Accepted)
      requires Valid()
      modifies this
      ensures Valid() && View() == DeviceRead(old(View()), parsed, mtu, iss)
      ensures accepted.NewStream? ==>
                && accepted.id == |old(streams)| < |streams|
                && parsed.Some? && streams[accepted.id].key == TupleOf(parsed.value)
                && TupleOf(parsed.value) in sessions && sessions[TupleOf(parsed.value)] == accepted.id
      ensures !accepted.NewStream? ==> sessions == old(sessions)
      ensures accepted == UnknownNetwork <==> parsed.None?
      ensures accepted == UnknownTransport <==> parsed.Some? && parsed.value.transport.Unknown?
      ensures accepted.NewStream? <==>
                && parsed.Some? && !parsed.value.transport.Unknown?
                && !Listening(old(View()), TupleOf(parsed.value))
                && (parsed.value.transport.Udp? || parsed.value.transport.tcp.flags.syn)
    {
      hide Control, OwnPackets, Sourced;
      DeviceReadRoutes(View(), parsed, mtu, iss);
      if parsed.None? {
        return UnknownNetwork;
      }
      var p := parsed.value;
      if p.transport.Unknown? {
        return UnknownTransport;
      }
      var key := TupleOf(p);
      if key in sessions && streams[sessions[key]].open {
        var id := sessions[key];
        streams := streams[id := streams[id].(queue := streams[id].queue + [p])];
        return Nothing;
      }
      var id := Create(p, iss);
      if id.Some? {
        sessions := sessions[key := id.value];
        return NewStream(id.value);
      }
      return Nothing;
    }

    method ProcessUpstreamRecv()
      requires Valid() && upstream != []
      modifies this
      ensures Valid() && View() == UpstreamRecv(old(View()))
    {
      hide OwnPackets;
      var p := upstream[0].packet;
      upstream := upstream[1..];
      if Ttl(p) == 0 {
        sessions := sessions - {ReverseTupleOf(p)};
        return;
      }
      device := device + [p];
    }
  }
}

/**
 What every reachable state of a stream satisfies, for all initial sequence numbers,
 any peer and any window: the definitions, one predicate for each part of the state.
 */
module Invariants {
  import opened Words
  import opened Packets
  import opened TcbSpec
  import opened SendBuffer
  import opened StreamSpec

  /** Everything sent or waiting to be sent, in order. */
  function Wire(s: StreamState): seq<NetworkPacket> {
    s.out + if s.packetToSend.Some? then [s.packetToSend.value] else []
  }

  predicate IsSyn(p: NetworkPacket) {
    p.transport.Tcp? && p.transport.tcp.flags.syn
  }

  predicate IsFin(p: NetworkPacket) {
    p.transport.Tcp? && p.transport.tcp.flags.fin
  }

  predicate IsData(p: NetworkPacket) {
    p.payload != [] || (p.transport.Tcp? && p.transport.tcp.flags.psh)
  }

  function Syns(wire: seq<NetworkPacket>): nat {
    if wire == [] then 0 else Syns(wire[..|wire| - 1]) + if IsSyn(wire[|wire| - 1]) then 1 else 0
  }

  function Fins(wire: seq<NetworkPacket>): nat {
    if wire == [] then 0 else Fins(wire[..|wire| - 1]) + if IsFin(wire[|wire| - 1]) then 1 else 0
  }

  // --- Sequence numbers ---

  /**
   `syns`, `bytes` and `fins` count what has been put on the wire. The acknowledged and the
   outstanding part of the sequence space add up to it as plain integers, so `lastAck`
   never wraps; only `seqno` can.
   */
  ghost predicate Numbers(state: TcpState, seqno: u32, lastAck: u32, iss: u32, syns: nat, bytes: nat, fins: nat, maxPayload: nat) {
    && lastAck + WrapSub(seqno, lastAck) == iss + syns + bytes + fins
    && WrapSub(seqno, lastAck) <= MAX_UNACK - 1 + maxPayload + fins
    && iss <= lastAck
    && syns <= 1
    && fins <= 1
    && (0 < bytes ==> syns == 1)
    && (state == SynReceived(false) ==> syns == 0)
    && (Rank(SynReceived(true)) <= Rank(state) < Rank(Closed) ==> syns == 1)
    && (state.SynReceived? ==> bytes == 0 && lastAck == iss)
    && (state.SynReceived? || state == Established || state == FinWait1(true) ==> fins == 0)
    && (state == FinWait1(false) || state.FinWait2? ==> fins == 1)
    && (state == FinWait1(false) ==> WrapSub(seqno, lastAck) <= 1)
    && (state == FinWait2(false) ==> lastAck <= seqno)
  }

  // --- Send buffer ---

  /** First byte of data not yet acknowledged; the SYN in front of the data is not data. */
  function FirstUnacked(lastAck: u32, iss: u32): int {
    Max(lastAck, iss + 1)
  }

  /** While the sequence space has not wrapped, the in-flight list is the unacknowledged suffix of `sent`. */
  ghost predicate Buffer(state: TcpState, lastAck: u32, iss: u32, sent: seq<byte>, inflight: seq<InflightPacket>) {
    && (state.SynReceived? ==> inflight == [])
    && (state == Established && iss + 1 + |sent| < TWO32 ==>
          && FirstUnacked(lastAck, iss) <= iss + 1 + |sent|
          && Represents(inflight, FirstUnacked(lastAck, iss), sent[FirstUnacked(lastAck, iss) - iss - 1..]))
    && (state == FinWait1(false) ==> forall p :: p in inflight ==> p.payload == [])
  }

  // --- Receive side ---

  /** How far `ack` runs ahead of the bytes delivered: what the close handshake has added to it. */
  function Bumps(ack: u32, irs: u32, delivered: nat): u32 {
    WrapSub(ack, Mod32(irs + 1 + delivered))
  }

  ghost predicate Acknowledging(state: TcpState, bumps: nat) {
    && bumps <= 2
    && (state.SynReceived? || state == Established || state == FinWait1(false) ==> bumps == 0)
    && (state == FinWait1(true) ==> bumps == 1)
    && (state.FinWait2? ==> 1 <= bumps)
  }

  ghost predicate NonEmpty(unordered: map<u32, seq<byte>>) {
    forall k :: k in unordered ==> unordered[k] != []
  }

  // --- The wire ---

  /** The payload of `p` is the piece of `sent` at offset `off`, and its sequence number says so. */
  ghost predicate SentAt(p: NetworkPacket, off: nat, iss: u32, sent: seq<byte>) {
    && p.transport.Tcp?
    && off + |p.payload| <= |sent|
    && p.payload == sent[off..off + |p.payload|]
    && p.transport.tcp.seqno == Mod32(iss + 1 + off)
  }

  /** `p` acknowledges the SYN and `n` more. */
  ghost predicate AcksUpTo(p: NetworkPacket, n: nat, irs: u32) {
    p.transport.Tcp? && p.transport.tcp.ackno == Mod32(irs + 1 + n)
  }

  /** The session that packets between these ends belong to. */
  function SessionKey(ends: Endpoints): NetworkTuple {
    NetworkTuple(ends.src, ends.dst, true)
  }

  /** A packet back to the peer; data agrees with `sent`; acknowledgements go no further than `limit`. */
  ghost predicate Honest(p: NetworkPacket, ends: Endpoints, iss: u32, irs: u32, sent: seq<byte>, limit: nat) {
    && ReverseTupleOf(p) == SessionKey(ends)
    && (p.payload != [] ==> exists off: nat :: SentAt(p, off, iss, sent))
    && exists n: nat :: n <= limit && AcksUpTo(p, n, irs)
  }

  ghost predicate QuietAfterFin(wire: seq<NetworkPacket>) {
    forall i, j :: 0 <= i < j < |wire| && IsFin(wire[i]) ==> !IsData(wire[j])
  }

  ghost predicate WireSound(wire: seq<NetworkPacket>, ends: Endpoints, iss: u32, irs: u32, sent: seq<byte>, limit: nat) {
    && QuietAfterFin(wire)
    && forall i :: 0 <= i < |wire| ==> Honest(wire[i], ends, iss, irs, sent, limit)
  }

  /** SYN and FIN stand where they belong: before and after all the bytes. */
  ghost predicate Placed(p: NetworkPacket, iss: u32, bytes: nat) {
    && (IsSyn(p) ==> p.transport.tcp.seqno == iss)
    && (IsFin(p) ==> p.transport.tcp.seqno == Mod32(iss + 1 + bytes))
  }

  /** A packet that reaches the peer and acknowledges up to `ack`. */
  ghost predicate Announces(p: NetworkPacket, ack: u32) {
    p.transport.Tcp? && p.transport.tcp.ackno == ack && p.transport.tcp.flags.ack && Ttl(p) == 64
  }

  /** Tells the session table or the peer that the stream is over. */
  ghost predicate Farewell(p: NetworkPacket) {
    Ttl(p) == DROP_TTL || (p.transport.Tcp? && p.transport.tcp.flags.rst)
  }

  ghost predicate Covers(p: NetworkPacket, off: nat, iss: u32, sent: seq<byte>) {
    exists start: nat :: SentAt(p, start, iss, sent) && start <= off < start + |p.payload|
  }

  ghost predicate Transmitted(off: nat, wire: seq<NetworkPacket>, iss: u32, sent: seq<byte>) {
    exists i :: 0 <= i < |wire| && Covers(wire[i], off, iss, sent)
  }

  ghost predicate Announced(wire: seq<NetworkPacket>, ack: u32) {
    exists i :: 0 <= i < |wire| && Announces(wire[i], ack)
  }

  ghost predicate Ended(wire: seq<NetworkPacket>) {
    exists i :: 0 <= i < |wire| && Farewell(wire[i])
  }

  /** The states in which everything acknowledged has been told to the peer. */
  predicate Answering(state: TcpState) {
    1 <= Rank(state) <= 3
  }

  /** Nothing that has to be said is left out: bytes accepted, `ack`, and the end. */
  ghost predicate Spoken(state: TcpState, wire: seq<NetworkPacket>, ack: u32, iss: u32, sent: seq<byte>) {
    && (forall i :: 0 <= i < |wire| ==> Placed(wire[i], iss, |sent|))
    && (forall off: nat :: off < |sent| ==> Transmitted(off, wire, iss, sent))
    && (Answering(state) ==> Announced(wire, ack))
    && (state == Closed ==> Ended(wire))
  }

  // --- The whole ---

  ghost predicate Sound(w: World) {
    var t := w.s.tcb;
    var wire := Wire(w.s);
    var bumps := Bumps(t.ack, w.irs, |w.delivered|);
    && t.retransmission == None
    && Numbers(t.state, t.seqno, t.lastAck, w.iss, Syns(wire), |w.sent|, Fins(wire), MaxPayload(w.s))
    && Buffer(t.state, t.lastAck, w.iss, w.sent, t.inflight)
    && Acknowledging(t.state, bumps)
    && NonEmpty(t.unordered)
    && WireSound(wire, w.s.ends, w.iss, w.irs, w.sent, |w.delivered| + bumps)
    && Spoken(t.state, wire, t.ack, w.iss, w.sent)
    && (Fins(wire) == 1 && bumps < 2 ==> w.iss + 1 + |w.sent| <= t.lastAck)
  }

  /** The same world with another receive side. */
  ghost function Rewound(w: World, ack: u32, unordered: map<u32, seq<byte>>): World {
    w.(s := w.s.(tcb := w.s.tcb.(ack := ack, unordered := unordered)))
  }

  /**
   A control packet waits for the next read only once the connection is closed. A panic for want
   of room has touched nothing but the receive side.
   */
  ghost predicate Inv(w: World) {
    && (w.s.fault != NoRoom ==> Sound(w))
    && (w.s.fault == NoRoom ==> exists ack, unordered :: Sound(Rewound(w, ack, unordered)))
    && (w.s.fault == NoFault && w.s.packetToSend.Some? ==> w.s.tcb.state == Closed)
    && (w.s.fault == LookupFailed ==> w.s.tcb.state == Established && w.s.tcb.lastAck == w.iss)
  }

  /** Between sending what was queued and the end of an iteration. */
  ghost predicate Midway(w: World) {
    && w.s.fault == NoFault
    && Sound(w)
    && w.s.packetToSend == None
  }

  /** At the end of an iteration that goes round again. */
  ghost predicate Turning(w: World) {
    && w.s.fault == NoFault
    && Sound(w)
  }

  /** What no step undoes. */
  ghost predicate Advances(w: World, w': World) {
    && (w'.iss, w'.irs, w'.s.ends, w'.s.mtu) == (w.iss, w.irs, w.s.ends, w.s.mtu)
    && (w'.s.tcb.state == w.s.tcb.state || Rank(w.s.tcb.state) < Rank(w'.s.tcb.state))
    && Wire(w.s) <= Wire(w'.s)
    && w.s.tcb.lastAck <= w'.s.tcb.lastAck
    && w.sent <= w'.sent
    && (Rank(Established) < Rank(w.s.tcb.state) ==> w'.sent == w.sent)
    && w.delivered <= w'.delivered
    && (w.s.shutdown != NotRequested ==> w'.s.shutdown != NotRequested && w'.delivered == w.delivered)
  }

  lemma AdvancesTransitive(u: World, v: World, w: World)
    requires Advances(u, v) && Advances(v, w)
    ensures Advances(u, w)
  {
  }

  // --- Appending to the wire ---

  lemma Counts(wire: seq<NetworkPacket>, p: NetworkPacket)
    ensures Syns(wire + [p]) == Syns(wire) + (if IsSyn(p) then 1 else 0)
    ensures Fins(wire + [p]) == Fins(wire) + (if IsFin(p) then 1 else 0)
  {
    assert (wire + [p])[..|wire|] == wire;
  }

  lemma {:induction false} FinsCounted(wire: seq<NetworkPacket>, i: nat)
    requires i < |wire| && IsFin(wire[i])
    ensures 0 < Fins(wire)
  {
    if i < |wire| - 1 {
      FinsCounted(wire[..|wire| - 1], i);
    }
  }

  /** A packet may be appended when it is honest itself and, if it carries data, no FIN is out. */
  lemma WireAppend(wire: seq<NetworkPacket>, p: NetworkPacket, ends: Endpoints, iss: u32, irs: u32, sent: seq<byte>, limit: nat)
    requires WireSound(wire, ends, iss, irs, sent, limit)
    requires Honest(p, ends, iss, irs, sent, limit)
    requires IsData(p) ==> Fins(wire) == 0
    ensures WireSound(wire + [p], ends, iss, irs, sent, limit)
  {
    if IsData(p) {
      forall i | 0 <= i < |wire| ensures !IsFin(wire[i]) {
        if IsFin(wire[i]) {
          FinsCounted(wire, i);
        }
      }
    }
  }

  lemma HonestGrows(p: NetworkPacket, ends: Endpoints, iss: u32, irs: u32, sent: seq<byte>, limit: nat, more: seq<byte>, limit': nat)
    requires Honest(p, ends, iss, irs, sent, limit) && limit <= limit'
    ensures Honest(p, ends, iss, irs, sent + more, limit')
  {
    if p.payload != [] {
      var off: nat :| SentAt(p, off, iss, sent);
      assert (sent + more)[off..off + |p.payload|] == sent[off..off + |p.payload|];
      assert SentAt(p, off, iss, sent + more);
    }
  }

  lemma WireGrows(wire: seq<NetworkPacket>, ends: Endpoints, iss: u32, irs: u32, sent: seq<byte>, limit: nat, more: seq<byte>, limit': nat)
    requires WireSound(wire, ends, iss, irs, sent, limit) && limit <= limit'
    ensures WireSound(wire, ends, iss, irs, sent + more, limit')
  {
    forall i | 0 <= i < |wire| ensures Honest(wire[i], ends, iss, irs, sent + more, limit') {
      HonestGrows(wire[i], ends, iss, irs, sent, limit, more, limit');
    }
  }

  lemma Extends(wire: seq<NetworkPacket>, p: NetworkPacket, iss: u32, sent: seq<byte>, ack: u32)
    ensures forall off: nat :: Transmitted(off, wire, iss, sent) ==> Transmitted(off, wire + [p], iss, sent)
    ensures Announced(wire, ack) ==> Announced(wire + [p], ack)
    ensures Ended(wire) ==> Ended(wire + [p])
    ensures Announces(p, ack) ==> Announced(wire + [p], ack)
    ensures Farewell(p) ==> Ended(wire + [p])
  {
    hide Covers, Announces, Farewell;
    var longer := wire + [p];
    assert longer[|wire|] == p;
    assert forall i :: 0 <= i < |wire| ==> longer[i] == wire[i];
  }

  /** One more packet, with whatever it newly has to say. */
  lemma SpokenAppend(state: TcpState, state': TcpState, wire: seq<NetworkPacket>, p: NetworkPacket, ack: u32, ack': u32, iss: u32, sent: seq<byte>)
    requires Spoken(state, wire, ack, iss, sent) && Placed(p, iss, |sent|)
    requires Answering(state') ==> Announces(p, ack') || (Answering(state) && ack' == ack)
    requires state' == Closed ==> Farewell(p) || state == Closed
    ensures Spoken(state', wire + [p], ack', iss, sent)
  {
    hide Placed, Announces, Farewell, Transmitted, Announced, Ended;
    Extends(wire, p, iss, sent, ack');
  }

  lemma SpokenMove(state: TcpState, state': TcpState, wire: seq<NetworkPacket>, ack: u32, ack': u32, iss: u32, sent: seq<byte>)
    requires Spoken(state, wire, ack, iss, sent)
    requires Answering(state') ==> Answering(state) && ack' == ack
    requires state' == Closed ==> Ended(wire)
    ensures Spoken(state', wire, ack', iss, sent)
  {
    hide Placed, Transmitted, Announced, Ended;
  }

  lemma CoversGrows(p: NetworkPacket, off: nat, iss: u32, sent: seq<byte>, more: seq<byte>)
    requires Covers(p, off, iss, sent)
    ensures Covers(p, off, iss, sent + more)
  {
    var start: nat :| SentAt(p, start, iss, sent) && start <= off < start + |p.payload|;
    assert (sent + more)[start..start + |p.payload|] == sent[start..start + |p.payload|];
    assert SentAt(p, start, iss, sent + more);
  }

  /** New bytes are accepted together with the packet that carries them. */
  lemma SpokenWrite(wire: seq<NetworkPacket>, p: NetworkPacket, ack: u32, iss: u32, sent: seq<byte>)
    requires Spoken(Established, wire, ack, iss, sent) && Fins(wire) == 0
    requires !IsSyn(p) && !IsFin(p) && SentAt(p, |sent|, iss, sent + p.payload)
    ensures Spoken(Established, wire + [p], ack, iss, sent + p.payload)
  {
    hide SentAt, Announced, Announces, Ended;
    var longer, grown := wire + [p], sent + p.payload;
    forall i | 0 <= i < |longer| ensures Placed(longer[i], iss, |grown|) {
      if i < |wire| {
        assert Placed(wire[i], iss, |sent|);
        if IsFin(wire[i]) {
          FinsCounted(wire, i);
        }
      }
    }
    forall off: nat | off < |grown| ensures Transmitted(off, longer, iss, grown) {
      if off < |sent| {
        assert Transmitted(off, wire, iss, sent);
        var i :| 0 <= i < |wire| && Covers(wire[i], off, iss, sent);
        CoversGrows(wire[i], off, iss, sent, p.payload);
        assert longer[i] == wire[i];
      } else {
        assert Covers(p, off, iss, grown);
        assert longer[|wire|] == p;
      }
    }
    Extends(wire, p, iss, grown, ack);
  }

  /** `ack` is the word for everything delivered plus the bumps. */
  lemma AckIsLimit(ack: u32, irs: u32, delivered: nat)
    ensures ack == Mod32(irs + 1 + delivered + Bumps(ack, irs, delivered))
  {
  }

  lemma BumpsDeliver(ack: u32, irs: u32, delivered: nat, b: seq<byte>)
    ensures Bumps(WrapAdd(ack, Len32(b)), irs, delivered + |b|) == Bumps(ack, irs, delivered)
  {
    hide Mod32, WrapAdd, WrapSub;
    Mod32Plus(irs + 1 + delivered, |b|);
    WrapShift(ack, Mod32(irs + 1 + delivered), Len32(b));
  }

  lemma BumpsOne(ack: u32, irs: u32, delivered: nat)
    requires Bumps(ack, irs, delivered) < 2
    ensures Bumps(WrapAdd(ack, 1), irs, delivered) == Bumps(ack, irs, delivered) + 1
  {
  }
}

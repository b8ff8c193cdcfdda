/**
 The TCP control block as a value (src/stream/tcb.rs): its fields, and what each
 operation makes of them. The class `Tcb` in module ControlBlock does the same in place.
 */
module TcbSpec {
  import opened Words
  import opened Packets

  const MAX_UNACK: u32 := 16384
  const READ_BUFFER_SIZE: nat := 16384

  datatype TcpState =
    | SynReceived(synAckSent: bool)
    | Established
    | FinWait1(peerClosed: bool)
    | FinWait2(waitingForAck: bool)
    | Closed

  datatype PacketStatus = WindowUpdate | Invalid | RetransmissionRequest | NewPacket | Ack | KeepAlive

  datatype InflightPacket = InflightPacket(seqno: u32, payload: seq<byte>)

  /** The truncating running average of the send windows and the number of samples in it. */
  datatype Average = Average(avg: nat, count: nat)

  datatype TcbState = TcbState(
    seqno: u32,
    retransmission: Option<u32>,
    ack: u32,
    lastAck: u32,
    recvWindow: u16,
    sendWindow: u16,
    state: TcpState,
    average: Average,
    inflight: seq<InflightPacket>,
    unordered: map<u32, seq<byte>>)

  function NewTcb(iss: u32, ack: u32): TcbState {
    TcbState(iss, None, ack, iss, 0, 0xFFFF, SynReceived(false), Average(1, 1), [], map[])
  }

  // --- Sending ---

  function AddInflight(t: TcbState, q: u32, buf: seq<byte>): TcbState {
    t.(inflight := t.inflight + [InflightPacket(q, buf)], seqno := WrapAdd(t.seqno, Len32(buf)))
  }

  function AddSeqOne(t: TcbState): TcbState {
    t.(seqno := WrapAdd(t.seqno, 1))
  }

  /** Sequence number after the last byte of a packet. */
  function End(p: InflightPacket): u32 {
    WrapAdd(p.seqno, Len32(p.payload))
  }

  /** `InflightPacket::contains`: the acknowledgement covers some byte of the packet. */
  predicate Contains(p: InflightPacket, a: u32) {
    p.seqno < a <= End(p)
  }

  /** Index of the first packet that contains `a`, or the length of the list. */
  function FirstContaining(l: seq<InflightPacket>, a: u32): (i: nat)
    ensures i <= |l|
    ensures i < |l| ==> Contains(l[i], a)
    ensures forall j :: 0 <= j < i ==> !Contains(l[j], a)
  {
    if l == [] || Contains(l[0], a) then 0 else 1 + FirstContaining(l[1..], a)
  }

  /** Removes the first packet containing `a`; what `a` leaves of it goes back at the END of the list. */
  function Trim(l: seq<InflightPacket>, a: u32): seq<InflightPacket> {
    var i := FirstContaining(l, a);
    if i == |l| then l
    else
      var distance := WrapSub(a, l[i].seqno);
      var rest := l[..i] + l[i + 1..];
      if distance < |l[i].payload| then rest + [InflightPacket(a, l[i].payload[distance..])] else rest
  }

  predicate Unacked(p: InflightPacket, a: u32) {
    SatSub(End(p), a) > 0
  }

  function Retain(l: seq<InflightPacket>, a: u32): seq<InflightPacket> {
    if l == [] then []
    else if Unacked(l[0], a) then [l[0]] + Retain(l[1..], a)
    else Retain(l[1..], a)
  }

  function ChangeLastAck(t: TcbState, a: u32): TcbState {
    var t1 := t.(lastAck := WrapAdd(t.lastAck, WrapSub(a, t.lastAck)));
    if t.state == Established then t1.(inflight := Retain(Trim(t.inflight, a), t1.lastAck)) else t1
  }

  predicate SendBufferFull(t: TcbState) {
    WrapSub(t.seqno, t.lastAck) >= MAX_UNACK
  }

  function Observe(a: Average, window: u16): Average {
    Average((a.avg * a.count + window) / (a.count + 1), a.count + 1)
  }

  function ChangeSendWindow(t: TcbState, window: u16): TcbState {
    t.(average := Observe(t.average, window), sendWindow := window)
  }

  // --- Receiving ---

  function AddAck(t: TcbState, n: u32): TcbState {
    t.(ack := WrapAdd(t.ack, n))
  }

  function AddUnordered(t: TcbState, q: u32, buf: seq<byte>): TcbState {
    if q < t.ack then t else t.(unordered := t.unordered[q := buf])
  }

  /** The buffered payload that starts at `ack`, which `get_unordered_packets` removes from the map. */
  function NextUnordered(t: TcbState): Option<seq<byte>> {
    if t.ack in t.unordered then Some(t.unordered[t.ack]) else None
  }

  function TakeUnordered(t: TcbState): TcbState {
    t.(unordered := t.unordered - {t.ack})
  }

  ghost function BufferedBytes(m: map<u32, seq<byte>>): nat
    decreases |m|
  {
    if m == map[] then 0 else var k :| k in m; |m[k]| + BufferedBytes(m - {k})
  }

  ghost function AvailableReadBuffer(t: TcbState): u16 {
    SatSub(READ_BUFFER_SIZE, BufferedBytes(t.unordered))
  }

  function ChangeRecvWindow(t: TcbState, window: u16): TcbState {
    t.(recvWindow := window)
  }

  /** The fold over the map does not depend on the order of the keys. */
  lemma {:induction false} BufferedBytesRemove(m: map<u32, seq<byte>>, k: u32)
    requires k in m
    ensures BufferedBytes(m) == |m[k]| + BufferedBytes(m - {k})
    decreases |m|
  {
    var j :| j in m && BufferedBytes(m) == |m[j]| + BufferedBytes(m - {j});
    if j != k {
      BufferedBytesRemove(m - {j}, k);
      BufferedBytesRemove(m - {k}, j);
      assert m - {j} - {k} == m - {k} - {j};
    }
  }

  /** Storing a segment at a fresh key takes exactly its length from the read buffer. */
  lemma BufferedBytesInsert(t: TcbState, q: u32, buf: seq<byte>)
    requires t.ack <= q && q !in t.unordered
    ensures BufferedBytes(AddUnordered(t, q, buf).unordered) == BufferedBytes(t.unordered) + |buf|
  {
    var m := t.unordered[q := buf];
    BufferedBytesRemove(m, q);
    assert m - {q} == t.unordered;
  }

  // --- Classifying a segment ---

  function CheckPktType(t: TcbState, h: TcpHeader, payload: seq<byte>): PacketStatus {
    var receivedAckDistance := WrapSub(t.seqno, h.ackno);
    var currentAckDistance := WrapSub(t.seqno, t.lastAck);
    if receivedAckDistance > currentAckDistance || (h.ackno != t.seqno && SatSub(t.seqno, h.ackno) == 0) then
      Invalid
    else if t.lastAck == h.ackno then
      if payload != [] then NewPacket
      else if t.sendWindow == h.window && t.seqno != t.lastAck then RetransmissionRequest
      else if WrapSub(t.ack, 1) == h.seqno then KeepAlive
      else WindowUpdate
    else if t.lastAck < h.ackno then
      if payload != [] then NewPacket else Ack
    else
      Invalid
  }

  /** The acceptable-ACK test of section 3.10.7.4 of RFC 9293, with SND.UNA = lastAck and SND.NXT = seqno. */
  predicate Rfc9293AckInWindow(t: TcbState, ackno: u32) {
    WrapSub(ackno, t.lastAck) <= WrapSub(t.seqno, t.lastAck)
  }

  /**
   A segment passes exactly when its acknowledgement lies between `lastAck` and `seqno`
   as plain numbers, and then it also passes the modular test of the standard.
   */
  lemma AcceptedIffPlainlyBetween(t: TcbState, h: TcpHeader, payload: seq<byte>)
    ensures CheckPktType(t, h, payload) != Invalid <==> t.lastAck <= h.ackno <= t.seqno
    ensures CheckPktType(t, h, payload) != Invalid ==> Rfc9293AckInWindow(t, h.ackno)
  {
  }

  /** The test agrees with the standard on every segment exactly while the window has not wrapped. */
  lemma AcceptanceIsStandardIffUnwrapped(t: TcbState)
    ensures (forall h: TcpHeader, payload: seq<byte> ::
               CheckPktType(t, h, payload) != Invalid <==> Rfc9293AckInWindow(t, h.ackno))
            <==> t.lastAck <= t.seqno
  {
    if t.lastAck > t.seqno {
      var h := TcpHeader(0, 0, 0, t.lastAck, 0, ACK);
      var payload: seq<byte> := [];
      assert Rfc9293AckInWindow(t, h.ackno) && CheckPktType(t, h, payload) == Invalid;
    }
  }

  /**
   Every class by the fields of the header, the rest of the segment aside. A request to retransmit is exactly a
   duplicate acknowledgement in the sense of section 2 of RFC 5681; what else repeats `lastAck` without payload
   is a keep-alive probe when it lies one below `ack`, and a window update otherwise.
   */
  lemma SegmentClasses(t: TcbState, h: TcpHeader, payload: seq<byte>)
    ensures var duplicate := h.ackno == t.lastAck < t.seqno && h.window == t.sendWindow;
            var repeats := payload == [] && h.ackno == t.lastAck <= t.seqno && !duplicate;
            var below := (h.seqno + 1) % 0x1_0000_0000 == t.ack;
            match CheckPktType(t, h, payload)
            case Invalid => !(t.lastAck <= h.ackno <= t.seqno)
            case RetransmissionRequest => payload == [] && duplicate
            case KeepAlive => repeats && below
            case WindowUpdate => repeats && !below
            case NewPacket => payload != [] && t.lastAck <= h.ackno <= t.seqno
            case Ack => payload == [] && t.lastAck < h.ackno <= t.seqno
  {
  }
}

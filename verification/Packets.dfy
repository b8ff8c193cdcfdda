/** Packets, headers and the tuples that name a session (src/packet.rs). */
module Packets {
  import opened Words

  const TTL: byte := 64
  const DROP_TTL: byte := 0
  const IPV4_HEADER: nat := 20
  const IPV6_HEADER: nat := 40
  const TCP_HEADER: nat := 20
  const PROTOCOL_TCP: byte := 6
  const PROTOCOL_UDP: byte := 17

  datatype IpAddr = V4(v4: u32) | V6(v6: u128)

  datatype SocketAddr = SocketAddr(ip: IpAddr, port: u16)

  /** The eight flag bits that `TcpHeaderWrapper::flags` collects. */
  datatype Flags = Flags(cwr: bool, ece: bool, urg: bool, ack: bool, psh: bool, rst: bool, syn: bool, fin: bool)

  const NON := Flags(false, false, false, false, false, false, false, false)
  const ACK := NON.(ack := true)
  const PSH_ACK := ACK.(psh := true)
  const FIN_ACK := ACK.(fin := true)
  const SYN_ACK := ACK.(syn := true)
  const RST_ACK := ACK.(rst := true)

  datatype TcpHeader = TcpHeader(sourcePort: u16, destinationPort: u16, seqno: u32, ackno: u32, window: u16, flags: Flags)

  datatype UdpHeader = UdpHeader(sourcePort: u16, destinationPort: u16)

  datatype Transport = Tcp(tcp: TcpHeader) | Udp(udp: UdpHeader) | Unknown

  datatype IpHeader =
    | Ipv4(source4: u32, destination4: u32, ttl: byte, protocol: byte, length4: u16)
    | Ipv6(source6: u128, destination6: u128, hopLimit: byte, nextHeader: byte, length6: u16)

  datatype NetworkPacket = NetworkPacket(ip: IpHeader, transport: Transport, payload: seq<byte>)

  datatype NetworkTuple = NetworkTuple(src: SocketAddr, dst: SocketAddr, tcp: bool)

  predicate SameFamily(a: IpAddr, b: IpAddr) {
    a.V4? <==> b.V4?
  }

  /** The two ends of a stream: the peer inside the tunnel (src) and the address it dialled (dst). */
  datatype RawEndpoints = Endpoints(src: SocketAddr, dst: SocketAddr)

  type Endpoints = e: RawEndpoints | SameFamily(e.src.ip, e.dst.ip)
    witness Endpoints(SocketAddr(V4(0), 0), SocketAddr(V4(0), 0))

  function SourcePort(t: Transport): u16 {
    match t
    case Udp(h) => h.sourcePort
    case Tcp(h) => h.sourcePort
    case Unknown => 0
  }

  function DestinationPort(t: Transport): u16 {
    match t
    case Udp(h) => h.destinationPort
    case Tcp(h) => h.destinationPort
    case Unknown => 0
  }

  function SrcAddr(p: NetworkPacket): SocketAddr {
    var ip := match p.ip
      case Ipv4(s, _, _, _, _) => V4(s)
      case Ipv6(s, _, _, _, _) => V6(s);
    SocketAddr(ip, SourcePort(p.transport))
  }

  function DstAddr(p: NetworkPacket): SocketAddr {
    var ip := match p.ip
      case Ipv4(_, d, _, _, _) => V4(d)
      case Ipv6(_, d, _, _, _) => V6(d);
    SocketAddr(ip, DestinationPort(p.transport))
  }

  function Ttl(p: NetworkPacket): byte {
    match p.ip
    case Ipv4(_, _, ttl, _, _) => ttl
    case Ipv6(_, _, hopLimit, _, _) => hopLimit
  }

  function TupleOf(p: NetworkPacket): NetworkTuple {
    NetworkTuple(SrcAddr(p), DstAddr(p), p.transport.Tcp?)
  }

  function ReverseTupleOf(p: NetworkPacket): NetworkTuple {
    NetworkTuple(DstAddr(p), SrcAddr(p), p.transport.Tcp?)
  }

  /** Two packets belong to one session exactly when they agree on both addresses, both ports and the protocol. */
  lemma TupleDecides(p: NetworkPacket, q: NetworkPacket)
    requires !p.transport.Unknown? && !q.transport.Unknown?
    ensures TupleOf(p) == TupleOf(q) <==>
            && (match (p.ip, q.ip)
                case (Ipv4(s, d, _, _, _), Ipv4(s', d', _, _, _)) => s == s' && d == d'
                case (Ipv6(s, d, _, _, _), Ipv6(s', d', _, _, _)) => s == s' && d == d'
                case _ => false)
            && (match (p.transport, q.transport)
                case (Tcp(g), Tcp(h)) => g.sourcePort == h.sourcePort && g.destinationPort == h.destinationPort
                case (Udp(g), Udp(h)) => g.sourcePort == h.sourcePort && g.destinationPort == h.destinationPort
                case _ => false)
  {
  }

  /** An IP header from the dialled address back to the peer. */
  function ReplyHeader(ends: Endpoints, ttl: byte, protocol: byte, length: u16): (h: IpHeader)
    ensures h.Ipv4? <==> ends.src.ip.V4?
  {
    if ends.src.ip.V4? then
      Ipv4(ends.dst.ip.v4, ends.src.ip.v4, ttl, protocol, length)
    else
      Ipv6(ends.dst.ip.v6, ends.src.ip.v6, ttl, protocol, length)
  }

  // --- The flag byte ---

  function Bit(b: bool, mask: bv8): bv8 {
    if b then mask else 0
  }

  /** The byte that `flags` returns for a header. */
  function FlagByte(f: Flags): bv8 {
    Bit(f.cwr, 0x80) | Bit(f.ece, 0x40) | Bit(f.urg, 0x20) | Bit(f.ack, 0x10) |
    Bit(f.psh, 0x08) | Bit(f.rst, 0x04) | Bit(f.syn, 0x02) | Bit(f.fin, 0x01)
  }

  /** The flags a byte stands for, read off bit by bit as `create_rev_packet` does. */
  function FlagsFrom(b: bv8): Flags {
    Flags(b & 0x80 != 0, b & 0x40 != 0, b & 0x20 != 0, b & 0x10 != 0,
          b & 0x08 != 0, b & 0x04 != 0, b & 0x02 != 0, b & 0x01 != 0)
  }

  /** Accumulates the flag byte as the source does, one bit at a time. */
  method FlagBits(f: Flags) returns (flags: bv8)
    ensures flags == FlagByte(f)
    ensures FlagsFrom(flags) == f
  {
    flags := 0;
    if f.cwr { flags := flags | 0x80; }
    if f.ece { flags := flags | 0x40; }
    if f.urg { flags := flags | 0x20; }
    if f.ack { flags := flags | 0x10; }
    if f.psh { flags := flags | 0x08; }
    if f.rst { flags := flags | 0x04; }
    if f.syn { flags := flags | 0x02; }
    if f.fin { flags := flags | 0x01; }
    FlagByteRoundTrip(f);
  }

  lemma FlagByteRoundTrip(f: Flags)
    ensures FlagsFrom(FlagByte(f)) == f
  {
  }

  /** Comparing flag bytes, as `poll_read` does, is comparing the flags themselves. */
  lemma FlagBytesDecide(f: Flags, g: Flags)
    ensures FlagByte(f) == FlagByte(g) <==> f == g
  {
    FlagByteRoundTrip(f);
    FlagByteRoundTrip(g);
  }
}

/** Sending over an unknown transport: the IPv4 loop that cuts a payload into packets (src/stream/unknown.rs). */
module Fragments {
  import opened Words
  import opened Packets

  datatype Sender = Sender(ends: Endpoints, protocol: byte, mtu: u16)

  /** What the link leaves for payload after an IP header of 20 or 40 bytes. */
  function Line(s: Sender): (n: nat)
    ensures n == Max(0, if s.ends.src.ip.V4? then s.mtu - 20 else s.mtu - 40)
  {
    SatSub(s.mtu, if s.ends.src.ip.V4? then IPV4_HEADER else IPV6_HEADER)
  }

  /** `create_rev_packet`: the packet and what is left of the payload. */
  function CreateRevPacket(s: Sender, payload: seq<byte>): (NetworkPacket, seq<byte>) {
    var head := Truncate(payload, Line(s));
    if s.ends.src.ip.V4? then
      (NetworkPacket(ReplyHeader(s.ends, TTL, s.protocol, |head|), Unknown, head), payload[|head|..])
    else
      (NetworkPacket(ReplyHeader(s.ends, TTL, PROTOCOL_UDP, |head|), Unknown, head), [])
  }

  function Payloads(ps: seq<NetworkPacket>): seq<byte> {
    if ps == [] then [] else Payloads(ps[..|ps| - 1]) + ps[|ps| - 1].payload
  }

  /** ceil(n / line), and one packet for nothing. */
  function Pieces(n: nat, line: nat): nat
    requires 0 < line
  {
    if n <= line then 1 else 1 + Pieces(n - line, line)
  }

  lemma {:induction false} PiecesIsCeiling(n: nat, line: nat)
    requires 0 < line
    ensures Pieces(n, line) == if n == 0 then 1 else (n + line - 1) / line
  {
    if n <= line {
      if 0 < n {
        QuotientIs(n + line - 1, line, 1);
      }
    } else {
      PiecesIsCeiling(n - line, line);
      var q := (n - 1) / line;
      assert n - 1 == q * line + (n - 1) % line;
      assert (q + 1) * line == q * line + line;
      QuotientIs(n + line - 1, line, q + 1);
    }
  }

  lemma QuotientIs(x: nat, n: nat, q: nat)
    requires 0 < n && q * n <= x < q * n + n
    ensures x / n == q
  {
    var r := x / n;
    assert x == r * n + x % n;
    if r < q {
      MulStrict(r, q, n);
    }
    if q < r {
      MulStrict(q, r, n);
    }
  }

  lemma PayloadsAppend(ps: seq<NetworkPacket>, p: NetworkPacket)
    ensures Payloads(ps + [p]) == Payloads(ps) + p.payload
  {
    assert (ps + [p])[..|ps|] == ps;
  }

  /** A packet that fits the link with its header, goes back to the peer and has its length field right. */
  ghost predicate Fits(s: Sender, p: NetworkPacket) {
    var header := if s.ends.src.ip.V4? then 20 else 40;
    && header + |p.payload| <= Max(s.mtu, header)
    && p.transport.Unknown?
    && p.ip == if s.ends.src.ip.V4?
               then Ipv4(s.ends.dst.ip.v4, s.ends.src.ip.v4, 64, s.protocol, |p.payload|)
               else Ipv6(s.ends.dst.ip.v6, s.ends.src.ip.v6, 64, 17, |p.payload|)
  }

  /** One turn: over IPv4 the packet takes a full line, or all that is left. */
  lemma TurnFits(s: Sender, payload: seq<byte>)
    ensures var (p, left) := CreateRevPacket(s, payload);
            && Fits(s, p)
            && (s.ends.src.ip.V4? ==> p.payload + left == payload)
            && (left != [] ==> s.ends.src.ip.V4? && |p.payload| == Line(s) && |left| == |payload| - Line(s))
            && (left == [] && s.ends.src.ip.V4? ==> |payload| <= Line(s))
            && (s.ends.src.ip.V6? ==> p.payload == Truncate(payload, Line(s)))
  {
  }

  /**
   The loop of `send`. Over IPv4 it conserves the payload, in as few packets as the link allows;
   over IPv6 it sends one packet and drops what does not fit. With no room for payload the IPv4
   loop would not end.
   */
  method Send(s: Sender, payload: seq<byte>) returns (ps: seq<NetworkPacket>)
    requires s.ends.src.ip.V4? && payload != [] ==> 0 < Line(s)
    ensures forall i :: 0 <= i < |ps| ==> Fits(s, ps[i])
    ensures s.ends.src.ip.V4? ==> Payloads(ps) == payload
    ensures s.ends.src.ip.V4? ==> |ps| == if payload == [] then 1 else Pieces(|payload|, Line(s))
    ensures s.ends.src.ip.V4? ==> forall i :: 0 <= i < |ps| - 1 ==> |ps[i].payload| == Line(s)
    ensures s.ends.src.ip.V6? ==> |ps| == 1 && ps[0].payload == Truncate(payload, Line(s))
  {
    hide Fits, CreateRevPacket, Line, Truncate;
    var rest := payload;
    ps := [];
    while true
      invariant forall i :: 0 <= i < |ps| ==> Fits(s, ps[i])
      invariant ps == [] ==> rest == payload
      invariant ps != [] ==> s.ends.src.ip.V4? && rest != []
      invariant Payloads(ps) + rest == payload
      invariant payload != [] && s.ends.src.ip.V4? ==> |ps| + Pieces(|rest|, Line(s)) == Pieces(|payload|, Line(s))
      invariant s.ends.src.ip.V4? ==> forall i :: 0 <= i < |ps| ==> |ps[i].payload| == Line(s)
      decreases |rest|
    {
      var (p, left) := CreateRevPacket(s, rest);
      TurnFits(s, rest);
      PayloadsAppend(ps, p);
      assert s.ends.src.ip.V4? ==> Payloads(ps) + p.payload + left == Payloads(ps) + rest;
      ps := ps + [p];
      rest := left;
      if rest == [] {
        return;
      }
    }
  }

  /** What is left after `k` turns of the loop. */
  ghost function LeftAfter(s: Sender, payload: seq<byte>, k: nat): seq<byte>
    decreases k
  {
    if k == 0 then payload else LeftAfter(s, CreateRevPacket(s, payload).1, k - 1)
  }

  /** The loop is left after turn `k`. */
  ghost predicate EndsAfter(s: Sender, payload: seq<byte>, k: nat) {
    0 < k && LeftAfter(s, payload, k) == []
  }

  /** The IPv4 loop ends exactly when there is room for payload or nothing to send. */
  lemma LoopEndsIff(s: Sender, payload: seq<byte>)
    requires s.ends.src.ip.V4?
    ensures (exists k: nat :: EndsAfter(s, payload, k)) <==> (0 < Line(s) || payload == [])
  {
    hide CreateRevPacket, LeftAfter, Line;
    if 0 < Line(s) {
      var k := TurnsNeeded(s, payload);
      assert EndsAfter(s, payload, k);
    } else if payload == [] {
      StandsStill(s, payload, 1);
      assert EndsAfter(s, payload, 1);
    } else {
      forall k: nat ensures !EndsAfter(s, payload, k) {
        StandsStill(s, payload, k);
      }
    }
  }

  lemma {:induction false} StandsStill(s: Sender, payload: seq<byte>, k: nat)
    requires s.ends.src.ip.V4? && Line(s) == 0
    ensures LeftAfter(s, payload, k) == payload
  {
    if 0 < k {
      assert CreateRevPacket(s, payload).1 == payload;
      StandsStill(s, payload, k - 1);
    }
  }

  lemma {:induction false} TurnsNeeded(s: Sender, payload: seq<byte>) returns (k: nat)
    requires s.ends.src.ip.V4? && 0 < Line(s)
    ensures 0 < k && LeftAfter(s, payload, k) == []
    decreases |payload|
  {
    var left := CreateRevPacket(s, payload).1;
    k := 1;
    if left != [] {
      var more := TurnsNeeded(s, left);
      k := more + 1;
    } else {
      assert LeftAfter(s, left, 0) == [];
    }
  }
}

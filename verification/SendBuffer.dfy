/**
 The list of in-flight packets refines a plain byte queue: in some order its packets lie
 end to end and spell the bytes not yet acknowledged.
 */
module SendBuffer {
  import opened Words
  import opened TcbSpec

  /** The packets of `order`, end to end from sequence number `lo`, spell `data`. */
  ghost predicate Lays(order: seq<InflightPacket>, lo: int, data: seq<byte>) {
    if order == [] then data == []
    else
      && order[0].seqno == lo
      && order[0].payload <= data
      && Lays(order[1..], lo + |order[0].payload|, data[|order[0].payload|..])
  }

  ghost predicate Arranges(order: seq<InflightPacket>, l: seq<InflightPacket>, lo: int, data: seq<byte>) {
    multiset(order) == multiset(l) && Lays(order, lo, data)
  }

  /** The list, rearranged, is the byte queue `data` that starts at `lo`. */
  ghost predicate Represents(l: seq<InflightPacket>, lo: int, data: seq<byte>) {
    exists order :: Arranges(order, l, lo, data)
  }

  // --- Writing appends ---

  lemma {:induction false} LaysAppend(order: seq<InflightPacket>, lo: int, data: seq<byte>, p: InflightPacket)
    requires Lays(order, lo, data) && p.seqno == lo + |data|
    ensures Lays(order + [p], lo, data + p.payload)
  {
    var longer := order + [p];
    if order == [] {
      assert longer[1..] == [];
    } else {
      var n := |order[0].payload|;
      LaysAppend(order[1..], lo + n, data[n..], p);
      assert longer[1..] == order[1..] + [p];
      assert (data + p.payload)[n..] == data[n..] + p.payload;
    }
  }

  lemma AppendRepresents(l: seq<InflightPacket>, lo: int, data: seq<byte>, p: InflightPacket)
    requires Represents(l, lo, data) && p.seqno == lo + |data|
    ensures Represents(l + [p], lo, data + p.payload)
  {
    var order :| Arranges(order, l, lo, data);
    LaysAppend(order, lo, data, p);
    assert Arranges(order + [p], l + [p], lo, data + p.payload);
  }

  // --- What is in the list ---

  /** `p` is the piece of the queue that its sequence number says. */
  ghost predicate PieceOf(p: InflightPacket, lo: int, data: seq<byte>) {
    && lo <= p.seqno
    && p.seqno - lo + |p.payload| <= |data|
    && p.payload == data[p.seqno - lo..p.seqno - lo + |p.payload|]
  }

  lemma PieceOfSuffix(p: InflightPacket, lo: int, data: seq<byte>, n: nat)
    requires n <= |data| && PieceOf(p, lo + n, data[n..])
    ensures PieceOf(p, lo, data)
  {
    var k := p.seqno - lo - n;
    assert data[n..][k..k + |p.payload|] == data[n + k..n + k + |p.payload|];
  }

  lemma {:induction false} LaysInside(order: seq<InflightPacket>, lo: int, data: seq<byte>, p: InflightPacket)
    requires Lays(order, lo, data) && p in order
    ensures PieceOf(p, lo, data)
  {
    if p != order[0] {
      var n := |order[0].payload|;
      assert p in order[1..];
      LaysInside(order[1..], lo + n, data[n..], p);
      PieceOfSuffix(p, lo, data, n);
    }
  }

  /** Every packet of the list is the piece of the queue that its sequence number says. */
  lemma RepresentsInside(l: seq<InflightPacket>, lo: int, data: seq<byte>, p: InflightPacket)
    requires Represents(l, lo, data) && p in l
    ensures PieceOf(p, lo, data)
  {
    var order :| Arranges(order, l, lo, data);
    assert p in multiset(l);
    assert p in order;
    LaysInside(order, lo, data, p);
  }

  /** A non-empty queue has a packet at its very first byte. */
  lemma RepresentsHead(l: seq<InflightPacket>, lo: int, data: seq<byte>)
    requires Represents(l, lo, data) && data != []
    ensures exists p :: p in l && p.seqno == lo
  {
    var order :| Arranges(order, l, lo, data);
    assert order[0] in multiset(order);
    assert order[0] in l;
  }

  // --- Acknowledging drops a prefix ---

  lemma {:induction false} RetainCount(l: seq<InflightPacket>, a: u32, x: InflightPacket)
    ensures multiset(Retain(l, a))[x] == if Unacked(x, a) then multiset(l)[x] else 0
  {
    if l != [] {
      RetainCount(l[1..], a, x);
      assert l == [l[0]] + l[1..];
    }
  }

  lemma RetainPermutes(l: seq<InflightPacket>, m: seq<InflightPacket>, a: u32)
    requires multiset(l) == multiset(m)
    ensures multiset(Retain(l, a)) == multiset(Retain(m, a))
  {
    forall x ensures multiset(Retain(l, a))[x] == multiset(Retain(m, a))[x] {
      RetainCount(l, a, x);
      RetainCount(m, a, x);
    }
  }

  /** What an acknowledgement does to packets that lie in order. */
  ghost function Acked(order: seq<InflightPacket>, a: u32): seq<InflightPacket> {
    if order == [] then []
    else if order[0].seqno + |order[0].payload| <= a then Acked(order[1..], a)
    else if a <= order[0].seqno then order
    else [InflightPacket(a, order[0].payload[a - order[0].seqno..])] + order[1..]
  }

  lemma {:induction false} AckedLays(order: seq<InflightPacket>, lo: int, data: seq<byte>, a: u32)
    requires Lays(order, lo, data) && lo <= a <= lo + |data|
    ensures Lays(Acked(order, a), a, data[a - lo..])
  {
    if order != [] {
      var n := |order[0].payload|;
      if lo + n <= a {
        AckedLays(order[1..], lo + n, data[n..], a);
        assert data[n..][a - lo - n..] == data[a - lo..];
      } else if lo < a {
        var left := order[0].payload[a - lo..];
        assert left == data[a - lo..n];
        assert data[a - lo..][|left|..] == data[n..];
        assert Acked(order, a)[1..] == order[1..];
      }
    }
  }

  lemma {:induction false} LaysAbove(order: seq<InflightPacket>, lo: int, data: seq<byte>, a: u32)
    requires Lays(order, lo, data) && a < lo && lo + |data| < TWO32
    ensures Retain(order, a) == order
    ensures forall q :: q in order ==> !Contains(q, a)
  {
    if order != [] {
      var n := |order[0].payload|;
      LaysAbove(order[1..], lo + n, data[n..], a);
      assert order == [order[0]] + order[1..];
    }
  }

  /** Some packet has `a` strictly inside. */
  ghost predicate Straddles(p: InflightPacket, a: u32) {
    p.seqno < a < p.seqno + |p.payload|
  }

  lemma DropFirst(order: seq<InflightPacket>, a: u32)
    requires order != [] && order[0].seqno + |order[0].payload| <= a
    ensures Retain(order, a) == Retain(order[1..], a)
    ensures Acked(order, a) == Acked(order[1..], a)
  {
  }

  lemma KeepFrom(order: seq<InflightPacket>, lo: int, data: seq<byte>, a: u32)
    requires Lays(order, lo, data) && lo + |data| < TWO32
    requires order != [] && a <= order[0].seqno && a < order[0].seqno + |order[0].payload|
    ensures Retain(order, a) == order && Acked(order, a) == order
  {
    var n := |order[0].payload|;
    LaysAbove(order[1..], lo + n, data[n..], a);
    assert Unacked(order[0], a);
  }

  lemma {:induction false} AckedRetains(order: seq<InflightPacket>, lo: int, data: seq<byte>, a: u32)
    requires Lays(order, lo, data) && lo <= a <= lo + |data| < TWO32
    requires forall q :: q in order ==> !Straddles(q, a)
    ensures Acked(order, a) == Retain(order, a)
  {
    if order != [] {
      hide Retain, Acked;
      var n := |order[0].payload|;
      assert order[0] in order;
      if lo + n <= a {
        DropFirst(order, a);
        AckedRetains(order[1..], lo + n, data[n..], a);
      } else {
        KeepFrom(order, lo, data, a);
      }
    }
  }

  /** What an acknowledgement strictly inside a packet leaves of it. */
  ghost function Cut(p: InflightPacket, a: u32): InflightPacket
    requires p.seqno < a <= p.seqno + |p.payload|
  {
    InflightPacket(a, p.payload[a - p.seqno..])
  }

  lemma {:induction false} OneContains(order: seq<InflightPacket>, lo: int, data: seq<byte>, a: u32, p: InflightPacket, q: InflightPacket)
    requires Lays(order, lo, data) && lo + |data| < TWO32
    requires p in order && q in order && Contains(p, a) && Contains(q, a)
    ensures p == q
  {
    var n := |order[0].payload|;
    var rest := order[1..];
    assert order == [order[0]] + rest;
    if p in rest && q in rest {
      OneContains(rest, lo + n, data[n..], a, p, q);
    } else if p in rest {
      LaysInside(rest, lo + n, data[n..], p);
    } else if q in rest {
      LaysInside(rest, lo + n, data[n..], q);
    }
  }

  lemma CutFirst(order: seq<InflightPacket>, lo: int, data: seq<byte>, a: u32)
    requires Lays(order, lo, data) && lo + |data| < TWO32
    requires order != [] && Straddles(order[0], a)
    ensures Retain(order, a) == [order[0]] + order[1..]
    ensures Acked(order, a) == [Cut(order[0], a)] + order[1..]
  {
    var n := |order[0].payload|;
    LaysAbove(order[1..], lo + n, data[n..], a);
    assert Unacked(order[0], a);
  }

  lemma {:induction false} AckedTrims(order: seq<InflightPacket>, lo: int, data: seq<byte>, a: u32, p: InflightPacket)
    returns (tail: seq<InflightPacket>)
    requires Lays(order, lo, data) && lo <= a <= lo + |data| < TWO32
    requires p in order && Straddles(p, a)
    ensures Retain(order, a) == [p] + tail
    ensures Acked(order, a) == [Cut(p, a)] + tail
  {
    hide Retain, Acked;
    var n := |order[0].payload|;
    if p in order[1..] {
      LaysInside(order[1..], lo + n, data[n..], p);
      DropFirst(order, a);
      tail := AckedTrims(order[1..], lo + n, data[n..], a, p);
    } else {
      CutFirst(order, lo, data, a);
      tail := order[1..];
    }
  }

  lemma RemoveAt(l: seq<InflightPacket>, i: nat)
    requires i < |l|
    ensures multiset(l[..i] + l[i + 1..]) + multiset{l[i]} == multiset(l)
  {
    assert l == l[..i] + [l[i]] + l[i + 1..];
  }

  /** The shape of a trimmed list, without its indices. */
  lemma TrimForm(l: seq<InflightPacket>, a: u32, p: InflightPacket) returns (rest: seq<InflightPacket>)
    requires p in l && Contains(p, a)
    requires forall q :: q in l && Contains(q, a) ==> q == p
    ensures multiset(rest) + multiset{p} == multiset(l)
    ensures Trim(l, a) == if WrapSub(a, p.seqno) < |p.payload|
                          then rest + [InflightPacket(a, p.payload[WrapSub(a, p.seqno)..])]
                          else rest
  {
    var i := FirstContaining(l, a);
    assert l[i] == p;
    rest := l[..i] + l[i + 1..];
    RemoveAt(l, i);
  }

  lemma RetainWithout(l: seq<InflightPacket>, rest: seq<InflightPacket>, p: InflightPacket, a: u32)
    requires multiset(rest) + multiset{p} == multiset(l)
    ensures multiset(Retain(l, a)) == multiset(Retain(rest, a)) + (if Unacked(p, a) then multiset{p} else multiset{})
  {
    RetainConcat(rest, [p], a);
    RetainPermutes(rest + [p], l, a);
    assert Retain([p], a) == if Unacked(p, a) then [p] else [];
  }

  lemma {:induction false} RetainConcat(l: seq<InflightPacket>, m: seq<InflightPacket>, a: u32)
    ensures Retain(l + m, a) == Retain(l, a) + Retain(m, a)
  {
    hide Unacked;
    if l == [] {
      assert l + m == m;
    } else {
      RetainConcat(l[1..], m, a);
      assert (l + m)[0] == l[0];
      assert (l + m)[1..] == l[1..] + m;
    }
  }

  lemma InSameMultiset(l: seq<InflightPacket>, m: seq<InflightPacket>, p: InflightPacket)
    requires multiset(l) == multiset(m) && p in l
    ensures p in m
  {
    assert p in multiset(l);
  }

  lemma TrimFormInOrder(l: seq<InflightPacket>, order: seq<InflightPacket>, lo: int, data: seq<byte>, a: u32, p: InflightPacket)
    returns (rest: seq<InflightPacket>)
    requires Arranges(order, l, lo, data) && lo + |data| < TWO32
    requires p in l && Contains(p, a)
    ensures multiset(rest) + multiset{p} == multiset(l)
    ensures PieceOf(p, lo, data)
    ensures Trim(l, a) == if Straddles(p, a) then rest + [Cut(p, a)] else rest
  {
    hide Trim, FirstContaining, Lays;
    forall q | q in l && Contains(q, a) ensures q == p {
      InSameMultiset(l, order, q);
      InSameMultiset(l, order, p);
      OneContains(order, lo, data, a, p, q);
    }
    InSameMultiset(l, order, p);
    LaysInside(order, lo, data, p);
    rest := TrimForm(l, a, p);
  }

  lemma RetainCut(rest: seq<InflightPacket>, cut: InflightPacket, a: u32)
    requires Unacked(cut, a)
    ensures multiset(Retain(rest + [cut], a)) == multiset(Retain(rest, a)) + multiset{cut}
  {
    RetainConcat(rest, [cut], a);
    assert Retain([cut], a) == [cut];
  }

  lemma Cancel(x: multiset<InflightPacket>, y: multiset<InflightPacket>, p: InflightPacket)
    requires x + multiset{p} == multiset{p} + y
    ensures x == y
  {
    assert x == (x + multiset{p}) - multiset{p};
  }

  lemma SplitHead(p: InflightPacket, tail: seq<InflightPacket>)
    ensures multiset([p] + tail) == multiset{p} + multiset(tail)
  {
  }

  lemma RetainSwaps(l: seq<InflightPacket>, rest: seq<InflightPacket>, tail: seq<InflightPacket>, p: InflightPacket, cut: InflightPacket, a: u32)
    requires multiset(rest) + multiset{p} == multiset(l)
    requires multiset(Retain(l, a)) == multiset{p} + multiset(tail)
    requires Unacked(p, a) && Unacked(cut, a)
    ensures multiset(Retain(rest + [cut], a)) == multiset{cut} + multiset(tail)
  {
    RetainCut(rest, cut, a);
    RetainWithout(l, rest, p, a);
    Cancel(multiset(Retain(rest, a)), multiset(tail), p);
  }

  /** `a` falls inside a packet: that packet alone is cut, and moved to the end of the list. */
  lemma TrimCuts(l: seq<InflightPacket>, order: seq<InflightPacket>, lo: int, data: seq<byte>, a: u32, p: InflightPacket)
    returns (rest: seq<InflightPacket>)
    requires Arranges(order, l, lo, data) && lo <= a <= lo + |data| < TWO32
    requires p in order && Straddles(p, a)
    ensures Trim(l, a) == rest + [Cut(p, a)]
    ensures multiset(Retain(rest + [Cut(p, a)], a)) == multiset(Acked(order, a))
  {
    hide Trim, FirstContaining, Retain, Lays, Acked;
    InSameMultiset(order, l, p);
    LaysInside(order, lo, data, p);
    rest := TrimFormInOrder(l, order, lo, data, a, p);
    RetainPermutes(l, order, a);
    var tail := AckedTrims(order, lo, data, a, p);
    SplitHead(p, tail);
    SplitHead(Cut(p, a), tail);
    RetainSwaps(l, rest, tail, p, Cut(p, a), a);
  }

  /** `a` falls between packets: at most a packet that ends there is removed early. */
  lemma TrimDrops(l: seq<InflightPacket>, order: seq<InflightPacket>, lo: int, data: seq<byte>, a: u32, p: InflightPacket)
    returns (rest: seq<InflightPacket>)
    requires Arranges(order, l, lo, data) && lo <= a <= lo + |data| < TWO32
    requires p in l && Contains(p, a) && !Straddles(p, a)
    ensures Trim(l, a) == rest
    ensures multiset(Retain(rest, a)) == multiset(Retain(l, a))
  {
    hide Trim, FirstContaining, Retain, Lays;
    rest := TrimFormInOrder(l, order, lo, data, a, p);
    RetainWithout(l, rest, p, a);
    assert multiset(Retain(rest, a)) + multiset{} == multiset(Retain(rest, a));
  }

  lemma TrimRetains(l: seq<InflightPacket>, order: seq<InflightPacket>, lo: int, data: seq<byte>, a: u32)
    requires Arranges(order, l, lo, data) && lo <= a <= lo + |data| < TWO32
    ensures multiset(Retain(Trim(l, a), a)) == multiset(Acked(order, a))
  {
    if p :| p in order && Straddles(p, a) {
      var _ := TrimCuts(l, order, lo, data, a, p);
    } else {
      AckedRetains(order, lo, data, a);
      RetainPermutes(l, order, a);
      var i := FirstContaining(l, a);
      if i < |l| {
        InSameMultiset(l, order, l[i]);
        var _ := TrimDrops(l, order, lo, data, a, l[i]);
      }
    }
  }

  /**
   Acknowledging up to `a` drops the first `a - lo` bytes of the queue and nothing else,
   whatever order the list is in and whether or not `a` falls inside a packet.
   */
  lemma AcknowledgeRepresents(l: seq<InflightPacket>, lo: int, data: seq<byte>, a: u32)
    requires Represents(l, lo, data) && lo <= a <= lo + |data| < TWO32
    ensures Represents(Retain(Trim(l, a), a), a, data[a - lo..])
  {
    var order :| Arranges(order, l, lo, data);
    AckedLays(order, lo, data, a);
    TrimRetains(l, order, lo, data, a);
    assert Arranges(Acked(order, a), Retain(Trim(l, a), a), a, data[a - lo..]);
  }

  /** An acknowledgement below the queue leaves the list as it is. */
  lemma StaleAcknowledgement(l: seq<InflightPacket>, lo: int, data: seq<byte>, a: u32)
    requires Represents(l, lo, data) && a < lo && lo + |data| < TWO32
    ensures Retain(Trim(l, a), a) == l
  {
    forall q | q in l ensures !Contains(q, a) && Unacked(q, a) {
      RepresentsInside(l, lo, data, q);
    }
    RetainAll(l, a);
  }

  lemma {:induction false} RetainAll(l: seq<InflightPacket>, a: u32)
    requires forall q :: q in l ==> Unacked(q, a)
    ensures Retain(l, a) == l
  {
    if l != [] {
      RetainAll(l[1..], a);
    }
  }
}

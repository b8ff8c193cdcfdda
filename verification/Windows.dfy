/** The truncating running average of the send windows (src/stream/tcb.rs) and the write test that uses it. */
module Windows {
  import opened Words
  import opened Packets
  import opened TcbSpec
  import opened StreamSpec

  /** The average after a sequence of window announcements. */
  function AverageOf(ws: seq<u16>): Average {
    if ws == [] then Average(1, 1) else Observe(AverageOf(ws[..|ws| - 1]), ws[|ws| - 1])
  }

  function Latest(ws: seq<u16>): u16 {
    if ws == [] then 0xFFFF else ws[|ws| - 1]
  }

  /** The sum of all samples; the average starts from one sample of 1. */
  function Sum(ws: seq<u16>): nat {
    if ws == [] then 1 else Sum(ws[..|ws| - 1]) + ws[|ws| - 1]
  }

  function Largest(ws: seq<u16>): nat {
    if ws == [] then 1 else Max(Largest(ws[..|ws| - 1]), ws[|ws| - 1])
  }

  function Smallest(ws: seq<u16>): nat {
    if ws == [] then 1 else Min(Smallest(ws[..|ws| - 1]), ws[|ws| - 1])
  }

  lemma DivisionBounds(x: nat, n: nat)
    requires 0 < n
    ensures x / n * n <= x <= x / n * n + n - 1
  {
  }

  lemma QuotientBetween(lo: nat, hi: nat, x: nat, n: nat)
    requires 0 < n && lo * n <= x <= hi * n
    ensures lo <= x / n <= hi
  {
    var q := x / n;
    DivisionBounds(x, n);
    if q < lo {
      MulStrict(q, lo, n);
    }
    if hi < q {
      MulStrict(hi, q, n);
    }
  }

  lemma MulMonotone(a: nat, b: nat, n: nat)
    requires a <= b
    ensures a * n <= b * n
  {
    if a < b {
      MulStrict(a, b, n);
    }
  }

  /** A mean of a number between two bounds and a sample between them lies between them. */
  lemma MeanBetween(lo: nat, hi: nat, avg: nat, count: nat, w: nat)
    requires lo <= avg <= hi && lo <= w <= hi
    ensures lo <= (avg * count + w) / (count + 1) <= hi
  {
    MulMonotone(lo, avg, count);
    MulMonotone(avg, hi, count);
    assert lo * (count + 1) == lo * count + lo;
    assert hi * (count + 1) == hi * count + hi;
    QuotientBetween(lo, hi, avg * count + w, count + 1);
  }

  /** The average lies between the smallest and the largest sample. */
  lemma {:induction false} AverageBetween(ws: seq<u16>)
    ensures AverageOf(ws).count == |ws| + 1
    ensures Smallest(ws) <= AverageOf(ws).avg <= Largest(ws)
  {
    if ws != [] {
      var prev := ws[..|ws| - 1];
      AverageBetween(prev);
      var a := AverageOf(prev);
      MeanBetween(Smallest(ws), Largest(ws), a.avg, a.count, ws[|ws| - 1]);
    }
  }

  lemma ErrorStep(total: nat, count: nat, w: nat, sum: nat, q: nat)
    requires 0 < count && total <= sum && 2 * (sum - total) <= count * (count - 1)
    requires q == (total + w) / (count + 1)
    ensures q * (count + 1) <= sum + w
    ensures 2 * (sum + w - q * (count + 1)) <= (count + 1) * count
  {
    DivisionBounds(total + w, count + 1);
    assert (count + 1) * count == count * (count - 1) + 2 * count;
  }

  /** Truncation loses less than one unit per sample already taken: the error grows at most triangularly. */
  lemma {:induction false} AverageError(ws: seq<u16>)
    ensures var a := AverageOf(ws);
            a.avg * a.count <= Sum(ws) && 2 * (Sum(ws) - a.avg * a.count) <= a.count * (a.count - 1)
  {
    if ws != [] {
      var prev := ws[..|ws| - 1];
      AverageBetween(prev);
      AverageError(prev);
      var a := AverageOf(prev);
      ErrorStep(a.avg * a.count, a.count, ws[|ws| - 1], Sum(prev), AverageOf(ws).avg);
    }
  }

  // --- Over runs ---

  /** The windows account for the average and the current window. */
  ghost predicate Recorded(t: TcbState, ws: seq<u16>) {
    t.average == AverageOf(ws) && t.sendWindow == Latest(ws)
  }

  ghost predicate Offers(p: NetworkPacket, window: u16) {
    p.transport.Tcp? && p.transport.tcp.window == window
  }

  /** The windows are those of some of the packets, in order, each packet used at most once. */
  ghost predicate Heard(ws: seq<u16>, packets: seq<NetworkPacket>)
    decreases |packets|
  {
    || ws == []
    || (&& packets != []
        && var earlier := packets[..|packets| - 1];
           || Heard(ws, earlier)
           || (Offers(packets[|packets| - 1], ws[|ws| - 1]) && Heard(ws[..|ws| - 1], earlier)))
  }

  /** One more packet, whose window is counted or not. */
  lemma HeardMore(ws: seq<u16>, packets: seq<NetworkPacket>, p: NetworkPacket)
    requires Heard(ws, packets)
    ensures Heard(ws, packets + [p])
    ensures p.transport.Tcp? ==> Heard(ws + [p.transport.tcp.window], packets + [p])
  {
    assert (packets + [p])[..|packets|] == packets;
    if p.transport.Tcp? {
      assert (ws + [p.transport.tcp.window])[..|ws|] == ws;
    }
  }

  lemma {:induction false} HeardStill(ws: seq<u16>, packets: seq<NetworkPacket>, more: seq<NetworkPacket>)
    requires Heard(ws, packets)
    ensures Heard(ws, packets + more)
    decreases |more|
  {
    if more == [] {
      assert packets + more == packets;
    } else {
      HeardMore(ws, packets, more[0]);
      HeardStill(ws, packets + [more[0]], more[1..]);
      assert packets + [more[0]] + more[1..] == packets + more;
    }
  }

  /** What is heard lies between any bounds on what has arrived. */
  lemma {:induction false} HeardBetween(ws: seq<u16>, packets: seq<NetworkPacket>, lo: nat, hi: nat)
    requires Heard(ws, packets) && lo <= 1 <= hi
    requires forall p :: p in packets && p.transport.Tcp? ==> lo <= p.transport.tcp.window <= hi
    ensures lo <= Smallest(ws) && Largest(ws) <= hi
    decreases |packets|
  {
    if ws != [] {
      var earlier := packets[..|packets| - 1];
      if Heard(ws, earlier) {
        HeardBetween(ws, earlier, lo, hi);
      } else {
        assert packets[|packets| - 1] in packets;
        HeardBetween(ws[..|ws| - 1], earlier, lo, hi);
      }
    }
  }

  /** The inbox loses at most its first packet, and no other window than that packet's is counted. */
  ghost predicate Hears(s: StreamState, s': StreamState) {
    var same := (s'.tcb.average, s'.tcb.sendWindow) == (s.tcb.average, s.tcb.sendWindow);
    || (same && s'.inbox == s.inbox)
    || (s.inbox != [] && s'.inbox == s.inbox[1..] && (same || Takes(s.tcb, s'.tcb, s.inbox[0])))
  }

  ghost predicate Takes(t: TcbState, t': TcbState, p: NetworkPacket) {
    Offers(p, t'.sendWindow) && t'.average == Observe(t.average, t'.sendWindow)
  }

  lemma EstablishedHears(s: StreamState, p: NetworkPacket)
    requires s.tcb.state == Established && p.transport.Tcp?
    ensures var t := InEstablished(s, p.transport.tcp, p.payload).s.tcb;
            (t.average, t.sendWindow) == (s.tcb.average, s.tcb.sendWindow) || Takes(s.tcb, t, p)
  {
    hide CheckPktType, RevPacket, Trim, Retain, Observe;
  }

  lemma ProcessHears(s: StreamState, p: NetworkPacket)
    ensures var t := Process(s, p).s.tcb;
            (t.average, t.sendWindow) == (s.tcb.average, s.tcb.sendWindow) || Takes(s.tcb, t, p)
  {
    hide CheckPktType, RevPacket, Trim, Retain, Observe, InEstablished;
    if p.transport.Tcp? && s.tcb.state == Established {
      EstablishedHears(s, p);
    }
  }

  lemma DeliverHears(s: StreamState, room: nat)
    ensures Hears(s, DeliverOrReceive(s, room).s)
  {
    hide Process, RevPacket, Observe;
    if s.inbox != [] {
      var s1 := s.(tcb := TakeUnordered(s.tcb), inbox := s.inbox[1..]);
      ProcessHears(s1, s.inbox[0]);
      ProcessClimbs(s1, s.inbox[0]);
    }
  }

  lemma AfterWindowHears(s: StreamState, fired: bool, room: nat)
    ensures Hears(s, AfterWindow(s, fired, room).s)
  {
    hide DeliverOrReceive, RevPacket, Takes;
    DeliverHears(s, room);
  }

  lemma IterationHears(s: StreamState, fired: bool, room: nat)
    ensures Hears(s, ReadIteration(s, fired, room).s)
  {
    hide AfterWindow, RevPacket, AvailableReadBuffer, Observe;
    var s2 := SendQueued(Flushed(s));
    AfterWindowHears(s2.(tcb := ChangeRecvWindow(s2.tcb, AvailableReadBuffer(s2.tcb))), fired, room);
  }

  /** The packets taken from the inbox so far account for the windows counted. */
  ghost predicate Accounts(s: StreamState, taken: seq<NetworkPacket>, ws: seq<u16>) {
    Recorded(s.tcb, ws) && Heard(ws, taken)
  }

  lemma Record(s: StreamState, s': StreamState, taken: seq<NetworkPacket>, ws: seq<u16>)
    returns (taken': seq<NetworkPacket>, ws': seq<u16>)
    requires Accounts(s, taken, ws) && Hears(s, s')
    ensures Accounts(s', taken', ws') && taken' + s'.inbox == taken + s.inbox
  {
    hide Observe, Heard;
    taken', ws' := taken, ws;
    if s'.inbox != s.inbox {
      taken' := taken + [s.inbox[0]];
      HeardMore(ws, taken, s.inbox[0]);
      if (s'.tcb.average, s'.tcb.sendWindow) != (s.tcb.average, s.tcb.sendWindow) {
        ws' := ws + [s'.tcb.sendWindow];
        assert ws'[..|ws|] == ws;
      }
    }
  }

  lemma {:induction false} ReadRecords(s: StreamState, room: nat, clock: seq<bool>, taken: seq<NetworkPacket>, ws: seq<u16>)
    returns (taken': seq<NetworkPacket>, ws': seq<u16>)
    requires Accounts(s, taken, ws)
    ensures var s' := PollRead(s, room, clock).s;
            Accounts(s', taken', ws') && taken' + s'.inbox == taken + s.inbox
    decreases |s.inbox|, 6 - Rank(s.tcb.state)
  {
    hide ReadIteration, Accounts, Hears;
    var fired := clock != [] && clock[0];
    var it := ReadIteration(s, fired, room);
    IterationHears(s, fired, room);
    IterationDescends(s, fired, room);
    taken', ws' := Record(s, it.s, taken, ws);
    if it.Again? {
      taken', ws' := ReadRecords(it.s, room, if clock == [] then [] else clock[1..], taken', ws');
    }
  }

  lemma StepRecords(w: World, e: Event, taken: seq<NetworkPacket>, ws: seq<u16>)
    returns (taken': seq<NetworkPacket>, ws': seq<u16>)
    requires Accounts(w.s, taken, ws) && w.s.fault == NoFault
    ensures var s' := Step(w, e).s;
            Accounts(s', taken', ws') && taken' + s'.inbox == taken + w.s.inbox + (if e.Arrive? then [e.p] else [])
  {
    hide PollRead, RevPacket, AverageOf, Heard;
    taken', ws' := taken, ws;
    match e
    case Read(room, clock) => taken', ws' := ReadRecords(w.s, room, clock, taken, ws);
    case Shut(clock) =>
      if w.s.shutdown != Finished {
        taken', ws' := ReadRecords(w.s.(shutdown := Requested), 1, clock, taken, ws);
      }
    case _ =>
  }

  lemma {:induction false} RunRecords(w: World, events: seq<Event>, taken: seq<NetworkPacket>, ws: seq<u16>) returns (ws': seq<u16>)
    requires Accounts(w.s, taken, ws)
    ensures Recorded(Run(w, events).s.tcb, ws') && Heard(ws', taken + w.s.inbox + Arrivals(events))
    decreases |events|
  {
    hide Step, Recorded, Heard;
    ws' := ws;
    if events == [] || w.s.fault != NoFault {
      FaultyRun(w, events);
      HeardStill(ws, taken, w.s.inbox + Arrivals(events));
      assert taken + (w.s.inbox + Arrivals(events)) == taken + w.s.inbox + Arrivals(events);
    } else {
      var w1 := Step(w, events[0]);
      var arrived := if events[0].Arrive? then [events[0].p] else [];
      var taken1, ws1 := StepRecords(w, events[0], taken, ws);
      ws' := RunRecords(w1, events[1..], taken1, ws1);
      assert (taken + w.s.inbox + arrived) + Arrivals(events[1..]) == taken + w.s.inbox + (arrived + Arrivals(events[1..]));
    }
  }

  lemma {:induction false} FaultyRun(w: World, events: seq<Event>)
    ensures events == [] || w.s.fault != NoFault ==> Run(w, events) == w
    decreases |events|
  {
    if events != [] && w.s.fault != NoFault {
      FaultyRun(w, events[1..]);
    }
  }

  /**
   In every run the average is that of windows of packets that arrived, in the order of their arrival, so
   it lies between any bounds on 1 and the arrived windows. While the latest window is at least half the
   upper bound, a write waits only for a full send buffer; when it is less than half the average, by more
   than rounding, the write waits.
   */
  lemma AverageNeverBlocksSteadyPeer(ends: Endpoints, mtu: u16, iss: u32, irs: u32, events: seq<Event>, lo: nat, hi: nat) returns (ws: seq<u16>)
    requires lo <= 1 <= hi
    requires forall p :: p in Arrivals(events) && p.transport.Tcp? ==> lo <= p.transport.tcp.window <= hi
    ensures var s := Run(Start(ends, mtu, iss, irs), events).s;
            && Recorded(s.tcb, ws) && Heard(ws, Arrivals(events))
            && lo <= s.tcb.average.avg <= hi
            && (s.tcb.state == Established && hi <= 2 * s.tcb.sendWindow ==>
                  forall buf :: PollWrite(s, buf).poll == Pending <==> 16384 <= (s.tcb.seqno - s.tcb.lastAck) % 0x1_0000_0000)
            && (s.tcb.state == Established && 2 * s.tcb.sendWindow + 1 < s.tcb.average.avg ==>
                  forall buf :: PollWrite(s, buf).poll == Pending)
  {
    hide Run, AverageOf, Flushed, RevPacket, Len32, Heard;
    StartAccounts(ends, mtu, iss, irs);
    ws := RunRecords(Start(ends, mtu, iss, irs), events, [], []);
    assert [] + [] + Arrivals(events) == Arrivals(events);
    HeardBetween(ws, Arrivals(events), lo, hi);
    AverageBetween(ws);
  }

  lemma StartAccounts(ends: Endpoints, mtu: u16, iss: u32, irs: u32)
    ensures var s := Start(ends, mtu, iss, irs).s;
            Accounts(s, [], []) && s.inbox == []
  {
  }
}

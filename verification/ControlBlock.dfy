/** The control block as the stream holds it: an object whose methods change it in place (src/stream/tcb.rs). */
module ControlBlock {
  import opened Words
  import opened Packets
  import opened TcbSpec

  class Tcb {
    var seqno: u32
    var retransmission: Option<u32>
    var ack: u32
    var lastAck: u32
    var recvWindow: u16
    var sendWindow: u16
    var state: TcpState
    var average: Average
    var inflight: seq<InflightPacket>
    var unordered: map<u32, seq<byte>>

    ghost function View(): TcbState
      reads this
    {
      TcbState(seqno, retransmission, ack, lastAck, recvWindow, sendWindow, state, average, inflight, unordered)
    }

    constructor (iss: u32, ack: u32)
      ensures View() == NewTcb(iss, ack)
    {
      this.seqno := iss;
      this.retransmission := None;
      this.ack := ack;
      this.lastAck := iss;
      this.recvWindow := 0;
      this.sendWindow := 0xFFFF;
      this.state := SynReceived(false);
      this.average := Average(1, 1);
      this.inflight := [];
      this.unordered := map[];
    }

    method AddInflightPacket(q: u32, buf: seq<byte>)
      modifies this
      ensures View() == AddInflight(old(View()), q, buf)
    {
      inflight := inflight + [InflightPacket(q, buf)];
      seqno := WrapAdd(seqno, Len32(buf));
    }

    method AddUnorderedPacket(q: u32, buf: seq<byte>)
      modifies this
      ensures View() == AddUnordered(old(View()), q, buf)
    {
      if q < ack {
        return;
      }
      unordered := unordered[q := buf];
    }

    /** The fold over the buffered payloads. */
    method GetAvailableReadBufferSize() returns (n: u16)
      ensures n == AvailableReadBuffer(View())
    {
      var total := 0;
      var rest := unordered;
      while rest != map[]
        invariant total + BufferedBytes(rest) == BufferedBytes(unordered)
        decreases |rest|
      {
        var k :| k in rest;
        BufferedBytesRemove(rest, k);
        total := total + |rest[k]|;
        rest := rest - {k};
      }
      n := SatSub(READ_BUFFER_SIZE, total);
    }

    method GetUnorderedPackets() returns (b: Option<seq<byte>>)
      modifies this
      ensures b == NextUnordered(old(View()))
      ensures View() == TakeUnordered(old(View()))
    {
      b := if ack in unordered then Some(unordered[ack]) else None;
      unordered := unordered - {ack};
    }

    method AddSeqOne()
      modifies this
      ensures View() == TcbSpec.AddSeqOne(old(View()))
    {
      seqno := WrapAdd(seqno, 1);
    }

    method AddAck(n: u32)
      modifies this
      ensures View() == TcbSpec.AddAck(old(View()), n)
    {
      ack := WrapAdd(ack, n);
    }

    method ChangeSendWindow(window: u16)
      modifies this
      ensures View() == TcbSpec.ChangeSendWindow(old(View()), window)
    {
      average := Average((average.avg * average.count + window) / (average.count + 1), average.count + 1);
      sendWindow := window;
    }

    method CheckPacketType(h: TcpHeader, payload: seq<byte>) returns (status: PacketStatus)
      ensures status == CheckPktType(View(), h, payload)
      ensures status != Invalid <==> lastAck <= h.ackno <= seqno
    {
      AcceptedIffPlainlyBetween(View(), h, payload);
      var receivedAckDistance := WrapSub(seqno, h.ackno);
      var currentAckDistance := WrapSub(seqno, lastAck);
      if receivedAckDistance > currentAckDistance || (h.ackno != seqno && SatSub(seqno, h.ackno) == 0) {
        status := Invalid;
      } else if lastAck == h.ackno {
        if payload != [] {
          status := NewPacket;
        } else if sendWindow == h.window && seqno != lastAck {
          status := RetransmissionRequest;
        } else if WrapSub(ack, 1) == h.seqno {
          status := KeepAlive;
        } else {
          status := WindowUpdate;
        }
      } else if lastAck < h.ackno {
        status := if payload != [] then NewPacket else Ack;
      } else {
        status := Invalid;
      }
    }

    /** `position`: the first packet that contains `a`. */
    method Position(a: u32) returns (i: nat)
      ensures i == FirstContaining(inflight, a)
    {
      i := 0;
      while i < |inflight| && !Contains(inflight[i], a)
        invariant i <= |inflight|
        invariant forall j :: 0 <= j < i ==> !Contains(inflight[j], a)
      {
        i := i + 1;
      }
      FirstContainingUnique(inflight, a, i);
    }

    /** `retain`: drops the packets that are acknowledged in full. */
    method RetainUnacked()
      modifies this
      ensures View() == old(View()).(inflight := Retain(old(inflight), lastAck))
    {
      var kept := [];
      var i := 0;
      while i < |inflight|
        invariant i <= |inflight|
        invariant kept + Retain(inflight[i..], lastAck) == Retain(inflight, lastAck)
      {
        if Unacked(inflight[i], lastAck) {
          kept := kept + [inflight[i]];
        }
        assert inflight[i..][1..] == inflight[i + 1..];
        i := i + 1;
      }
      inflight := kept;
    }

    method ChangeLastAck(a: u32)
      modifies this
      ensures View() == TcbSpec.ChangeLastAck(old(View()), a)
    {
      var distance := WrapSub(a, lastAck);
      lastAck := WrapAdd(lastAck, distance);
      if state == Established {
        var i := Position(a);
        if i < |inflight| {
          var packet := inflight[i];
          inflight := inflight[..i] + inflight[i + 1..];
          var cut := WrapSub(a, packet.seqno);
          if cut < |packet.payload| {
            inflight := inflight + [InflightPacket(a, packet.payload[cut..])];
          }
        }
        assert inflight == Trim(old(inflight), a);
        RetainUnacked();
      }
    }

    method IsSendBufferFull() returns (full: bool)
      ensures full == SendBufferFull(View())
    {
      full := WrapSub(seqno, lastAck) >= MAX_UNACK;
    }
  }

  lemma {:induction false} FirstContainingUnique(l: seq<InflightPacket>, a: u32, i: nat)
    requires i <= |l|
    requires forall j :: 0 <= j < i ==> !Contains(l[j], a)
    requires i < |l| ==> Contains(l[i], a)
    ensures i == FirstContaining(l, a)
  {
    if i > 0 {
      assert !Contains(l[0], a);
      FirstContainingUnique(l[1..], a, i - 1);
    }
  }
}

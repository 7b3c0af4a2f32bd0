/** The sender as an object: loops over the stream and the unacknowledged segments. */
module TcpSenders {
  import opened Numbers
  import opened WrappingIntegers
  import opened ByteStreams
  import opened TcpSegments
  import S = Senders
  import opened SenderLaws

  // An open window with `n` bytes, and a FIN if `fin`, still to be sent.
  ghost predicate Filling(s: S.Sender, n: nat, fin: bool) {
    && SenderOk(s) && s.next > 0 && !s.probing
    && n == Max(0, Min(s.window - s.InFlight(), |s.stream.Buffer()|))
    && (n > 0 ==> fin == (s.stream.ended && s.window - s.InFlight() > |s.stream.Buffer()|))
  }

  // The sender after one more segment.
  ghost function Round(s: S.Sender, n: nat, fin: bool): S.Sender
    requires s.stream.Valid() && 0 < n <= |s.stream.Buffer()|
  {
    var k := Min(n, S.MAX_PAYLOAD_SIZE);
    S.Send(s.(stream := s.stream.Pop(k)), S.Segment(s, false, fin && k == n, s.stream.Buffer()[..k]))
  }

  lemma RoundLeaves(s: S.Sender, n: nat, fin: bool)
    requires Filling(s, n, fin) && n > 0
    ensures var s', n' := Round(s, n, fin), n - Min(n, S.MAX_PAYLOAD_SIZE);
            Filling(s', n', fin) && S.SendBytes(s', n', fin) == S.SendBytes(s, n, fin)
            && |s'.stream.Buffer()| < |s.stream.Buffer()|
  {
    var k := Min(n, S.MAX_PAYLOAD_SIZE);
    SendOneOk(s, k, fin && k == n);
  }

  class TCPSender {
    const isn: u32
    const stream: ByteStream
    var next: nat
    var outstanding: seq<S.Entry>
    var segmentsOut: seq<TcpSegment>
    var window: u16
    var ackno: u32
    var timeout: u32
    var timeLeft: u32
    var timerRunning: bool
    var retransmissions: nat
    var probe: TcpSegment
    var probing: bool
    var probeSeqno: nat

    ghost predicate Valid()
      reads this, stream
    {
      stream.Valid()
    }

    ghost function State(): (s: S.Sender)
      requires Valid()
      reads this, stream
      ensures s.stream.Valid()
    {
      S.Sender(isn, stream.State(), next, outstanding, segmentsOut, window, ackno,
               timeout, timeLeft, timerRunning, retransmissions, probe, probing, probeSeqno)
    }

    constructor (capacity: nat, timeout: u16, isn: u32)
      ensures Valid() && fresh(stream) && SenderOk(State()) && State() == S.NewSender(capacity, timeout, isn)
    {
      this.isn := isn;
      stream := new ByteStream(capacity);
      next, outstanding, segmentsOut, window, ackno := 0, [], [], 0, 0;
      this.timeout, timeLeft, timerRunning, retransmissions := timeout, timeout, false, 0;
      probe, probing, probeSeqno := EmptySegment(), false, 0;
    }

    method BytesInFlight() returns (total: nat)
      ensures total == S.Flight(outstanding)
    {
      total := 0;
      var i := 0;
      while i < |outstanding|
        invariant 0 <= i <= |outstanding|
        invariant total + S.Flight(outstanding[i..]) == S.Flight(outstanding)
      {
        total := total + outstanding[i].segment.Length();
        assert outstanding[i..][1..] == outstanding[i + 1..];
        i := i + 1;
      }
    }

    method StartTimer()
      requires Valid()
      modifies this`timerRunning, this`timeLeft
      ensures Valid() && State() == S.StartTimer(old(State()))
    {
      if !timerRunning {
        timerRunning := true;
        timeLeft := timeout;
      }
    }

    method Send(seg: TcpSegment)
      requires Valid()
      modifies this
      ensures Valid() && State() == S.Send(old(State()), seg)
    {
      segmentsOut := segmentsOut + [seg];
      outstanding := S.Assign(outstanding, next, seg);
      next := next + seg.Length();
      StartTimer();
    }

    // One round of the loop that fills an open window: a segment from the
    // stream, with a FIN if that is the end of it and there is room.
    method SendNext(flight: nat, ghost n: nat, ghost fin: bool)
      requires Valid() && flight == State().InFlight() && Filling(State(), n, fin) && n > 0
      modifies this, stream
      ensures Valid() && State() == Round(old(State()), n, fin)
    {
      ghost var s, k := State(), Min(n, S.MAX_PAYLOAD_SIZE);
      ghost var taken := stream.buffer[..k];
      var transferSize := Min(window - flight, S.MAX_PAYLOAD_SIZE);
      var payload := stream.Read(transferSize);
      assert payload == taken;
      var seg := TcpSegment(DefaultHeader().(seqno := Wrap(next, isn)), payload);
      if window > flight + seg.Length() && stream.Eof() {
        seg := seg.(header := seg.header.(fin := true));
      }
      assert seg == S.Segment(s, false, fin && k == n, taken);
      Send(seg);
    }

    // The round leaves less to send, and the same result.
    method SendRound(flight: nat, ghost n: nat, ghost fin: bool) returns (flight': nat, ghost n': nat)
      requires Valid() && flight == State().InFlight() && Filling(State(), n, fin) && n > 0
      modifies this, stream
      ensures Valid() && flight' == State().InFlight() && Filling(State(), n', fin)
      ensures S.SendBytes(State(), n', fin) == S.SendBytes(old(State()), n, fin)
      ensures |stream.buffer| < old(|stream.buffer|)
    {
      RoundLeaves(State(), n, fin);
      SendNext(flight, n, fin);
      n' := n - Min(n, S.MAX_PAYLOAD_SIZE);
      flight' := BytesInFlight();
    }

    // The loop that fills an open window from the stream.
    method SendStream()
      requires Valid() && SenderOk(State()) && next > 0 && !probing && window > State().InFlight()
      requires !State().stream.Eof() || next >= State().stream.Written() + 2
      modifies this, stream
      ensures Valid() && State() == S.FillOpen(old(State()))
    {
      ghost var done := S.FillOpen(State());
      var flight := BytesInFlight();
      ghost var n: nat := Min(window - flight, |stream.buffer|);
      ghost var fin := stream.inputEnd && window - flight > |stream.buffer|;
      while |stream.buffer| > 0 && window > flight
        invariant Valid() && flight == State().InFlight() && Filling(State(), n, fin)
        invariant S.SendBytes(State(), n, fin) == done
        decreases |stream.buffer|
      {
        flight, n := SendRound(flight, n, fin);
      }
    }

    // Remembers and queues `seg` as the probe.
    method PutProbe(seg: TcpSegment)
      requires Valid()
      modifies this
      ensures Valid()
      ensures State() == old(State()).(probe := seg, probing := true, probeSeqno := old(next),
                                       segmentsOut := old(segmentsOut) + [seg], next := old(next) + seg.Length())
    {
      probing, probeSeqno := true, next;
      probe := seg;
      next, segmentsOut := next + seg.Length(), segmentsOut + [seg];
    }

    // Sends a probe of `n` bytes, or a FIN, past a closed window.
    method SendProbe(n: nat, fin: bool)
      requires Valid() && n <= |stream.buffer|
      modifies this, stream
      ensures Valid() && State() == S.Probe(old(State()), n, fin)
    {
      ghost var taken := stream.buffer[..n];
      var payload := stream.Read(n);
      assert payload == taken;
      PutProbe(TcpSegment(probe.header.(seqno := Wrap(next, isn), fin := probe.header.fin || fin), payload));
      StartTimer();
    }

    method FillWindow()
      requires Valid() && SenderOk(State())
      modifies this, stream
      ensures Valid() && State() == S.FillWindow(old(State()))
    {
      var flight := BytesInFlight();
      if next == 0 {
        Send(TcpSegment(DefaultHeader().(syn := true, seqno := isn), []));
      } else if window > flight && !probing {
        if stream.Eof() && next < stream.written + 2 {
          Send(TcpSegment(DefaultHeader().(seqno := Wrap(next, isn), fin := true), []));
        } else {
          SendStream();
        }
      } else if window == 0 && next > flight && !probing {
        if |stream.buffer| > 0 {
          SendProbe(1, false);
        } else if stream.Eof() {
          SendProbe(0, true);
        }
      }
    }

    // Forgets the segments that an acknowledgment up to `a` covers.
    method DropAcked(a: nat)
      requires Valid() && SenderOk(State())
      modifies this`outstanding
      ensures outstanding == S.Unacked(old(outstanding), a)
    {
      ghost var all, high := outstanding, Limit(State());
      ghost var low := Base(State());
      var i := 0;
      while i < |outstanding|
        invariant 0 <= i <= |outstanding|
        invariant Tiles(outstanding[i..], low, high)
        invariant S.Unacked(all, a) == outstanding[..i] + S.Unacked(outstanding[i..], a)
        decreases |outstanding| - i
      {
        ghost var rest := outstanding[i..];
        assert rest[0] == outstanding[i] && rest[1..] == outstanding[i + 1..];
        low := rest[0].End();
        if outstanding[i].segment.Length() + outstanding[i].seqno - 1 < a {
          outstanding := outstanding[..i] + outstanding[i + 1..];
          assert outstanding[i..] == rest[1..];
        } else if outstanding[i].seqno >= a {
          UnackedAll(rest, outstanding[i].seqno, high, a);
          break;
        } else {
          i := i + 1;
        }
      }
    }

    // The absolute number of an acknowledgment, or -1 for one beyond what was sent.
    method ReadAck(ack: u32) returns (a: int)
      requires Valid()
      ensures a == S.ReadAck(State(), ack)
    {
      var absolute, _ := UnwrapSearch(ack, isn, Low64(next));
      a := absolute;
      if a > next {
        a := if a < TWO_32 then -1 else a - TWO_32;
      }
    }

    method Forget(a: nat)
      requires Valid() && SenderOk(State())
      modifies this`outstanding, this`probing, this`timerRunning
      ensures Valid() && State() == S.Forget(old(State()), a)
    {
      DropAcked(a);
      if a > probeSeqno {
        probing := false;
      }
      if |outstanding| == 0 && !probing {
        timerRunning := false;
      }
    }

    method Adopt(ack: u32, windowSize: u16)
      requires Valid()
      modifies this
      ensures Valid() && State() == S.Adopt(old(State()), ack, windowSize)
    {
      if ackno != ack {
        timeout := S.ShiftRight(timeout, retransmissions);
        retransmissions := 0;
        timeLeft := timeout;
      }
      window, ackno := windowSize, ack;
    }

    method AckReceived(ack: u32, windowSize: u16)
      requires Valid() && SenderOk(State())
      modifies this
      ensures Valid() && State() == S.AckReceived(old(State()), ack, windowSize)
    {
      var a := ReadAck(ack);
      if a < 0 {
        return;
      }
      Forget(a);
      Adopt(ack, windowSize);
    }

    // The timer of a pending probe.
    method TickProbe(ms: nat)
      requires Valid() && probing
      modifies this
      ensures Valid() && State() == S.Tick(old(State()), ms)
    {
      timeLeft := if timeLeft > ms then timeLeft - ms else 0;
      if timeLeft == 0 {
        segmentsOut := segmentsOut + [probe];
        timerRunning := true;
        timeLeft := timeout;
      }
    }

    // The timer has expired: back off and send the lowest segment again.
    method Resend()
      requires Valid() && outstanding != [] && timerRunning
      modifies this
      ensures Valid() && State() == S.Expire(old(State()))
    {
      var flight := BytesInFlight();
      if window > 0 || (next > 0 && next == flight) {
        retransmissions := retransmissions + 1;
        timeout := (timeout * 2) % TWO_32;
      }
      segmentsOut := segmentsOut + [outstanding[0].segment];
      timerRunning := true;
      timeLeft := timeout;
    }

    method Tick(ms: nat)
      requires Valid()
      modifies this
      ensures Valid() && State() == S.Tick(old(State()), ms)
    {
      if probing {
        TickProbe(ms);
        return;
      }
      if |outstanding| == 0 || !timerRunning {
        timerRunning := false;
        return;
      }
      timeLeft := if timeLeft > ms then timeLeft - ms else 0;
      if timeLeft == 0 {
        Resend();
      }
    }

    method SendEmptySegment()
      requires Valid()
      modifies this`segmentsOut
      ensures Valid() && State() == S.SendEmptySegment(old(State()))
    {
      segmentsOut := segmentsOut + [TcpSegment(DefaultHeader().(seqno := Wrap(next, isn)), [])];
    }
  }
}

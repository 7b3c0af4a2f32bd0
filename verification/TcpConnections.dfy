/** An endpoint as an object around its receiver and its sender. */
module TcpConnections {
  import opened Numbers
  import opened WrappingIntegers
  import opened ByteStreams
  import opened TcpSegments
  import opened Receivers
  import opened TcpReceivers
  import opened TcpSenders
  import S = Senders
  import opened SenderLaws
  import opened SenderTimers
  import opened ConnectionLaws
  import C = Connections

  // The first queued segment goes out with the acknowledgment fields filled in.
  ghost function SendOne(c: C.Conn): (c': C.Conn)
    requires c.Valid() && c.sender.segmentsOut != []
    ensures c'.Valid()
  {
    c.(out := c.out + [C.Stamp(c.receiver, c.sender.segmentsOut[0])],
       sender := c.sender.(segmentsOut := c.sender.segmentsOut[1..]))
  }

  lemma SendOneOfAll(c: C.Conn)
    requires c.Valid() && c.sender.segmentsOut != []
    ensures C.SendAll(SendOne(c)) == C.SendAll(c)
  {
    var r, segs := c.receiver, c.sender.segmentsOut;
    assert c.out + [C.Stamp(r, segs[0])] + C.StampAll(r, segs[1..]) == c.out + C.StampAll(r, segs);
  }

  lemma SendAllOfNone(c: C.Conn)
    requires c.Valid() && c.sender.segmentsOut == []
    ensures C.SendAll(c) == c
  {
  }

  class TCPConnection {
    const timeout: u16
    const receiver: TCPReceiver
    const sender: TCPSender
    var segmentsOut: seq<TcpSegment>
    var linger: bool
    var timeSince: nat

    ghost function Repr(): set<object> {
      {this, receiver, receiver.reassembler, receiver.reassembler.output, sender, sender.stream}
    }

    ghost predicate Parts()
      reads Repr()
    {
      receiver.Valid() && sender.Valid() && sender.stream != receiver.reassembler.output
    }

    ghost function State(): (c: C.Conn)
      requires Parts()
      reads Repr()
      ensures c.Valid()
    {
      C.Conn(timeout, receiver.State(), sender.State(), segmentsOut, linger, timeSince)
    }

    ghost predicate Valid()
      reads Repr()
    {
      Parts() && ConnOk(State())
    }

    constructor (sendCapacity: nat, receiveCapacity: nat, timeout: u16, isn: u32)
      ensures Valid() && fresh(Repr() - {this}) && State() == C.NewConn(sendCapacity, receiveCapacity, timeout, isn)
    {
      this.timeout := timeout;
      receiver := new TCPReceiver(receiveCapacity);
      sender := new TCPSender(sendCapacity, timeout, isn);
      segmentsOut, linger, timeSince := [], true, 0;
    }

    // ---------------------------------------------------------------- sending

    // The segment with the acknowledgment fields filled in.
    method FillIn(seg: TcpSegment) returns (filled: TcpSegment)
      requires Parts()
      ensures filled == C.Stamp(State().receiver, seg)
    {
      filled := seg;
      var ackno := receiver.Ackno();
      if ackno.Some? {
        var window := receiver.WindowSize();
        filled := seg.(header := seg.header.(ack := true, ackno := ackno.value, win := window % TWO_16));
      }
    }

    method SendCommonSeg()
      requires Parts() && sender.segmentsOut != []
      modifies this`segmentsOut, sender`segmentsOut
      ensures Parts() && State() == SendOne(old(State()))
    {
      var seg := FillIn(sender.segmentsOut[0]);
      sender.segmentsOut := sender.segmentsOut[1..];
      segmentsOut := segmentsOut + [seg];
    }

    method SendAllSegs()
      requires Parts()
      modifies this`segmentsOut, sender`segmentsOut
      ensures Parts() && State() == C.SendAll(old(State()))
    {
      ghost var done := C.SendAll(State());
      while sender.segmentsOut != []
        invariant Parts() && C.SendAll(State()) == done
        decreases |sender.segmentsOut|
      {
        SendOneOfAll(State());
        SendCommonSeg();
      }
      SendAllOfNone(State());
    }

    method SendRstSeg()
      requires Parts()
      modifies this`segmentsOut, sender`segmentsOut
      ensures Parts() && State() == C.SendRst(old(State()))
    {
      if sender.segmentsOut == [] {
        sender.SendEmptySegment();
      }
      var seg := sender.segmentsOut[0];
      var filled := FillIn(seg.(header := seg.header.(rst := true)));
      segmentsOut := segmentsOut + [filled];
    }

    // -------------------------------------------------------------- predicates

    method TimeWaitState() returns (b: bool)
      requires Parts()
      ensures b == State().TimeWait()
    {
      var flight := sender.BytesInFlight();
      b := receiver.reassembler.output.Eof() && sender.stream.Eof() && flight == 0
           && sender.stream.written + 2 == sender.next && !sender.probing;
    }

    method ConnectionEstablish() returns (b: bool)
      requires Parts()
      ensures b == State().Established()
    {
      var flight := sender.BytesInFlight();
      var ackno := receiver.Ackno();
      b := ackno.Some? && sender.next > flight;
    }

    method Active() returns (b: bool)
      requires Parts()
      ensures b == State().Active()
    {
      if sender.stream.error && receiver.reassembler.output.error {
        return false;
      }
      var waiting := TimeWaitState();
      if !linger {
        return !waiting;
      }
      b := !(waiting && timeSince >= 10 * timeout);
    }

    method SetErrors()
      requires Parts()
      modifies sender.stream, receiver.reassembler.output
      ensures Parts() && State() == old(State()).Fail()
    {
      sender.stream.SetError();
      receiver.reassembler.output.SetError();
    }

    // ------------------------------------------------------------- the interface

    // The sender hears an acknowledgment and fills its window.
    method TellSender(seg: TcpSegment)
      requires Parts() && SenderOk(sender.State())
      modifies sender, sender.stream
      ensures Parts() && State() == old(State()).(sender := C.Hear(old(State()).sender, seg))
    {
      if seg.header.ack {
        ghost var s := sender.State();
        AckKeeps(s, seg.header.ackno, seg.header.win);
        sender.AckReceived(seg.header.ackno, seg.header.win);
        if sender.next != 0 {
          sender.FillWindow();
        }
      }
    }

    // The receiver and the sender take in a segment.
    method TakeIn(seg: TcpSegment)
      requires Parts() && SenderOk(sender.State())
      modifies Repr()
      ensures Parts() && State() == C.Absorb(old(State()), seg)
    {
      ghost var c := State();
      receiver.SegmentReceived(seg);
      assert State() == c.(receiver := c.receiver.Receive(seg));
      TellSender(seg);
      var waiting := TimeWaitState();
      if waiting {
        timeSince := 0;
      }
      if receiver.reassembler.output.inputEnd && !sender.stream.inputEnd {
        linger := false;
      }
    }

    method Respond(seg: TcpSegment)
      requires Parts() && SenderOk(sender.State())
      modifies Repr()
      ensures Parts() && State() == C.SendAll(Answering(old(State()), seg))
    {
      ghost var c := State();
      var ackno := receiver.Ackno();
      if seg.Length() > 0 && ackno.Some? {
        if sender.next == 0 {
          sender.FillWindow();
        }
        if sender.segmentsOut == [] {
          sender.SendEmptySegment();
        }
        assert State() == Answering(c, seg);
        SendOneOfAll(State());
        SendCommonSeg();
      }
      SendAllSegs();
    }

    method AnswerKeepAlive(seg: TcpSegment)
      requires Parts() && sender.segmentsOut == []
      modifies this`segmentsOut, sender`segmentsOut
      ensures Parts() && State() == C.KeepAlive(old(State()), seg)
    {
      var ackno := receiver.Ackno();
      if ackno.Some? && seg.Length() == 0 && seg.header.seqno == (ackno.value - 1) % TWO_32 {
        sender.SendEmptySegment();
        SendOneOfAll(State());
        SendCommonSeg();
        SendAllOfNone(State());
      }
    }

    method SegmentReceived(seg: TcpSegment)
      requires Valid()
      modifies Repr()
      ensures Valid() && State() == C.SegmentReceived(old(State()), seg)
    {
      ghost var c := State();
      DoKeeps(c, C.Arrive(seg));
      var active := Active();
      if !active {
        return;
      }
      if seg.header.rst {
        SetErrors();
        return;
      }
      HearPaced(c.sender, seg, c.timeout);
      TakeIn(seg);
      Respond(seg);
      AnswerKeepAlive(seg);
    }

    // Resets a connection that has retransmitted too often.
    method GiveUp()
      requires Parts()
      modifies Repr()
      ensures Parts() && State() == C.GiveUpOrSend(old(State()))
    {
      if sender.retransmissions > MAX_RETX_ATTEMPTS {
        SetErrors();
        SendRstSeg();
      }
      var active := Active();
      if active {
        SendAllSegs();
      }
    }

    // The sender's timer and the time in TIME-WAIT move on.
    method Age(ms: nat)
      requires Parts()
      modifies this`timeSince, sender
      ensures Parts() && State() == C.Age(old(State()), ms)
    {
      sender.Tick(ms);
      var waiting := TimeWaitState();
      if waiting {
        timeSince := timeSince + ms;
      }
    }

    method Tick(ms: nat)
      requires Valid()
      modifies Repr()
      ensures Valid() && State() == C.Elapse(old(State()), ms)
    {
      DoKeeps(State(), C.Pass(ms));
      var active := Active();
      if active {
        Age(ms);
        GiveUp();
      }
    }

    // The sender fills its window and everything it queues goes out.
    method FillAndSend()
      requires Parts() && SenderOk(sender.State())
      modifies Repr()
      ensures Parts()
      ensures State() == C.SendAll(old(State()).(sender := S.FillWindow(old(State()).sender)))
    {
      sender.FillWindow();
      SendAllSegs();
    }

    // The outbound stream takes what it has room for.
    method Accept(data: seq<byte>) returns (accepted: nat)
      requires Parts()
      modifies sender.stream
      ensures Parts()
      ensures State() == old(State()).(sender := old(State()).sender.(stream := old(State()).sender.stream.Write(data)))
      ensures accepted == Min(old(State()).sender.stream.Remaining(), |data|)
    {
      accepted := sender.stream.Write(data);
    }

    method Write(data: seq<byte>) returns (accepted: nat)
      requires Valid() && !sender.stream.inputEnd
      modifies Repr()
      ensures Valid() && State() == C.Write(old(State()), data)
      ensures accepted == Min(old(State()).sender.stream.Remaining(), |data|)
    {
      ghost var c := State();
      accepted := Accept(data);
      assert SenderOk(sender.State()) by {
        WriteKeeps(c.sender, data);
      }
      var established := ConnectionEstablish();
      if established {
        FillAndSend();
      }
      DoKeeps(c, C.Put(data));
    }

    method EndInputStream()
      requires Valid()
      modifies Repr()
      ensures Valid() && State() == C.EndInput(old(State()))
    {
      ghost var c := State();
      sender.stream.EndInput();
      assert State() == c.(sender := c.sender.(stream := c.sender.stream.End()));
      assert SenderOk(sender.State()) by {
        EndKeeps(c.sender);
      }
      FillAndSend();
      DoKeeps(c, C.Close);
    }

    method Connect()
      requires Valid() && S.FillWindow(State().sender).segmentsOut != []
      modifies Repr()
      ensures Valid() && State() == C.Connect(old(State()))
    {
      DoKeeps(State(), C.Open);
      sender.FillWindow();
      segmentsOut := segmentsOut + [sender.segmentsOut[0]];
      sender.segmentsOut := sender.segmentsOut[1..];
    }

    // The application reads from the inbound stream.
    method Read(len: nat) returns (s: seq<byte>)
      requires Valid()
      modifies receiver.reassembler.output
      ensures Valid() && State() == C.Take(old(State()), len)
      ensures s == State().receiver.Out().bytes[old(State()).receiver.Out().read..State().receiver.Out().read]
    {
      DoKeeps(State(), C.Get(len));
      s := receiver.reassembler.output.Read(len);
    }

    method RemainingOutboundCapacity() returns (n: nat)
      requires Parts()
      ensures n == State().sender.stream.Remaining()
    {
      n := sender.stream.RemainingCapacity();
    }

    method BytesInFlight() returns (n: nat)
      requires Parts()
      ensures n == State().sender.InFlight()
    {
      n := sender.BytesInFlight();
    }
  }
}

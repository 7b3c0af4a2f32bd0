/** TIME-WAIT: how long an endpoint lingers, and that the end is the end. */
module TimeWaits {
  import opened Numbers
  import opened WrappingIntegers
  import opened ByteStreams
  import opened TcpSegments
  import opened Reassembly
  import opened ReassemblyLaws
  import opened Receivers
  import opened Senders
  import opened SenderLaws
  import opened SenderTimers
  import opened Connections
  import opened ConnectionLaws
  import S = TcpStates

  // Once an endpoint is inactive no segment and no tick changes it or makes it
  // send anything.
  lemma {:induction false} InactiveIsFinal(c: Conn, calls: seq<Call>)
    requires c.Valid() && !c.Active() && forall call | call in calls :: call.Arrive? || call.Pass?
    ensures AllPermitted(c, calls) && After(c, calls) == c
  {
    if calls != [] {
      assert calls[0] in calls;
      InactiveIsFinal(c, calls[1..]);
    }
  }

  // ------------------------------------------------------ leaving TIME-WAIT

  // The peer's window once an acknowledgment has been looked at.
  function WindowAfter(s: Sender, seg: TcpSegment): u16 {
    if ReadAck(s, seg.header.ackno) >= 0 then seg.header.win else s.window
  }

  // An acknowledgment leaves a finished sender finished exactly when the window
  // is open afterwards; otherwise the FIN is sent once more, as a probe.
  lemma HearStaysDoneIff(s: Sender, seg: TcpSegment)
    requires SenderOk(s) && Finished(s) && seg.header.ack
    ensures Finished(Hear(s, seg)) <==> WindowAfter(s, seg) > 0
    ensures Hear(s, seg) == var s1 := AckReceived(s, seg.header.ackno, seg.header.win);
                            if WindowAfter(s, seg) > 0 then s1 else Probe(s1, 0, true)
  {
    FlightIsSpan(s);
    assert Flight([]) == 0;
  }

  lemma ReplyDoneIff(c: Conn, seg: TcpSegment)
    requires c.Valid() && c.sender.next > 0
    ensures Finished(Reply(c, seg).sender) <==> Finished(c.sender)
    ensures Reply(c, seg).receiver == c.receiver
  {
    ReplyAkin(c, seg);
  }

  // TIME-WAIT survives a segment other than a reset exactly when the inbound
  // stream does not grow and no acknowledgment leaves the peer's window closed.
  lemma StaysInTimeWaitIff(c: Conn, seg: TcpSegment)
    requires ConnOk(c) && c.TimeWait() && c.Active() && !seg.header.rst
    ensures SegmentReceived(c, seg).TimeWait() <==>
              && c.receiver.Receive(seg).Out().Written() == c.receiver.Out().Written()
              && (seg.header.ack ==> WindowAfter(c.sender, seg) > 0)
  {
    S.ReceiveForward(c.receiver, seg);
    if seg.header.ack {
      HearStaysDoneIff(c.sender, seg);
    }
    HearPaced(c.sender, seg, c.timeout);
    ReplyDoneIff(Absorb(c, seg), seg);
  }

  // The segment brings the byte the inbound stream needs next, and there is room
  // for it.
  predicate BringsNext(r: Receiver, seg: TcpSegment)
    requires r.reassembler.out.Valid()
  {
    var r1, w := r.Learn(seg), r.Out().Written();
    r1.isnSet && r.Out().Remaining() > 0 && r1.Index(seg) <= w < r1.Index(seg) + |seg.payload|
  }

  lemma DrainWrites(r: Reassembler, p: Piece)
    requires r.out.Valid() && r.out.Remaining() > 0 && r.pieces == [p] && p.index == r.out.Written() && p.data != []
    ensures Drain(r).out.Written() > r.out.Written()
  {
    assert HasKey(r.pieces, p.index) && At(r.pieces, p.index) == p;
    DrainForward(DrainOne(r));
  }

  lemma StoreWritesIff(r: Reassembler, data: seq<byte>, begin: nat, eof: bool)
    requires r.out.Valid() && r.out.capacity < TWO_64 && r.pieces == [] && r.size == 0 && begin >= r.out.Written()
    ensures Store(r, data, begin, eof).out.Written() > r.out.Written() <==>
              begin == r.out.Written() && data != [] && r.out.Remaining() > 0
  {
    var spare := r.out.Remaining();
    assert SpareRoom(r.out.capacity, 0, |r.out.Buffer()|) == spare;
    var p := Piece(eof, if spare >= |data| then data else data[..spare], begin);
    var placed := Placed(r.out, [], 0, p);
    assert placed.pieces == [p] && [p][1..] == [];
    assert Store(r, data, begin, eof) == Drain(placed);
    if begin == r.out.Written() && data != [] && spare > 0 {
      DrainWrites(placed, p);
    } else if begin == r.out.Written() && spare > 0 {
      assert At(placed.pieces, begin) == p && Without(placed.pieces, begin) == [];
      assert DrainOne(placed).out.bytes == r.out.bytes + [] == r.out.bytes;
    }
  }

  lemma PushWritesIff(r: Reassembler, data: seq<byte>, index: nat, eof: bool)
    requires r.out.Valid() && r.out.capacity < TWO_64 && r.pieces == [] && r.size == 0
    ensures var w := r.out.Written();
            Push(r, data, index, eof).out.Written() > w <==> r.out.Remaining() > 0 && index <= w < index + |data|
  {
    var w := r.out.Written();
    if w <= index < w + r.out.Remaining() {
      StoreWritesIff(r, data, index, eof);
    } else if index < w && w - index < |data| {
      StoreWritesIff(r, data[w - index..], w, eof);
    }
  }

  // With nothing stored, TIME-WAIT is left exactly when the segment brings a byte
  // beyond the end of the inbound stream, or an acknowledgment that leaves the
  // peer's window closed.
  lemma LeavesTimeWaitIff(c: Conn, seg: TcpSegment)
    requires ConnOk(c) && c.TimeWait() && c.Active() && !seg.header.rst
    requires c.receiver.reassembler.pieces == [] && c.receiver.reassembler.size == 0 && c.receiver.Out().capacity < TWO_64
    ensures !SegmentReceived(c, seg).TimeWait() <==>
              BringsNext(c.receiver, seg) || (seg.header.ack && WindowAfter(c.sender, seg) == 0)
  {
    StaysInTimeWaitIff(c, seg);
    S.ReceiveForward(c.receiver, seg);
    PushWritesIff(c.receiver.reassembler, seg.payload, c.receiver.Learn(seg).Index(seg), seg.header.fin);
  }

  lemma {:induction false} StampedMember(r: Receiver, segs: seq<TcpSegment>, i: nat)
    requires r.reassembler.out.Valid() && i < |segs|
    ensures |StampAll(r, segs)| == |segs| && StampAll(r, segs)[i] == Stamp(r, segs[i])
  {
    if i > 0 {
      StampedMember(r, segs[1..], i - 1);
    } else if |segs| > 1 {
      StampedMember(r, segs[1..], 0);
    }
  }

  // Everything queued goes out in the reply.
  lemma ReplySends(c: Conn, seg: TcpSegment, i: nat)
    requires c.Valid() && c.sender.next > 0 && i < |c.sender.segmentsOut|
    ensures |c.out| + i < |Reply(c, seg).out| && Reply(c, seg).out[|c.out| + i] == Stamp(c.receiver, c.sender.segmentsOut[i])
  {
    StampedMember(c.receiver, c.sender.segmentsOut, i);
  }

  // When the closed window is the reason, a FIN goes out again, under a new
  // number.
  lemma ClosedWindowSendsFin(c: Conn, seg: TcpSegment)
    requires ConnOk(c) && c.TimeWait() && c.Active() && !seg.header.rst
    requires seg.header.ack && WindowAfter(c.sender, seg) == 0
    ensures var c', i := SegmentReceived(c, seg), |c.out| + |c.sender.segmentsOut|;
            && c'.sender.probing && c'.sender.next == c.sender.next + 1
            && i < |c'.out| && c'.out[i].header.fin && c'.out[i].header.seqno == Wrap(c.sender.next, c.sender.isn)
  {
    HearStaysDoneIff(c.sender, seg);
    AckKeeps(c.sender, seg.header.ackno, seg.header.win);
    ReplyAkin(Absorb(c, seg), seg);
    ReplySends(Absorb(c, seg), seg, |c.sender.segmentsOut|);
  }

  // -------------------------------------------------------------- the clock

  // What the clock of TIME-WAIT shows after a call if it showed `t` before: the
  // time since TIME-WAIT was entered, or since the last segment processed in it.
  ghost function ClockStep(c: Conn, t: nat, call: Call): nat
    requires c.Valid() && Permitted(c, call)
  {
    if !c.TimeWait() || !Do(c, call).TimeWait() then 0
    else
      match call
      case Arrive(seg) => if c.Active() && !seg.header.rst then 0 else t
      case Pass(ms) => if c.Active() then t + ms else t
      case _ => t
  }

  ghost function Clock(c: Conn, t: nat, calls: seq<Call>): nat
    requires c.Valid() && AllPermitted(c, calls)
    decreases |calls|
  {
    if calls == [] then t else Clock(Do(c, calls[0]), ClockStep(c, t, calls[0]), calls[1..])
  }

  // The endpoint counts the time in TIME-WAIT as the clock does.
  ghost predicate OnTime(c: Conn, t: nat) {
    c.TimeWait() ==> c.idle == t
  }

  // The application reads the last inbound byte, and so brings an endpoint back
  // to TIME-WAIT whose count is already running.
  predicate ReturnsLate(c: Conn, call: Call)
    requires c.Valid()
  {
    && call.Get? && c.idle > 0 && !c.TimeWait() && Finished(c.sender)
    && c.receiver.Out().ended && |c.receiver.Out().Buffer()| <= call.n
  }

  lemma ArriveOnTime(c: Conn, seg: TcpSegment)
    requires c.Valid() && SenderOk(c.sender) && c.Active() && !seg.header.rst
    ensures SegmentReceived(c, seg).TimeWait() ==> SegmentReceived(c, seg).idle == 0
    ensures SegmentReceived(c, seg).idle == c.idle || SegmentReceived(c, seg).idle == 0
  {
    var c1 := Absorb(c, seg);
    ReplyAkin(c1, seg);
    if c1.sender.next > 0 {
      ReplyDoneIff(c1, seg);
    } else {
      NotFinishedAtFirst(c1, seg);
    }
  }

  lemma NotFinishedAtFirst(c: Conn, seg: TcpSegment)
    requires c.Valid() && c.sender.next == 0
    ensures !Finished(Reply(c, seg).sender)
  {
    ReplyAkin(c, seg);
  }

  lemma ElapseOnTime(c: Conn, ms: nat)
    requires c.Valid() && SenderOk(c.sender) && c.Active()
    ensures Elapse(c, ms).TimeWait() <==> c.TimeWait()
    ensures Elapse(c, ms).idle == if c.TimeWait() then c.idle + ms else c.idle
  {
    TickKeeps(c.sender, ms);
    GiveUpOrSendAkin(Age(c, ms));
  }

  // Filling the window never finishes a sender.
  lemma FillNeverFinishes(s: Sender)
    requires SenderOk(s) && Finished(FillWindow(s))
    ensures Finished(s)
  {
    FlightIsSpan(s);
    FillKeeps(s);
    if s.next > 0 && s.window > s.InFlight() && !s.probing {
      FillOpenOk(s);
    }
  }

  // Neither writing, nor closing, nor connecting enters TIME-WAIT.
  lemma CallsOnTime(c: Conn, call: Call)
    requires c.Valid() && SenderOk(c.sender) && Permitted(c, call) && (call.Put? || call.Close? || call.Open?)
    ensures Do(c, call).TimeWait() ==> c.TimeWait()
    ensures Do(c, call).idle == c.idle
  {
    match call
    case Put(data) =>
      WriteKeeps(c.sender, data);
      var s1 := c.sender.(stream := c.sender.stream.Write(data));
      FillKeeps(s1);
      FillEnds(s1);
    case Close =>
      EndKeeps(c.sender);
      var s1 := c.sender.(stream := c.sender.stream.End());
      if Finished(FillWindow(s1)) {
        FillNeverFinishes(s1);
      }
    case Open =>
      if Finished(FillWindow(c.sender)) {
        FillNeverFinishes(c.sender);
      }
    case _ =>
  }

  // A call keeps the endpoint on time exactly unless it is such a late return.
  lemma StepOnTimeIff(c: Conn, t: nat, call: Call)
    requires c.Valid() && SenderOk(c.sender) && Permitted(c, call) && OnTime(c, t)
    ensures OnTime(Do(c, call), ClockStep(c, t, call)) <==> !ReturnsLate(c, call)
  {
    match call
    case Arrive(seg) =>
      if c.Active() && !seg.header.rst {
        ArriveOnTime(c, seg);
      }
    case Pass(ms) =>
      if c.Active() {
        ElapseOnTime(c, ms);
      }
    case Get(n) =>
    case _ => CallsOnTime(c, call);
  }

  ghost predicate OnTimeThroughout(c: Conn, t: nat, calls: seq<Call>)
    requires c.Valid() && AllPermitted(c, calls)
    decreases |calls|
  {
    OnTime(c, t) && (calls != [] ==> OnTimeThroughout(Do(c, calls[0]), ClockStep(c, t, calls[0]), calls[1..]))
  }

  ghost predicate NeverReturnsLate(c: Conn, calls: seq<Call>)
    requires c.Valid() && AllPermitted(c, calls)
    decreases |calls|
  {
    calls != [] ==> !ReturnsLate(c, calls[0]) && NeverReturnsLate(Do(c, calls[0]), calls[1..])
  }

  lemma {:induction false} RunOnTimeIff(c: Conn, t: nat, calls: seq<Call>)
    requires ConnOk(c) && AllPermitted(c, calls) && OnTime(c, t)
    ensures OnTimeThroughout(c, t, calls) <==> NeverReturnsLate(c, calls)
    ensures NeverReturnsLate(c, calls) ==> OnTime(After(c, calls), Clock(c, t, calls))
    decreases |calls|
  {
    if calls != [] {
      DoKeeps(c, calls[0]);
      StepOnTimeIff(c, t, calls[0]);
      if !ReturnsLate(c, calls[0]) {
        RunOnTimeIff(Do(c, calls[0]), ClockStep(c, t, calls[0]), calls[1..]);
      }
    }
  }

  // TIME-WAIT is exact.  Over every run of a new connection with arbitrary
  // segments, the endpoint counts the time since it entered TIME-WAIT, or since
  // the last segment processed in it, throughout the run exactly if no read ever
  // brings it back with the count already running; and then, lingering in
  // TIME-WAIT without a reset, it is active exactly while that time is below ten
  // times the initial timeout.
  lemma TimeWaitIsExact(sendCapacity: nat, receiveCapacity: nat, timeout: u16, isn: u32, calls: seq<Call>)
    requires AllPermitted(NewConn(sendCapacity, receiveCapacity, timeout, isn), calls)
    ensures var c0 := NewConn(sendCapacity, receiveCapacity, timeout, isn);
            var c, t := After(c0, calls), Clock(c0, 0, calls);
            && (OnTimeThroughout(c0, 0, calls) <==> NeverReturnsLate(c0, calls))
            && (NeverReturnsLate(c0, calls) && c.TimeWait() && c.linger && !c.Reset() ==>
                  (c.Active() <==> t < 10 * timeout))
  {
    var c0 := NewConn(sendCapacity, receiveCapacity, timeout, isn);
    RunOnTimeIff(c0, 0, calls);
    RunKeeps(c0, calls);
  }

  // --------------------------------------------- what makes it return late

  // A segment makes the inbound stream grow after its end.
  ghost predicate GrowsEnded(c: Conn, call: Call)
    requires c.Valid()
  {
    && call.Arrive? && c.Active() && !call.segment.header.rst && c.receiver.Out().ended
    && c.receiver.Receive(call.segment).Out().Written() > c.receiver.Out().Written()
  }

  ghost predicate NeverGrowsEnded(c: Conn, calls: seq<Call>)
    requires c.Valid() && AllPermitted(c, calls)
    decreases |calls|
  {
    calls != [] ==> !GrowsEnded(c, calls[0]) && NeverGrowsEnded(Do(c, calls[0]), calls[1..])
  }

  // The count runs only once the inbound stream has been read to its end.
  ghost predicate CountsAtEnd(c: Conn) {
    c.idle > 0 ==> c.receiver.Out().Eof()
  }

  lemma ArriveCountsAtEnd(c: Conn, seg: TcpSegment)
    requires c.Valid() && SenderOk(c.sender) && CountsAtEnd(c) && !GrowsEnded(c, Arrive(seg))
    ensures CountsAtEnd(SegmentReceived(c, seg))
  {
    if c.Active() && !seg.header.rst {
      ArriveOnTime(c, seg);
      S.ReceiveForward(c.receiver, seg);
      ReplyAkin(Absorb(c, seg), seg);
    }
  }

  lemma ElapseCountsAtEnd(c: Conn, ms: nat)
    requires c.Valid() && SenderOk(c.sender) && CountsAtEnd(c)
    ensures CountsAtEnd(Elapse(c, ms))
  {
    if c.Active() {
      ElapseOnTime(c, ms);
      GiveUpOrSendAkin(Age(c, ms));
    }
  }

  lemma StepCountsAtEnd(c: Conn, call: Call)
    requires c.Valid() && SenderOk(c.sender) && Permitted(c, call) && CountsAtEnd(c) && !GrowsEnded(c, call)
    ensures CountsAtEnd(Do(c, call)) && !ReturnsLate(c, call)
  {
    match call
    case Arrive(seg) => ArriveCountsAtEnd(c, seg);
    case Pass(ms) => ElapseCountsAtEnd(c, ms);
    case Get(n) =>
    case _ => CallsOnTime(c, call);
  }

  lemma {:induction false} UngrownIsNeverLate(c: Conn, calls: seq<Call>)
    requires ConnOk(c) && AllPermitted(c, calls) && CountsAtEnd(c) && NeverGrowsEnded(c, calls)
    ensures NeverReturnsLate(c, calls)
    decreases |calls|
  {
    if calls != [] {
      DoKeeps(c, calls[0]);
      StepCountsAtEnd(c, calls[0]);
      UngrownIsNeverLate(Do(c, calls[0]), calls[1..]);
    }
  }

  // Only a peer that sends bytes beyond the end of its stream can bring an
  // endpoint back late.
  lemma LateOnlyAfterGrowth(sendCapacity: nat, receiveCapacity: nat, timeout: u16, isn: u32, calls: seq<Call>)
    requires AllPermitted(NewConn(sendCapacity, receiveCapacity, timeout, isn), calls)
    ensures var c0 := NewConn(sendCapacity, receiveCapacity, timeout, isn);
            NeverGrowsEnded(c0, calls) ==> NeverReturnsLate(c0, calls)
  {
    var c0 := NewConn(sendCapacity, receiveCapacity, timeout, isn);
    if NeverGrowsEnded(c0, calls) {
      UngrownIsNeverLate(c0, calls);
    }
  }
}

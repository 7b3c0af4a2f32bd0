/** What has left an endpoint after every run. */
module OutputRuns {
  import opened Numbers
  import opened WrappingIntegers
  import opened ByteStreams
  import opened TcpSegments
  import opened Receivers
  import opened Senders
  import opened SenderLaws
  import opened SenderTimers
  import opened Connections
  import opened ConnectionLaws
  import opened Emissions
  import opened Outputs
  import opened Answers
  import opened Retries
  import S = TcpStates
  import W = TimeWaits

  // Nothing is held back: the sender's queue is empty, unless the endpoint has
  // given up.
  ghost predicate Quiet(c: Conn) {
    && (c.sender.segmentsOut == [] || c.sender.retransmissions == 9)
    && (c.sender.next == 0 ==> c.sender.segmentsOut == [])
  }

  // A segment that carries number `n` has left.
  ghost predicate Sent(c: Conn, n: nat) {
    exists k: nat, seg: TcpSegment :: seg in c.out && Chunk(c.sender, k, seg) && k <= n < k + seg.Length()
  }

  ghost predicate AllSent(c: Conn) {
    forall n: nat | n < c.sender.next :: Sent(c, n)
  }

  ghost predicate HasReset(c: Conn) {
    exists i | 0 <= i < |c.out| :: c.out[i].header.rst
  }

  ghost predicate Law(c: Conn) {
    Sane(c) && Quiet(c) && AllSent(c) && (HasReset(c) <==> c.sender.retransmissions == 9)
  }

  // -------------------------------------------------------------------- one call

  // What a call has to hand over for the law to go on holding.
  ghost predicate Hands(c: Conn, c': Conn) {
    && c.out <= c'.out && Later(c.sender, c'.sender)
    && (forall n: nat | c.sender.next <= n < c'.sender.next :: Sent(c', n))
  }

  lemma HandsAllSent(c: Conn, c': Conn)
    requires AllSent(c) && Hands(c, c')
    ensures AllSent(c')
  {
    forall n: nat | n < c'.sender.next ensures Sent(c', n) {
      if n < c.sender.next {
        assert Sent(c, n);
        var k: nat, seg: TcpSegment :| seg in c.out && Chunk(c.sender, k, seg) && k <= n < k + seg.Length();
        ChunkLater(c.sender, c'.sender, k, seg);
        assert seg in c'.out;
      }
    }
  }

  lemma {:induction false} ConsecutiveCovers(s: Sender, segs: seq<TcpSegment>, low: nat, high: nat, n: nat) returns (k: nat, seg: TcpSegment)
    requires Consecutive(s, segs, low, high) && low <= n < high
    ensures seg in segs && Chunk(s, k, seg) && k <= n < k + seg.Length()
    decreases |segs|
  {
    if n < low + segs[0].Length() {
      k, seg := low, segs[0];
    } else {
      k, seg := ConsecutiveCovers(s, segs[1..], low + segs[0].Length(), high, n);
    }
  }

  lemma FlushesHands(c: Conn, c': Conn, n: nat)
    requires c'.Valid() && Flushes(c, c', n) && Later(c.sender, c'.sender)
    ensures Hands(c, c') && (HasReset(c') <==> HasReset(c))
  {
    var news, q := News(c, c'), |c.sender.segmentsOut|;
    var firsts := news[q..|news| - n];
    forall m: nat | c.sender.next <= m < c'.sender.next ensures Sent(c', m) {
      var k, seg := ConsecutiveCovers(c'.sender, firsts, c.sender.next, c'.sender.next, m);
      assert seg in c'.out;
    }
    SameResets(c, c');
  }

  lemma SameResets(c: Conn, c': Conn)
    requires c.out <= c'.out && forall i | 0 <= i < |News(c, c')| :: !News(c, c')[i].header.rst
    ensures HasReset(c') <==> HasReset(c)
  {
    assert c'.out == c.out + News(c, c');
    if HasReset(c') {
      var i :| 0 <= i < |c'.out| && c'.out[i].header.rst;
      assert c.out[i].header.rst;
    }
    if HasReset(c) {
      var i :| 0 <= i < |c.out| && c.out[i].header.rst;
      assert c'.out[i].header.rst;
    }
  }

  lemma SameOutput(c: Conn, c': Conn)
    requires c'.out == c.out && c'.sender.next == c.sender.next && Later(c.sender, c'.sender)
    ensures Hands(c, c') && (HasReset(c') <==> HasReset(c))
  {
    SameResets(c, c');
  }

  // `connect` before anything has been sent: the SYN leaves.
  lemma OpenHands(c: Conn)
    requires Sane(c) && Permitted(c, Open) && c.sender.next == 0 && c.sender.segmentsOut == []
    ensures var c' := Connect(c);
            && Hands(c, c') && (HasReset(c') <==> HasReset(c)) && c'.sender.segmentsOut == [] && c'.sender.next == 1
            && c'.sender.retransmissions == c.sender.retransmissions
  {
    var c', seg := Connect(c), Segment(c.sender, true, false, []);
    FillKeeps(c.sender);
    assert FillWindow(c.sender) == Send(c.sender, seg) && FillWindow(c.sender).segmentsOut == [seg];
    assert News(c, c') == [seg];
    SameResets(c, c');
    forall n: nat | c.sender.next <= n < c'.sender.next ensures Sent(c', n) {
      assert seg in c'.out && Chunk(c'.sender, 0, seg);
    }
  }

  lemma LeavesReset(c: Conn, c': Conn, seg: TcpSegment, rst: bool)
    requires Leaves(c, c', seg, rst)
    ensures HasReset(c') <==> HasReset(c) || rst
  {
    if rst {
      assert c'.out[|c.out|].header.rst;
    } else {
      SameResets(c, c');
    }
    if HasReset(c) {
      var i :| 0 <= i < |c.out| && c.out[i].header.rst;
      assert c'.out[i].header.rst;
    }
  }

  lemma DoLater(c: Conn, call: Call)
    requires Sane(c) && Permitted(c, call)
    ensures Sane(Do(c, call)) && Later(c.sender, Do(c, call).sender)
  {
    DoSane(c, call);
    S.DoMoves(c, call);
  }

  lemma ArriveLaw(c: Conn, seg: TcpSegment)
    requires Law(c)
    ensures Law(SegmentReceived(c, seg))
  {
    var c' := SegmentReceived(c, seg);
    DoLater(c, Arrive(seg));
    if !c.Active() {
    } else if seg.header.rst {
      SameOutput(c, c');
      HandsAllSent(c, c');
    } else {
      ArriveSends(c, seg);
      ResetIff(c, seg);
      FlushesHands(c, c', Blanks(c, seg));
      HandsAllSent(c, c');
    }
  }

  lemma PassLaw(c: Conn, ms: nat)
    requires Law(c)
    ensures Law(Elapse(c, ms))
  {
    var c' := Elapse(c, ms);
    DoLater(c, Pass(ms));
    if c.Active() {
      TickKeeps(c.sender, ms);
      ElapsedSender(c, ms);
      if !Guarding(c.sender) {
        IdlePass(c, ms);
        SameOutput(c, c');
      } else if ms < c.sender.timeLeft {
        QuietPass(c, ms);
        SameOutput(c, c');
      } else {
        ExpiryLeaves(c, ms);
        LeavesReset(c, c', Guarded(c.sender), c'.sender.retransmissions == 9);
      }
      HandsAllSent(c, c');
    }
  }

  lemma FillLaw(c: Conn, c': Conn, s: Sender)
    requires Law(c) && Sane(c') && Flushes(c, c', 0) && Later(c.sender, c'.sender)
    requires SenderOk(s) && s.retransmissions == c.sender.retransmissions && Alike(FillWindow(s), c'.sender)
    ensures Law(c')
  {
    FlushesHands(c, c', 0);
    HandsAllSent(c, c');
    FillKeepsBackOff(s, c.timeout);
  }

  lemma PutLaw(c: Conn, data: seq<byte>)
    requires Law(c) && !c.sender.stream.ended
    ensures Law(Write(c, data))
  {
    var c', s := Write(c, data), c.sender.(stream := c.sender.stream.Write(data));
    DoLater(c, Put(data));
    WriteSends(c, data);
    WriteKeeps(c.sender, data);
    OpenedIff(c);
    if Opened(c) {
      FillLaw(c, c', s);
    } else {
      SameOutput(c, c');
      HandsAllSent(c, c');
    }
  }

  lemma CloseLaw(c: Conn)
    requires Law(c)
    ensures Law(EndInput(c))
  {
    DoLater(c, Close);
    CloseSends(c);
    EndKeeps(c.sender);
    FillLaw(c, EndInput(c), c.sender.(stream := c.sender.stream.End()));
  }

  // `connect` comes before anything has been sent.
  ghost predicate Orderly(c: Conn, call: Call) {
    call.Open? ==> c.sender.next == 0
  }

  lemma DoLaw(c: Conn, call: Call)
    requires Law(c) && Permitted(c, call) && Orderly(c, call)
    ensures Law(Do(c, call))
  {
    match call {
      case Arrive(seg) => ArriveLaw(c, seg);
      case Pass(ms) => PassLaw(c, ms);
      case Put(data) => PutLaw(c, data);
      case Close => CloseLaw(c);
      case Open =>
        DoLater(c, Open);
        OpenHands(c);
        HandsAllSent(c, Connect(c));
      case Get(n) =>
        DoLater(c, call);
        SameOutput(c, Do(c, call));
        HandsAllSent(c, Do(c, call));
    }
  }

  // ------------------------------------------------------------------------ runs

  ghost predicate AllOrderly(c: Conn, calls: seq<Call>)
    requires c.Valid() && AllPermitted(c, calls)
    decreases |calls|
  {
    calls != [] ==> Orderly(c, calls[0]) && AllOrderly(Do(c, calls[0]), calls[1..])
  }

  lemma {:induction false} RunLaw(c: Conn, calls: seq<Call>)
    requires Law(c) && AllPermitted(c, calls) && AllOrderly(c, calls)
    ensures Law(After(c, calls))
    decreases |calls|
  {
    if calls != [] {
      DoLaw(c, calls[0]);
      RunLaw(Do(c, calls[0]), calls[1..]);
    }
  }

  // After every run, whatever arrives: every number the sender has used has left in
  // a segment that carries what belongs to it; nothing is queued unless the
  // endpoint has given up; and it has sent a reset exactly if it has given up,
  // after the ninth retransmission in a row.
  lemma NothingIsHeldBack(sendCapacity: nat, receiveCapacity: nat, timeout: u16, isn: u32, calls: seq<Call>)
    requires var c0 := NewConn(sendCapacity, receiveCapacity, timeout, isn); AllPermitted(c0, calls) && AllOrderly(c0, calls)
    ensures var c := After(NewConn(sendCapacity, receiveCapacity, timeout, isn), calls);
            && (forall n: nat | n < c.sender.next :: Sent(c, n))
            && (c.sender.segmentsOut == [] || c.sender.retransmissions == 9)
            && (HasReset(c) <==> c.sender.retransmissions == 9)
  {
    NewIsSane(sendCapacity, receiveCapacity, timeout, isn);
    RunLaw(NewConn(sendCapacity, receiveCapacity, timeout, isn), calls);
  }

  // ------------------------------------------------------------- after every tick

  // A finished sender has nothing queued, unless the endpoint was reset.
  ghost predicate Clear(c: Conn) {
    Finished(c.sender) ==> c.sender.segmentsOut == [] || c.Reset()
  }

  lemma FillOfFinished(s: Sender)
    requires SenderOk(s) && Finished(s) && Finished(FillWindow(s))
    ensures FillWindow(s) == s
  {
    FlightIsSpan(s);
    FillKeeps(s);
  }

  lemma ArriveClear(c: Conn, seg: TcpSegment)
    requires Sane(c) && Clear(c)
    ensures Clear(SegmentReceived(c, seg))
  {
    if c.Active() && !seg.header.rst {
      ArriveSends(c, seg);
    }
  }

  lemma PassClear(c: Conn, ms: nat)
    requires Sane(c) && Clear(c)
    ensures Clear(Elapse(c, ms))
  {
    if c.Active() {
      TickKeeps(c.sender, ms);
      ElapsedSender(c, ms);
      if Finished(c.sender) {
        FlightIsSpan(c.sender);
        IdlePass(c, ms);
      }
    }
  }

  lemma OpenClear(c: Conn)
    requires Sane(c) && Clear(c) && Permitted(c, Open)
    ensures Clear(Connect(c))
  {
    if Finished(FillWindow(c.sender)) {
      W.FillNeverFinishes(c.sender);
      FillOfFinished(c.sender);
      assert c.Reset();
    }
  }

  lemma DoClear(c: Conn, call: Call)
    requires Sane(c) && Clear(c) && Permitted(c, call)
    ensures Clear(Do(c, call))
  {
    match call {
      case Arrive(seg) => ArriveClear(c, seg);
      case Pass(ms) => PassClear(c, ms);
      case Put(data) => WriteSends(c, data);
      case Close => CloseSends(c);
      case Open => OpenClear(c);
      case Get(n) =>
    }
  }

  lemma {:induction false} RunClear(c: Conn, calls: seq<Call>)
    requires Sane(c) && Clear(c) && AllPermitted(c, calls)
    ensures Sane(After(c, calls)) && Clear(After(c, calls))
    decreases |calls|
  {
    if calls != [] {
      DoSane(c, calls[0]);
      DoClear(c, calls[0]);
      RunClear(Do(c, calls[0]), calls[1..]);
    }
  }

  // After every run, a tick of an active endpoint that does not reset it leaves
  // nothing queued.
  lemma TickSendsAll(sendCapacity: nat, receiveCapacity: nat, timeout: u16, isn: u32, calls: seq<Call>, ms: nat)
    requires AllPermitted(NewConn(sendCapacity, receiveCapacity, timeout, isn), calls)
    ensures var c := After(NewConn(sendCapacity, receiveCapacity, timeout, isn), calls);
            c.Active() ==> Elapse(c, ms).Reset() || Elapse(c, ms).sender.segmentsOut == []
  {
    var c := After(NewConn(sendCapacity, receiveCapacity, timeout, isn), calls);
    NewIsSane(sendCapacity, receiveCapacity, timeout, isn);
    RunClear(NewConn(sendCapacity, receiveCapacity, timeout, isn), calls);
    if c.Active() {
      PassEmpties(c, ms);
      W.ElapseOnTime(c, ms);
    }
  }
}

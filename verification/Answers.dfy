/** What an endpoint does when a segment arrives. */
module Answers {
  import opened Numbers
  import opened WrappingIntegers
  import opened ByteStreams
  import opened Reassembly
  import opened ReassemblyLaws
  import opened TcpSegments
  import opened Receivers
  import opened Senders
  import opened SenderLaws
  import opened SenderTimers
  import opened Connections
  import opened ConnectionLaws
  import opened Emissions
  import opened Outputs
  import S = TcpStates

  // ------------------------------------------------------------------- the queue

  // `s'` has queued a first transmission of every number used since `s`, and then
  // `n` empty segments.
  ghost predicate Lined(s: Sender, s': Sender, n: nat) {
    && s.segmentsOut <= s'.segmentsOut
    && var q, queue := |s.segmentsOut|, s'.segmentsOut;
    && q + n <= |queue| && Consecutive(s', queue[q..|queue| - n], s.next, s'.next)
    && (forall i | |queue| - n <= i < |queue| :: Blank(s', queue[i]))
  }

  lemma QueuesLined(s: Sender, s': Sender)
    requires Queues(s, s')
    ensures Lined(s, s', 0)
  {
    assert s'.segmentsOut[|s.segmentsOut|..|s'.segmentsOut| - 0] == s'.segmentsOut[|s.segmentsOut|..];
  }

  lemma HearQueues(s: Sender, seg: TcpSegment)
    requires SenderOk(s)
    ensures SenderOk(Hear(s, seg)) && Queues(s, Hear(s, seg)) && (seg.header.ack && s.next > 0 ==> Sated(Hear(s, seg)))
    ensures s.next == 0 ==> Hear(s, seg).next == 0
  {
    if seg.header.ack {
      var s1 := AckReceived(s, seg.header.ackno, seg.header.win);
      AckKeeps(s, seg.header.ackno, seg.header.win);
      if s.next > 0 {
        FillKeeps(s1);
        FillSates(s1);
      } else {
        QueuesNothing(s);
      }
    } else {
      QueuesNothing(s);
    }
  }

  lemma OpeningQueues(s: Sender, s1: Sender)
    requires SenderOk(s1) && Queues(s, s1) && s1.next == 0
    ensures Queues(s, FillWindow(s1)) && FillWindow(s1).next == 1
  {
    FillKeeps(s1);
    QueuesTrans(s, s1, FillWindow(s1));
  }

  // Nothing is queued exactly when nothing was and no number has been used since.
  lemma QueuedIff(s: Sender, s': Sender)
    requires Queues(s, s')
    ensures s'.segmentsOut == [] <==> s.segmentsOut == [] && s'.next == s.next
  {
    var q := |s.segmentsOut|;
    ConsecutiveEmpty(s', s'.segmentsOut[q..], s.next, s'.next);
  }

  lemma BlankLined(s: Sender, s': Sender)
    requires s.segmentsOut == [] && s'.segmentsOut == [] && s'.next == s.next
    ensures Lined(s, SendEmptySegment(s'), 1)
  {
    var queue := SendEmptySegment(s').segmentsOut;
    assert |queue| == 1 && queue[0..|queue| - 1] == [];
  }

  // `s` with its window filled if its SYN has not been sent.
  function OpenedUp(s: Sender): (s': Sender)
    requires s.stream.Valid()
    ensures s'.stream.Valid()
  {
    if s.next == 0 then FillWindow(s) else s
  }

  // A segment that uses numbers is answered: with what the sender has to say, or
  // else with an empty segment.
  lemma AnswerLines(s: Sender, s1: Sender)
    requires SenderOk(s1) && Queues(s, s1)
    ensures var s' := Answer(s1);
            && Lined(s, s', if s.segmentsOut == [] && s'.next == s.next then 1 else 0)
            && s'.next > 0 && Alike(OpenedUp(s1), s')
  {
    var s2, s' := OpenedUp(s1), Answer(s1);
    if s1.next == 0 {
      OpeningQueues(s, s1);
    }
    QueuesLined(s, s2);
    QueuedIff(s, s2);
    if s2.segmentsOut == [] {
      BlankLined(s, s2);
    } else {
      assert s' == s2;
    }
  }

  // ---------------------------------------------------------------- keep-alive

  // Bytes that are none leave the output as it is.
  lemma NoBytesNoChange(r: Reassembler, index: nat)
    requires r.out.Valid()
    ensures Push(r, [], index, false).out == r.out
  {
    var o := Plan(r, [], index, false);
    if o.Fresh? {
      assert r.pieces == [];
      var p := Piece(false, [], o.begin);
      var r1 := Placed(r.out, [], r.size, p);
      assert Insert([], p) == [p];
      assert Store(r, [], o.begin, false) == Drain(r1);
      if !Drained(r1) {
        assert Without([p], p.index) == [];
        var r2 := DrainOne(r1);
        assert r2.out == r.out && r2.pieces == [];
        assert Drain(r1) == Drain(r2) == r2;
      }
    }
  }

  lemma NoNumbersNoChange(r: Receiver, seg: TcpSegment)
    requires r.reassembler.out.Valid() && seg.Length() == 0
    ensures r.Receive(seg).Out() == r.Out() && r.Receive(seg).isn == r.isn && r.Receive(seg).isnSet == r.isnSet
  {
    NoBytesNoChange(r.reassembler, r.Index(seg));
  }

  // The segment uses no number and names the last number acknowledged.
  predicate AsksForLife(r: Receiver, seg: TcpSegment) {
    r.isnSet && seg.Length() == 0 && seg.header.seqno == (Wrap(r.AckPoint(), r.isn) - 1) % TWO_32
  }

  lemma KeepAliveIff(r: Receiver, d: Conn, seg: TcpSegment)
    requires r.reassembler.out.Valid() && d.Valid() && d.receiver == r.Receive(seg)
    ensures KeepAlive(d, seg) == if AsksForLife(r, seg) then SendAll(d.(sender := SendEmptySegment(d.sender))) else d
  {
    if seg.Length() == 0 {
      NoNumbersNoChange(r, seg);
    }
  }

  // An empty segment goes out.
  lemma BlankLeaves(d: Conn)
    requires Tidy(d) && d.sender.segmentsOut == []
    ensures var c' := SendAll(d.(sender := SendEmptySegment(d.sender)));
            && Tidy(c') && Emits(d, c') && c'.receiver == d.receiver && c'.sender == d.sender
            && |c'.out| == |d.out| + 1 && Blank(d.sender, c'.out[|d.out|]) && !c'.out[|d.out|].header.rst
  {
    var e := d.(sender := SendEmptySegment(d.sender));
    StampAllTells(d.receiver, e.sender.segmentsOut);
    SendAllEmits(e);
  }

  // What is new, when one segment more has left.
  lemma NewsOneMore(c: Conn, d: Conn, c': Conn)
    requires c.out <= d.out <= c'.out && |c'.out| == |d.out| + 1
    ensures c.out <= c'.out && News(c, c') == News(c, d) + [c'.out[|d.out|]]
  {
    assert c'.out == d.out + [c'.out[|d.out|]];
  }

  // One empty segment more.
  lemma FlushesOneMore(c: Conn, d: Conn, c': Conn)
    requires d.Valid() && c'.Valid() && Flushes(c, d, 0) && Emits(d, c') && c'.receiver == d.receiver && c'.sender == d.sender
    requires |c'.out| == |d.out| + 1 && Blank(d.sender, c'.out[|d.out|]) && !c'.out[|d.out|].header.rst
    ensures Flushes(c, c', 1)
  {
    EmitsTrans(c, d, c');
    NewsOneMore(c, d, c');
    var news, more, q := News(c, d), News(c, c'), |c.sender.segmentsOut|;
    assert more[q..|more| - 1] == news[q..|news| - 0];
    forall i | 0 <= i < q ensures SameData(c.sender.segmentsOut[i], more[i]) {
      assert more[i] == news[i];
    }
    forall i | 0 <= i < |more| ensures !more[i].header.rst {
      if i < |news| {
        assert more[i] == news[i];
      }
    }
  }

  // ------------------------------------------------------------------- arrivals

  // The peer's SYN is known once `seg` has arrived.
  predicate Knowing(c: Conn, seg: TcpSegment) {
    c.receiver.isnSet || seg.header.syn
  }

  lemma AbsorbTidy(c: Conn, seg: TcpSegment)
    requires Sane(c) && (Knowing(c, seg) ==> c.sender.next > 0)
    ensures Tidy(Absorb(c, seg))
  {
    HearPlain(c.sender, seg);
    HearQueues(c.sender, seg);
    QueuedIff(c.sender, Hear(c.sender, seg));
    ConsecutiveEmpty(Hear(c.sender, seg), Hear(c.sender, seg).segmentsOut[|c.sender.segmentsOut|..], c.sender.next, Hear(c.sender, seg).next);
  }

  lemma AnsweringFlushes(c: Conn, c1: Conn)
    requires c1.Valid() && c1.out == c.out && Plain(c1.sender) && SenderOk(c1.sender) && Queues(c.sender, c1.sender)
    ensures var c', s' := SendAll(c1.(sender := Answer(c1.sender))), Answer(c1.sender);
            Flushes(c, c', if c.sender.segmentsOut == [] && s'.next == c.sender.next then 1 else 0) && s'.next > 0
  {
    AnswerPlain(c1.sender);
    AnswerLines(c.sender, c1.sender);
    var c2 := c1.(sender := Answer(c1.sender));
    SendAllFlushes(c, c2, if c.sender.segmentsOut == [] && c2.sender.next == c.sender.next then 1 else 0);
  }

  lemma DataAnswered(c: Conn, seg: TcpSegment)
    requires Sane(c) && Knowing(c, seg) && seg.Length() > 0
    ensures var c' := Reply(Absorb(c, seg), seg);
            Flushes(c, c', if c.sender.segmentsOut == [] && c'.sender.next == c.sender.next then 1 else 0) && c'.sender.next > 0
  {
    var c1 := Absorb(c, seg);
    HearPlain(c.sender, seg);
    HearQueues(c.sender, seg);
    AnsweringFlushes(c, c1);
    assert Reply(c1, seg) == SendAll(c1.(sender := Answer(c1.sender)));
  }

  lemma OtherFlushed(c: Conn, seg: TcpSegment)
    requires Sane(c) && !(Knowing(c, seg) && seg.Length() > 0)
    ensures Flushes(c, Reply(Absorb(c, seg), seg), if AsksForLife(c.receiver, seg) then 1 else 0)
  {
    var c1 := Absorb(c, seg);
    var d := SendAll(c1);
    AbsorbTidy(c, seg);
    HearQueues(c.sender, seg);
    QueuesLined(c.sender, c1.sender);
    SendAllFlushes(c, c1, 0);
    SendAllEmits(c1);
    assert Reply(c1, seg) == KeepAlive(d, seg);
    KeepAliveIff(c.receiver, d, seg);
    if AsksForLife(c.receiver, seg) {
      BlankLeaves(d);
      FlushesOneMore(c, d, Reply(c1, seg));
    }
  }

  // How many empty segments the arrival of `seg` makes an endpoint send: one if it
  // uses numbers and nothing else is sent, one if it asks for a sign of life.
  ghost function Blanks(c: Conn, seg: TcpSegment): nat
    requires c.Valid()
  {
    if Knowing(c, seg) && seg.Length() > 0
    then if c.sender.segmentsOut == [] && SegmentReceived(c, seg).sender.next == c.sender.next then 1 else 0
    else if AsksForLife(c.receiver, seg) then 1 else 0
  }

  // What leaves when a segment arrives: everything queued, a first transmission of
  // every number used, and the empty segments; each tells where the receiver
  // stands now.
  lemma ArriveSends(c: Conn, seg: TcpSegment)
    requires Sane(c) && c.Active() && !seg.header.rst
    ensures Flushes(c, SegmentReceived(c, seg), Blanks(c, seg))
    ensures Knowing(c, seg) && seg.Length() > 0 ==> SegmentReceived(c, seg).sender.next > 0
  {
    if Knowing(c, seg) && seg.Length() > 0 {
      DataAnswered(c, seg);
    } else {
      OtherFlushed(c, seg);
    }
  }

  // Something leaves exactly when something was queued, a number has been used or
  // an empty segment is sent.
  lemma FlushesIff(c: Conn, c': Conn, n: nat)
    requires c'.Valid() && Flushes(c, c', n)
    ensures c.out <= c'.out && (c.out != c'.out <==> c.sender.segmentsOut != [] || c'.sender.next > c.sender.next || n > 0)
  {
    var news, q := News(c, c'), |c.sender.segmentsOut|;
    ConsecutiveEmpty(c'.sender, news[q..|news| - n], c.sender.next, c'.sender.next);
  }

  // The acknowledgment and window fields of what is sent.
  ghost predicate Acknowledges(r: Receiver, seg: TcpSegment)
    requires r.reassembler.out.Valid()
  {
    && seg.header.ack && seg.header.ackno == Wrap(r.Out().Written() + (if r.Out().ended then 2 else 1), r.isn)
    && seg.header.win == r.Out().Remaining() % TWO_16
  }

  lemma EmitsAcknowledge(c: Conn, c': Conn)
    requires c'.Valid() && Emits(c, c') && c'.receiver.isnSet
    ensures forall i | |c.out| <= i < |c'.out| :: Acknowledges(c'.receiver, c'.out[i])
  {
    forall i | |c.out| <= i < |c'.out| ensures Acknowledges(c'.receiver, c'.out[i]) {
      assert Tells(c'.receiver, c'.out[i]);
    }
  }

  // Every segment that uses numbers is answered at once, if the peer's SYN is
  // known, and every segment of the answer acknowledges all that has been
  // assembled.
  lemma DataIsAcknowledged(c: Conn, seg: TcpSegment)
    requires Sane(c) && c.Active() && !seg.header.rst && seg.Length() > 0 && (c.receiver.isnSet || seg.header.syn)
    ensures var c' := SegmentReceived(c, seg);
            && c.out < c'.out && c'.receiver == c.receiver.Receive(seg) && c'.receiver.isnSet
            && forall i | |c.out| <= i < |c'.out| :: Acknowledges(c'.receiver, c'.out[i])
  {
    var c' := SegmentReceived(c, seg);
    assert Emits(c, c') && c.out != c'.out by {
      ArriveSends(c, seg);
      FlushesIff(c, c', Blanks(c, seg));
    }
    ReplyAkin(Absorb(c, seg), seg);
    EmitsAcknowledge(c, c');
  }

  // With nothing queued and nothing new to say, an arriving segment is answered
  // exactly when it uses numbers and the peer's SYN is known, or it asks for a
  // sign of life.
  lemma AnsweredIff(c: Conn, seg: TcpSegment)
    requires Sane(c) && c.Active() && !seg.header.rst && c.sender.segmentsOut == []
    ensures SegmentReceived(c, seg).out != c.out <==>
              || SegmentReceived(c, seg).sender.next > c.sender.next
              || (seg.Length() > 0 && (c.receiver.isnSet || seg.header.syn))
              || AsksForLife(c.receiver, seg)
  {
    ArriveSends(c, seg);
    FlushesIff(c, SegmentReceived(c, seg), Blanks(c, seg));
  }

  lemma {:induction false} ConsecutiveUse(s: Sender, segs: seq<TcpSegment>, low: nat, high: nat, i: nat)
    requires Consecutive(s, segs, low, high) && i < |segs|
    ensures segs[i].Length() > 0
    decreases |segs|
  {
    if i > 0 {
      ConsecutiveUse(s, segs[1..], low + segs[0].Length(), high, i - 1);
    }
  }

  // With nothing queued, the new segments hold an empty one exactly if `n` says so.
  lemma BlankIff(c: Conn, c': Conn, n: nat)
    requires c'.Valid() && c.sender.segmentsOut == [] && Flushes(c, c', n)
    ensures (exists i | |c.out| <= i < |c'.out| :: c'.out[i].Length() == 0) <==> n > 0
  {
    var news := News(c, c');
    var firsts := news[0..|news| - n];
    forall i | |c.out| <= i < |c'.out| && c'.out[i].Length() == 0 ensures n > 0 {
      if i - |c.out| < |firsts| {
        ConsecutiveUse(c'.sender, firsts, c.sender.next, c'.sender.next, i - |c.out|);
      }
    }
    if n > 0 {
      assert Blank(c'.sender, news[|news| - 1]) && news[|news| - 1] == c'.out[|c'.out| - 1];
    }
  }

  // A segment that uses no number is answered with an empty segment exactly when it
  // asks for a sign of life, and the answer says where the receiver stands.
  lemma LifeIsShownIff(c: Conn, seg: TcpSegment)
    requires Sane(c) && c.Active() && !seg.header.rst && seg.Length() == 0 && c.sender.segmentsOut == []
    ensures var c' := SegmentReceived(c, seg);
            && ((exists i | |c.out| <= i < |c'.out| :: c'.out[i].Length() == 0) <==> AsksForLife(c.receiver, seg))
            && (c'.receiver.isnSet ==> forall i | |c.out| <= i < |c'.out| :: Acknowledges(c'.receiver, c'.out[i]))
  {
    var c' := SegmentReceived(c, seg);
    ArriveSends(c, seg);
    BlankIff(c, c', Blanks(c, seg));
    if c'.receiver.isnSet {
      EmitsAcknowledge(c, c');
    }
  }

  // -------------------------------------------------------- the window is filled

  lemma AlikeSated(s: Sender, s': Sender)
    requires s.stream.Valid() && s'.stream.Valid() && Alike(s, s') && Sated(s)
    ensures Sated(s')
  {
    assert s'.stream.Buffer() == s.stream.Buffer();
  }

  // An acknowledgment makes everything leave that the window now lets through.
  lemma AckReleases(c: Conn, seg: TcpSegment)
    requires Sane(c) && c.Active() && !seg.header.rst && seg.header.ack && c.sender.next > 0
    ensures Sated(SegmentReceived(c, seg).sender)
  {
    var c1 := Absorb(c, seg);
    HearQueues(c.sender, seg);
    QueuedIff(c.sender, c1.sender);
    ConsecutiveEmpty(c1.sender, c1.sender.segmentsOut[|c.sender.segmentsOut|..], c.sender.next, c1.sender.next);
    ReplyAkin(c1, seg);
    assert Alike(c1.sender, Reply(c1, seg).sender);
    AlikeSated(c1.sender, Reply(c1, seg).sender);
  }

  // ---------------------------------------------------------------------- resets

  lemma ReceiveErrors(r: Receiver, seg: TcpSegment)
    requires r.reassembler.out.Valid()
    ensures r.Receive(seg).Out().error == r.Out().error
  {
    PushForward(r.reassembler, seg.payload, r.Learn(seg).Index(seg), seg.header.fin);
  }

  // An arriving segment breaks the connection off exactly when it is a reset: both
  // streams are then in error, the endpoint is inactive, and nothing is sent.
  lemma ResetIff(c: Conn, seg: TcpSegment)
    requires Sane(c) && c.Active()
    ensures var c' := SegmentReceived(c, seg);
            && (c'.sender.stream.error && c'.receiver.Out().error <==> seg.header.rst)
            && (seg.header.rst ==> !c'.Active() && c'.out == c.out
                                   && c'.sender.stream.bytes == c.sender.stream.bytes && c'.receiver.Out().bytes == c.receiver.Out().bytes)
  {
    if !seg.header.rst {
      HearPaced(c.sender, seg, c.timeout);
      ReceiveErrors(c.receiver, seg);
      ReplyAkin(Absorb(c, seg), seg);
      AnswerErrors(Hear(c.sender, seg));
    }
  }

  // ------------------------------------------------------------------- lingering

  // The inbound stream has ended and the outbound one has not.
  predicate PeerFirst(c: Conn) {
    c.receiver.Out().ended && !c.sender.stream.ended
  }

  // At some time in the run, the end included.
  ghost predicate EverPeerFirst(c: Conn, calls: seq<Call>)
    requires c.Valid() && AllPermitted(c, calls)
    decreases |calls|
  {
    PeerFirst(c) || (calls != [] && EverPeerFirst(Do(c, calls[0]), calls[1..]))
  }

  lemma HearEnds(s: Sender, seg: TcpSegment)
    requires SenderOk(s)
    ensures Hear(s, seg).stream.ended == s.stream.ended
  {
    if seg.header.ack {
      AckKeeps(s, seg.header.ackno, seg.header.win);
      FillEnds(AckReceived(s, seg.header.ackno, seg.header.win));
    }
  }

  lemma ReplyEnds(c: Conn, seg: TcpSegment)
    requires c.Valid() && SenderOk(c.sender)
    ensures Reply(c, seg).sender.stream.ended == c.sender.stream.ended && Reply(c, seg).linger == c.linger
  {
    FillEnds(c.sender);
    ReplyAkin(c, seg);
  }

  lemma ArriveLingers(c: Conn, seg: TcpSegment)
    requires Sane(c) && (PeerFirst(c) ==> !c.linger)
    ensures SegmentReceived(c, seg).linger <==> c.linger && !PeerFirst(SegmentReceived(c, seg))
  {
    if c.Active() && !seg.header.rst {
      HearEnds(c.sender, seg);
      HearQueues(c.sender, seg);
      ReplyEnds(Absorb(c, seg), seg);
      ReplyAkin(Absorb(c, seg), seg);
    }
  }

  // What decides about lingering is as it was, but for `ended` outbound.
  ghost predicate SameEnds(c: Conn, c': Conn, ended: bool) {
    c'.linger == c.linger && c'.receiver.Out().ended == c.receiver.Out().ended && c'.sender.stream.ended == ended
  }

  lemma GiveUpEnds(c: Conn)
    requires c.Valid()
    ensures SameEnds(c, GiveUpOrSend(c), c.sender.stream.ended)
  {
  }

  lemma ElapseEnds(c: Conn, ms: nat)
    requires c.Valid()
    ensures SameEnds(c, Elapse(c, ms), c.sender.stream.ended)
  {
    if c.Active() {
      var c1 := Age(c, ms);
      assert c1.sender == Tick(c.sender, ms) && c1.receiver == c.receiver && c1.linger == c.linger;
      assert c1.sender.stream == c.sender.stream;
      GiveUpEnds(c1);
    }
  }

  lemma SendEnds(c: Conn, s: Sender)
    requires c.Valid() && SenderOk(s)
    ensures var c' := SendAll(c.(sender := FillWindow(s))); SameEnds(c, c', s.stream.ended)
  {
    FillEnds(s);
  }

  lemma OthersLinger(c: Conn, call: Call)
    requires Sane(c) && Permitted(c, call) && !call.Arrive?
    ensures SameEnds(c, Do(c, call), c.sender.stream.ended || call.Close?)
  {
    match call {
      case Pass(ms) => ElapseEnds(c, ms);
      case Put(data) =>
        WriteKeeps(c.sender, data);
        SendEnds(c, c.sender.(stream := c.sender.stream.Write(data)));
      case Close =>
        EndKeeps(c.sender);
        SendEnds(c, c.sender.(stream := c.sender.stream.End()));
      case Open => FillEnds(c.sender);
      case Get(n) =>
    }
  }

  // No call makes an endpoint linger again, and it stops lingering in the call
  // that leaves the inbound stream ended before the outbound one.
  lemma LingerStep(c: Conn, call: Call)
    requires Sane(c) && Permitted(c, call) && (PeerFirst(c) ==> !c.linger)
    ensures Do(c, call).linger <==> c.linger && !PeerFirst(Do(c, call))
  {
    if call.Arrive? {
      ArriveLingers(c, call.segment);
    } else {
      OthersLinger(c, call);
    }
  }

  lemma {:induction false} LingerRun(c: Conn, calls: seq<Call>)
    requires Sane(c) && AllPermitted(c, calls) && (PeerFirst(c) ==> !c.linger)
    ensures After(c, calls).linger <==> c.linger && !EverPeerFirst(c, calls)
    decreases |calls|
  {
    if calls != [] {
      DoSane(c, calls[0]);
      LingerStep(c, calls[0]);
      LingerRun(Do(c, calls[0]), calls[1..]);
    }
  }

  // Over every run of a new connection: the endpoint will linger exactly if its
  // inbound stream has at no time been ended with the outbound one still open.
  lemma LingersIff(sendCapacity: nat, receiveCapacity: nat, timeout: u16, isn: u32, calls: seq<Call>)
    requires AllPermitted(NewConn(sendCapacity, receiveCapacity, timeout, isn), calls)
    ensures var c0 := NewConn(sendCapacity, receiveCapacity, timeout, isn);
            After(c0, calls).linger <==> !EverPeerFirst(c0, calls)
  {
    NewIsSane(sendCapacity, receiveCapacity, timeout, isn);
    LingerRun(NewConn(sendCapacity, receiveCapacity, timeout, isn), calls);
  }

  // Over every run of a new connection: an endpoint is inactive exactly if it was
  // reset, or both streams are finished and it need not linger, because the peer
  // ended first or the time is up.
  lemma ActiveIff(sendCapacity: nat, receiveCapacity: nat, timeout: u16, isn: u32, calls: seq<Call>)
    requires AllPermitted(NewConn(sendCapacity, receiveCapacity, timeout, isn), calls)
    ensures var c0 := NewConn(sendCapacity, receiveCapacity, timeout, isn);
            var c := After(c0, calls);
            !c.Active() <==> || (c.sender.stream.error && c.receiver.Out().error)
                             || (&& c.receiver.Out().Eof() && Finished(c.sender)
                                 && (EverPeerFirst(c0, calls) || c.idle >= 10 * timeout))
  {
    LingersIff(sendCapacity, receiveCapacity, timeout, isn, calls);
    RunKeeps(NewConn(sendCapacity, receiveCapacity, timeout, isn), calls);
  }
}

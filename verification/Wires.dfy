/**
 Everything an endpoint sends is something its sender holds: once what the sender
 has to send counts as being on the wire, so does every segment that goes out.
 */
module Wires {
  import opened Numbers
  import opened WrappingIntegers
  import opened TcpSegments
  import opened Receivers
  import opened Senders
  import opened SenderLaws
  import opened SenderTimers
  import opened Connections
  import opened ConnectionLaws
  import opened Emissions
  import O = OrderedTransfer
  import R = OrderedRuns

  ghost predicate Backed(wire: set<Entry>, seg: TcpSegment) {
    exists e :: e in wire && SameData(e.segment, seg)
  }

  ghost predicate Backs(wire: set<Entry>, segs: seq<TcpSegment>) {
    forall seg | seg in segs :: Backed(wire, seg)
  }

  // Everything sent or about to be sent is on the wire.
  ghost predicate AllBacked(wire: set<Entry>, c: Conn) {
    Backs(wire, c.out) && Backs(wire, c.sender.segmentsOut)
  }

  lemma BacksMore(wire: set<Entry>, more: set<Entry>, segs: seq<TcpSegment>)
    requires Backs(wire, segs) && wire <= more
    ensures Backs(more, segs)
  {
    forall seg | seg in segs ensures Backed(more, seg) {
      var e :| e in wire && SameData(e.segment, seg);
      assert e in more;
    }
  }

  lemma {:induction false} StampedFrom(r: Receiver, segs: seq<TcpSegment>, seg: TcpSegment) returns (x: TcpSegment)
    requires r.reassembler.out.Valid() && seg in StampAll(r, segs)
    ensures x in segs && SameData(x, seg)
  {
    if seg == Stamp(r, segs[0]) {
      x := segs[0];
    } else {
      x := StampedFrom(r, segs[1..], seg);
    }
  }

  lemma SendAllBacked(wire: set<Entry>, c: Conn)
    requires c.Valid() && AllBacked(wire, c)
    ensures AllBacked(wire, SendAll(c))
  {
    forall seg | seg in SendAll(c).out ensures Backed(wire, seg) {
      if seg !in c.out {
        var x := StampedFrom(c.receiver, c.sender.segmentsOut, seg);
        assert Backed(wire, x);
        var e :| e in wire && SameData(e.segment, x);
        assert SameData(e.segment, seg);
      }
    }
  }

  // `s'` has queued only segments it holds.
  ghost predicate QueuesHeld(s: Sender, s': Sender) {
    forall seg | seg in s'.segmentsOut && seg !in s.segmentsOut :: R.Held(s', seg)
  }

  lemma QueueBacked(wire: set<Entry>, s: Sender, s': Sender)
    requires Backs(wire, s.segmentsOut) && QueuesHeld(s, s')
    ensures Backs(wire + O.Sendable(s'), s'.segmentsOut)
  {
    var more := wire + O.Sendable(s');
    forall seg | seg in s'.segmentsOut ensures Backed(more, seg) {
      if seg in s.segmentsOut {
        var e :| e in wire && SameData(e.segment, seg);
        assert e in more;
      } else {
        assert R.Held(s', seg);
        var k :| Entry(k, seg) in O.Sendable(s');
        assert Entry(k, seg) in more && SameData(Entry(k, seg).segment, seg);
      }
    }
  }

  lemma FillQueues(s: Sender)
    requires s.stream.Valid()
    ensures QueuesHeld(s, FillWindow(s))
  {
    forall seg | seg in FillWindow(s).segmentsOut && seg !in s.segmentsOut ensures R.Held(FillWindow(s), seg) {
      R.FillQueuesHeld(s, seg);
    }
  }

  lemma TickQueues(s: Sender, ms: nat)
    ensures QueuesHeld(s, Tick(s, ms))
  {
    forall seg | seg in Tick(s, ms).segmentsOut && seg !in s.segmentsOut ensures R.Held(Tick(s, ms), seg) {
      R.TickQueuesHeld(s, ms, seg);
    }
  }

  lemma EmptyQueues(s: Sender)
    ensures QueuesHeld(s, SendEmptySegment(s))
  {
    var s' := SendEmptySegment(s);
    forall seg | seg in s'.segmentsOut && seg !in s.segmentsOut ensures R.Held(s', seg) {
      assert Entry(s.next, seg) in O.Sendable(s');
    }
  }

  lemma AlikeSendable(s: Sender, s': Sender)
    requires Alike(s, s')
    ensures O.Sendable(s) == O.Sendable(s')
  {
  }

  // What `c` sends next is on the wire once what its sender has to send is.
  ghost predicate Ready(wire: set<Entry>, c: Conn) {
    AllBacked(wire + O.Sendable(c.sender), c)
  }

  lemma ReadyAfter(wire: set<Entry>, c: Conn, c': Conn)
    requires AllBacked(wire, c) && c'.out == c.out && QueuesHeld(c.sender, c'.sender)
    ensures Ready(wire, c')
  {
    QueueBacked(wire, c.sender, c'.sender);
    BacksMore(wire, wire + O.Sendable(c'.sender), c.out);
  }

  lemma SendAllReady(wire: set<Entry>, c: Conn)
    requires c.Valid() && Ready(wire, c)
    ensures Ready(wire, SendAll(c))
  {
    SendAllBacked(wire + O.Sendable(c.sender), c);
    AlikeSendable(c.sender, SendAll(c).sender);
  }

  lemma EmptyReady(wire: set<Entry>, c: Conn)
    requires Ready(wire, c)
    ensures Ready(wire, c.(sender := SendEmptySegment(c.sender)))
  {
    var s' := SendEmptySegment(c.sender);
    EmptyQueues(c.sender);
    QueueBacked(wire + O.Sendable(c.sender), c.sender, s');
    AlikeSendable(c.sender, s');
    assert wire + O.Sendable(c.sender) + O.Sendable(s') == wire + O.Sendable(s');
  }

  lemma SendRstReady(wire: set<Entry>, c: Conn)
    requires c.Valid() && Ready(wire, c)
    ensures Ready(wire, SendRst(c))
  {
    EmptyReady(wire, c);
    var c1 := if c.sender.segmentsOut == [] then c.(sender := SendEmptySegment(c.sender)) else c;
    var more, first := wire + O.Sendable(c1.sender), c1.sender.segmentsOut[0];
    assert Backed(more, first);
    var e :| e in more && SameData(e.segment, first);
    forall seg | seg in SendRst(c).out ensures Backed(more, seg) {
      assert seg in c.out || SameData(e.segment, seg);
    }
  }

  lemma ReplyReady(wire: set<Entry>, c: Conn, seg: TcpSegment)
    requires c.Valid() && Ready(wire, c) && (c.sender.next == 0 ==> AllBacked(wire, c))
    ensures Ready(wire, Reply(c, seg))
  {
    if seg.Length() > 0 && c.receiver.isnSet {
      var s1 := if c.sender.next == 0 then FillWindow(c.sender) else c.sender;
      if c.sender.next == 0 {
        FillQueues(c.sender);
        ReadyAfter(wire, c, c.(sender := s1));
      }
      EmptyReady(wire, c.(sender := s1));
    }
    var c1 := Answering(c, seg);
    SendAllReady(wire, c1);
    EmptyReady(wire, SendAll(c1));
    SendAllReady(wire, SendAll(c1).(sender := SendEmptySegment(SendAll(c1).sender)));
  }

  lemma HearQueues(s: Sender, seg: TcpSegment)
    requires SenderOk(s)
    ensures QueuesHeld(s, Hear(s, seg)) && (Hear(s, seg).next == 0 ==> Hear(s, seg).segmentsOut == s.segmentsOut)
  {
    if seg.header.ack {
      AckKeeps(s, seg.header.ackno, seg.header.win);
      var s1 := AckReceived(s, seg.header.ackno, seg.header.win);
      if s1.next != 0 {
        FillQueues(s1);
        FillKeeps(s1);
      }
    }
  }

  lemma ArriveReady(wire: set<Entry>, c: Conn, seg: TcpSegment)
    requires c.Valid() && SenderOk(c.sender) && AllBacked(wire, c)
    ensures Ready(wire, SegmentReceived(c, seg))
  {
    BacksMore(wire, wire + O.Sendable(c.sender), c.out);
    BacksMore(wire, wire + O.Sendable(c.sender), c.sender.segmentsOut);
    if c.Active() {
      if seg.header.rst {
        AlikeSendable(c.sender, c.Fail().sender);
      } else {
        HearQueues(c.sender, seg);
        ReadyAfter(wire, c, Absorb(c, seg));
        ReplyReady(wire, Absorb(c, seg), seg);
      }
    }
  }

  lemma FailReady(wire: set<Entry>, c: Conn)
    requires c.Valid() && Ready(wire, c)
    ensures Ready(wire, c.Fail())
  {
    AlikeSendable(c.sender, c.Fail().sender);
  }

  lemma ElapseReady(wire: set<Entry>, c: Conn, ms: nat)
    requires c.Valid() && AllBacked(wire, c)
    ensures Ready(wire, Elapse(c, ms))
  {
    BacksMore(wire, wire + O.Sendable(c.sender), c.out);
    BacksMore(wire, wire + O.Sendable(c.sender), c.sender.segmentsOut);
    if c.Active() {
      var c1 := Age(c, ms);
      TickQueues(c.sender, ms);
      ReadyAfter(wire, c, c1);
      if c1.sender.retransmissions > MAX_RETX_ATTEMPTS {
        FailReady(wire, c1);
        SendRstReady(wire, c1.Fail());
      } else {
        SendAllReady(wire, c1);
      }
    }
  }

  lemma FillAndSendReady(wire: set<Entry>, c: Conn)
    requires c.Valid() && AllBacked(wire, c)
    ensures Ready(wire, SendAll(c.(sender := FillWindow(c.sender))))
  {
    var c1 := c.(sender := FillWindow(c.sender));
    FillQueues(c.sender);
    ReadyAfter(wire, c, c1);
    SendAllReady(wire, c1);
  }

  lemma ConnectReady(wire: set<Entry>, c: Conn)
    requires c.Valid() && AllBacked(wire, c) && FillWindow(c.sender).segmentsOut != []
    ensures Ready(wire, Connect(c))
  {
    var s := FillWindow(c.sender);
    FillQueues(c.sender);
    ReadyAfter(wire, c, c.(sender := s));
    AlikeSendable(s, Connect(c).sender);
  }

  lemma DoReady(wire: set<Entry>, c: Conn, call: Call)
    requires c.Valid() && SenderOk(c.sender) && AllBacked(wire, c) && Permitted(c, call)
    ensures Ready(wire, Do(c, call))
  {
    match call
    case Arrive(seg) => ArriveReady(wire, c, seg);
    case Pass(ms) => ElapseReady(wire, c, ms);
    case Put(data) =>
      var c1 := c.(sender := c.sender.(stream := c.sender.stream.Write(data)));
      ReadyAfter(wire, c, c1);
      FillAndSendReady(wire, c1);
    case Close => FillAndSendReady(wire, c.(sender := c.sender.(stream := c.sender.stream.End())));
    case Open => ConnectReady(wire, c);
    case Get(n) => ReadyAfter(wire, c, Take(c, n));
  }
}

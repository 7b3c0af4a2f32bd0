/**
 What holds after every run of the closed one-way system: data segments lost,
 repeated and reordered, acknowledgments lost and repeated but in order.
 */
module OrderedRuns {
  import opened Numbers
  import opened WrappingIntegers
  import opened ByteStreams
  import opened TcpSegments
  import opened Reassembly
  import opened ReassemblyLaws
  import opened ReassemblyWindow
  import opened Receivers
  import opened Senders
  import opened SenderLaws
  import opened OrderedTransfer
  import opened OrderedLaws
  import R = ReassemblyRuns
  import T = Transfer

  // ------------------------------------------------- what is queued is on the wire

  ghost predicate Held(s: Sender, seg: TcpSegment) {
    exists k :: Entry(k, seg) in Sendable(s)
  }

  lemma {:induction false} AssignHas(es: seq<Entry>, k: nat, seg: TcpSegment, e: Entry)
    requires e == Entry(k, seg) || (e in es && e.seqno != k)
    ensures e in Assign(es, k, seg)
  {
    if es != [] {
      if es[0].seqno < k {
        if e != es[0] {
          AssignHas(es[1..], k, seg, e);
        }
      }
    }
  }

  lemma {:induction false} SendBytesKeepsEntry(s: Sender, n: nat, fin: bool, e: Entry)
    requires s.stream.Valid() && n <= |s.stream.Buffer()| && e in s.outstanding && e.seqno < s.next
    ensures e in SendBytes(s, n, fin).outstanding
    decreases n
  {
    if n > 0 {
      var k := Min(n, MAX_PAYLOAD_SIZE);
      var seg := Segment(s, false, fin && k == n, s.stream.Buffer()[..k]);
      AssignHas(s.outstanding, s.next, seg, e);
      SendBytesKeepsEntry(Send(s.(stream := s.stream.Pop(k)), seg), n - k, fin, e);
    }
  }

  lemma {:induction false} SendBytesHolds(s: Sender, n: nat, fin: bool, seg: TcpSegment) returns (e: Entry)
    requires s.stream.Valid() && n <= |s.stream.Buffer()|
    requires seg in SendBytes(s, n, fin).segmentsOut && seg !in s.segmentsOut
    ensures e in SendBytes(s, n, fin).outstanding && e.segment == seg
    decreases n
  {
    var k := Min(n, MAX_PAYLOAD_SIZE);
    var first := Segment(s, false, fin && k == n, s.stream.Buffer()[..k]);
    var s1 := Send(s.(stream := s.stream.Pop(k)), first);
    if seg == first {
      e := Entry(s.next, first);
      AssignHas(s.outstanding, s.next, first, e);
      SendBytesKeepsEntry(s1, n - k, fin, e);
    } else {
      e := SendBytesHolds(s1, n - k, fin, seg);
    }
  }

  // A segment that `fill_window` queues is afterwards held as unacknowledged
  // data or as the probe.
  lemma FillQueuesHeld(s: Sender, seg: TcpSegment)
    requires s.stream.Valid() && seg in FillWindow(s).segmentsOut && seg !in s.segmentsOut
    ensures Held(FillWindow(s), seg)
  {
    var s' := FillWindow(s);
    if s.next == 0 || (s.window > s.InFlight() && !s.probing && s.stream.Eof() && s.next < s.stream.Written() + 2) {
      AssignHas(s.outstanding, s.next, seg, Entry(s.next, seg));
      assert Entry(s.next, seg) in Sendable(s');
    } else if s.window > s.InFlight() && !s.probing {
      var room, buffered := s.window - s.InFlight(), |s.stream.Buffer()|;
      var e := SendBytesHolds(s, Min(room, buffered), s.stream.ended && room > buffered, seg);
      assert Entry(e.seqno, seg) in Sendable(s');
    } else {
      assert Entry(s'.probeSeqno, seg) in Sendable(s');
    }
  }

  lemma TickQueuesHeld(s: Sender, ms: nat, seg: TcpSegment)
    requires seg in Tick(s, ms).segmentsOut && seg !in s.segmentsOut
    ensures Held(Tick(s, ms), seg)
  {
    if s.probing {
      assert Entry(s.probeSeqno, seg) in Sendable(Tick(s, ms));
    } else {
      assert s.outstanding[0] == Entry(s.outstanding[0].seqno, seg);
      assert Entry(s.outstanding[0].seqno, seg) in Sendable(Tick(s, ms));
    }
  }

  // Everything the sender has queued so far is on the wire.
  ghost predicate Transmitted(f: Flow) {
    forall seg | seg in f.sender.segmentsOut :: OnWire(f.wire, seg)
  }

  ghost predicate OnWire(wire: set<Entry>, seg: TcpSegment) {
    exists k :: Entry(k, seg) in wire
  }

  lemma NextTransmits(f: Flow, act: Act)
    requires FlowOk(f) && Enabled(f, act) && Transmitted(f)
    ensures Transmitted(Next(f, act))
  {
    var f' := Next(f, act);
    forall seg | seg in f'.sender.segmentsOut ensures OnWire(f'.wire, seg) {
      if seg in f.sender.segmentsOut {
        var k :| Entry(k, seg) in f.wire;
        assert Entry(k, seg) in f'.wire;
      } else {
        NewIsHeld(f, act, seg);
        var k :| Entry(k, seg) in Sendable(f'.sender);
        assert Entry(k, seg) in f'.wire;
      }
    }
  }

  lemma NewIsHeld(f: Flow, act: Act, seg: TcpSegment)
    requires FlowOk(f) && Enabled(f, act) && seg in Step(f, act).sender.segmentsOut && seg !in f.sender.segmentsOut
    ensures Held(Step(f, act).sender, seg)
  {
    match act
    case Fill => FillQueuesHeld(f.sender, seg);
    case Pass(ms) => TickQueuesHeld(f.sender, ms, seg);
    case Empty => assert Entry(f.sender.next, seg) in Sendable(SendEmptySegment(f.sender));
    case Hear(i) => AckKeeps(f.sender, Wrap(f.acks[i].point, f.sender.isn), f.acks[i].window);
    case _ =>
  }

  // -------------------------------------------------------------------- runs

  ghost predicate Allowed(f: Flow, acts: seq<Act>)
    requires FlowOk(f)
    decreases |acts|
  {
    acts != [] ==> Enabled(f, acts[0]) && (NextKeeps(f, acts[0]); Allowed(Next(f, acts[0]), acts[1..]))
  }

  ghost function After(f: Flow, acts: seq<Act>): (f': Flow)
    requires FlowOk(f) && Allowed(f, acts)
    ensures FlowOk(f') && (Transmitted(f) ==> Transmitted(f'))
    decreases |acts|
  {
    if acts == [] then f
    else
      NextKeeps(f, acts[0]);
      assert Transmitted(f) ==> Transmitted(Next(f, acts[0])) by {
        if Transmitted(f) {
          NextTransmits(f, acts[0]);
        }
      }
      After(Next(f, acts[0]), acts[1..])
  }

  // The sender still holds number `n`, unacknowledged or as the probe.
  ghost predicate Holds(s: Sender, n: nat) {
    (exists e :: e in s.outstanding && e.seqno <= n < e.End()) || (s.probing && n == s.probeSeqno)
  }

  lemma {:induction false} TilesHold(es: seq<Entry>, low: nat, high: nat, n: nat)
    requires Tiles(es, low, high) && low <= n < high
    ensures exists e :: e in es && e.seqno <= n < e.End()
  {
    if n < es[0].End() {
      assert es[0] in es;
    } else {
      TilesHold(es[1..], es[0].End(), high, n);
    }
  }

  // Every number from the receiver's acknowledgment point up to the next unused
  // one can still be retransmitted.
  lemma HeldUntilAcknowledged(f: Flow, n: nat)
    requires FlowOk(f) && (if f.receiver.isnSet then f.receiver.AckPoint() else 0) <= n < f.sender.next
    ensures Holds(f.sender, n)
  {
    if f.heard >= 0 {
      HeardBound(f);
    }
    if n < Limit(f.sender) {
      TilesHold(f.sender.outstanding, Base(f.sender), Limit(f.sender), n);
    }
  }

  lemma FinishedMeansDelivered(f: Flow)
    requires FlowOk(f) && Finished(f.sender)
    ensures f.receiver.Out().bytes == f.sender.stream.bytes && f.receiver.Out().ended
  {
    FlightIsSpan(f.sender);
    HeardBound(f);
    assert f.acks[f.heard] in f.acks;
  }

  // Taking in a segment makes the receiver throw stored bytes away.
  ghost predicate ThrowsAway(r: Receiver, seg: TcpSegment)
    requires r.reassembler.out.Valid()
  {
    r.Learn(seg).isnSet && Evicts(r.reassembler, seg.payload, r.Learn(seg).Index(seg), seg.header.fin)
  }

  lemma NothingThrownAway(f: Flow, e: Entry)
    requires FlowOk(f) && e in f.wire && T.Live(f.receiver, e.seqno)
    ensures !ThrowsAway(f.receiver, e.segment)
  {
    var s, r, seg := f.sender, f.receiver.Learn(e.segment), e.segment;
    assert Sound(s, f.receiver, e);
    if r.isnSet {
      assert seg.header.syn ==> seg.header.seqno == s.isn;
      EdgeBound(s, r);
      DeliveredInOrBeyond(s, r, e.seqno, seg);
      if r.Index(seg) < r.Out().Edge() {
        WindowedNeverEvicts(r.reassembler, s.stream.bytes, seg.payload, r.Index(seg), seg.header.fin);
      }
    }
  }

  // The closed system is safe.  After every run: what was delivered is a prefix
  // of what was written; one FIN number at most has been used; whatever the
  // receiver has not acknowledged can still be retransmitted; storage is
  // counted exactly, within capacity, and no arrival makes the receiver throw
  // anything away; and once the sender has finished everything was delivered.
  lemma TransferIsSafe(sendCapacity: nat, receiveCapacity: u16, timeout: u16, isn: u32, acts: seq<Act>)
    requires Allowed(Start(sendCapacity, receiveCapacity, timeout, isn), acts)
    ensures var f := After(Start(sendCapacity, receiveCapacity, timeout, isn), acts);
            var s, r := f.sender, f.receiver;
            && r.Out().bytes <= s.stream.bytes
            && s.next <= s.stream.Written() + 2
            && (forall n: nat | (if r.isnSet then r.AckPoint() else 0) <= n < s.next :: Holds(s, n))
            && r.reassembler.size == Total(r.reassembler.pieces)
            && r.reassembler.size + |r.Out().Buffer()| <= receiveCapacity
            && (forall e | Enabled(f, Deliver(e)) :: !ThrowsAway(r, e.segment))
            && (forall seg | seg in s.segmentsOut :: OnWire(f.wire, seg))
            && (Finished(s) ==> r.Out().bytes == s.stream.bytes && r.Out().ended)
  {
    var f := After(Start(sendCapacity, receiveCapacity, timeout, isn), acts);
    R.SettledShape(f.receiver.reassembler, f.sender.stream.bytes);
    CapacityKept(Start(sendCapacity, receiveCapacity, timeout, isn), acts);
    forall n: nat | (if f.receiver.isnSet then f.receiver.AckPoint() else 0) <= n < f.sender.next
      ensures Holds(f.sender, n)
    {
      HeldUntilAcknowledged(f, n);
    }
    forall e | Enabled(f, Deliver(e)) ensures !ThrowsAway(f.receiver, e.segment) {
      NothingThrownAway(f, e);
    }
    if Finished(f.sender) {
      FinishedMeansDelivered(f);
    }
  }

  lemma {:induction false} CapacityKept(f: Flow, acts: seq<Act>)
    requires FlowOk(f) && Allowed(f, acts)
    ensures After(f, acts).receiver.Out().capacity == f.receiver.Out().capacity
    decreases |acts|
  {
    if acts != [] {
      NextKeeps(f, acts[0]);
      CapacityKept(Next(f, acts[0]), acts[1..]);
    }
  }
}

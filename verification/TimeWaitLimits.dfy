/**
 Where TIME-WAIT falls short: a closed window makes an endpoint leave it, and
 bytes beyond the end of the inbound stream make it return with its count
 already running.
 */
module TimeWaitLimits {
  import opened Numbers
  import opened WrappingIntegers
  import opened ByteStreams
  import opened TcpSegments
  import opened Reassembly
  import opened Receivers
  import opened Senders
  import opened SenderLaws
  import opened Connections
  import opened ConnectionLaws
  import opened TimeWaits
  import L = SenderLimits
  import S = TcpStates

  // An empty push at the next index changes nothing but the end of the input.
  lemma PushNothing(r: Reassembler, eof: bool)
    requires r.out.Valid() && r.pieces == [] && r.size == 0 && r.out.Remaining() > 0
    ensures Push(r, [], r.out.Written(), eof) == r.(out := if eof then r.out.End() else r.out)
  {
    var w, p := r.out.Written(), Piece(eof, [], r.out.Written());
    var placed := Placed(r.out, [], 0, p);
    assert placed == r.(pieces := [p]) && [p][1..] == [];
    assert Plan(r, [], w, eof) == Fresh([], w, eof);
    assert Store(r, [], w, eof) == Drain(placed);
    assert At([p], w) == p && Without([p], w) == [];
    assert r.out.Write([]).bytes == r.out.bytes;
    var done := r.(out := if eof then r.out.End() else r.out);
    assert DrainOne(placed) == done && Drain(done) == done;
  }

  // A segment of the peer, whose initial number is 0.
  function Seg(seqno: u32, syn: bool, fin: bool, ack: bool, ackno: u32, win: u16, payload: seq<byte>): TcpSegment {
    TcpSegment(DefaultHeader().(seqno := seqno, syn := syn, fin := fin, ack := ack, ackno := ackno, win := win), payload)
  }

  const SYN_ACK := Seg(0, true, false, true, 1, 1, [])
  const FIN_ACK := Seg(1, false, true, true, 2, 1, [])
  const SHUT := Seg(2, false, false, true, 2, 0, [])

  // An endpoint without data and with nothing queued.
  ghost predicate Quiet(c: Conn, next: nat, es: seq<Entry>, ended: bool) {
    && ConnOk(c) && c.linger && c.idle == 0 && c.sender.segmentsOut == [] && !c.sender.probing
    && c.sender.isn == 0 && c.sender.stream == Stream(1, [], 0, ended, false) && c.sender.next == next < 10
    && c.sender.outstanding == es && c.timeout == 1000
  }

  ghost predicate Hears(c: Conn, ended: bool) {
    c.receiver == Receiver(Reassembler(Stream(1, [], 0, ended, false), [], 0), 0, true)
  }

  // The sender once everything sent is acknowledged.
  lemma HearsAll(s: Sender, seg: TcpSegment, e: Entry)
    requires SenderOk(s) && s.isn == 0 && 0 < s.next < 10 && s.outstanding == [e] && !s.probing && s.stream.Buffer() == []
    requires seg.header.ack && seg.header.ackno == s.next && seg.header.win > 0
    requires s.stream.ended ==> s.next == s.stream.Written() + 2
    ensures var s' := Hear(s, seg);
            && s'.isn == 0 && s'.stream == s.stream && s'.next == s.next && s'.outstanding == [] && !s'.probing
            && s'.segmentsOut == s.segmentsOut && s'.window == seg.header.win
  {
    L.Reads(s, s.next);
    assert [e][1..] == [] && Unacked([e][1..], s.next) == [];
    assert Tiles([e][1..], e.End(), s.next);
    assert Unacked([e], s.next) == [];
    assert Flight([]) == 0;
  }

  // A run of `calls` leads from `c0` to `c`.
  ghost predicate Leads(c0: Conn, calls: seq<Call>, c: Conn) {
    c0.Valid() && AllPermitted(c0, calls) && After(c0, calls) == c
  }

  // One more call.
  lemma {:induction false} Extend(c0: Conn, calls: seq<Call>, c: Conn, call: Call)
    requires Leads(c0, calls, c) && Permitted(c, call)
    ensures Leads(c0, calls + [call], Do(c, call))
    decreases |calls|
  {
    if calls == [] {
      assert calls + [call] == [call] && [call][1..] == [];
    } else {
      assert (calls + [call])[0] == calls[0] && (calls + [call])[1..] == calls[1..] + [call];
      Extend(Do(c0, calls[0]), calls[1..], c, call);
    }
  }

  lemma Answered(c: Conn, seg: TcpSegment)
    requires c.Valid() && c.sender.next > 0 && c.sender.segmentsOut == []
    ensures var c' := Reply(c, seg); c'.sender == c.sender && c'.receiver == c.receiver && c'.linger == c.linger && c'.idle == c.idle
  {
  }

  // Sequence number 1 is stream index 0, as long as nothing has been written.
  lemma TakesEmpty(r: Receiver, seg: TcpSegment)
    requires r.reassembler == Reassembler(Stream(1, [], 0, false, false), [], 0)
    requires seg.payload == [] && Receiver.DataSeqno(seg) == 1
    requires if seg.header.syn then seg.header.seqno == 0 else r.isn == 0 && r.isnSet
    ensures r.Receive(seg) == Receiver(Reassembler(Stream(1, [], 0, seg.header.fin, false), [], 0), 0, true)
  {
    assert Wrap(1, 0) == 1 && Low64(0) == 0;
    RoundTripNear(1, 0, 0);
    assert r.Learn(seg).Index(seg) == 0;
    PushNothing(r.reassembler, seg.header.fin);
  }

  // An endpoint that hears everything it has sent acknowledged, and nothing new
  // but a SYN or a FIN.
  lemma Progress(c: Conn, seg: TcpSegment, next: nat, e: Entry, ended: bool)
    requires Quiet(c, next, [e], ended) && next > 0 && (ended ==> next == 2) && c.Active()
    requires c.receiver.reassembler == Reassembler(Stream(1, [], 0, false, false), [], 0)
    requires seg.payload == [] && Receiver.DataSeqno(seg) == 1 && !seg.header.rst
    requires if seg.header.syn then seg.header.seqno == 0 else c.receiver.isn == 0 && c.receiver.isnSet
    requires seg.header.ack && seg.header.ackno == next && seg.header.win > 0 && (seg.header.fin ==> ended)
    ensures var c' := Do(c, Arrive(seg));
            Quiet(c', next, [], ended) && Hears(c', seg.header.fin) && c'.sender.window == seg.header.win
  {
    DoKeeps(c, Arrive(seg));
    HearsAll(c.sender, seg, e);
    TakesEmpty(c.receiver, seg);
    Answered(Absorb(c, seg), seg);
  }

  // The peer's SYN and its acknowledgment arrive.
  lemma HearsSyn(c: Conn, e: Entry)
    requires Quiet(c, 1, [e], false) && c.receiver == NewReceiver(1)
    ensures var c' := Do(c, Arrive(SYN_ACK)); Quiet(c', 1, [], false) && Hears(c', false) && c'.sender.window == 1
  {
    Progress(c, SYN_ACK, 1, e, false);
  }

  // The peer's FIN and its acknowledgment arrive.
  lemma HearsFin(c: Conn, e: Entry)
    requires Quiet(c, 2, [e], true) && Hears(c, false)
    ensures Quiet(Do(c, Arrive(FIN_ACK)), 2, [], true) && Hears(Do(c, Arrive(FIN_ACK)), true)
  {
    Progress(c, FIN_ACK, 2, e, true);
  }

  // A new endpoint with room for one byte either way.
  ghost predicate IsNew(c: Conn) {
    c == NewConn(1, 1, 1000, 0)
  }

  // The SYN goes out.
  lemma Opens(c: Conn)
    requires IsNew(c)
    ensures ConnOk(c) && Permitted(c, Open) && Do(c, Open).receiver == NewReceiver(1)
    ensures Quiet(Do(c, Open), 1, [Entry(0, Segment(c.sender, true, false, []))], false)
  {
    DoKeeps(c, Open);
  }

  lemma LeadsOne(c: Conn, call: Call)
    requires c.Valid() && Permitted(c, call)
    ensures Leads(c, [call], Do(c, call))
  {
    assert [call][1..] == [];
  }

  lemma Establishes(c0: Conn) returns (c: Conn)
    requires IsNew(c0)
    ensures Leads(c0, [Open] + [Arrive(SYN_ACK)], c)
    ensures Quiet(c, 1, [], false) && Hears(c, false) && c.sender.window == 1
  {
    Opens(c0);
    var c1 := Do(c0, Open);
    LeadsOne(c0, Open);
    Extend(c0, [Open], c1, Arrive(SYN_ACK));
    HearsSyn(c1, Entry(0, Segment(c0.sender, true, false, [])));
    c := Do(c1, Arrive(SYN_ACK));
  }

  lemma Closes(c: Conn)
    requires Quiet(c, 1, [], false) && Hears(c, false) && c.sender.window > 0
    ensures Quiet(Do(c, Close), 2, [Entry(1, Segment(c.sender, false, true, []))], true) && Hears(Do(c, Close), false)
  {
    var s := c.sender.(stream := c.sender.stream.End());
    DoKeeps(c, Close);
    assert Flight([]) == 0;
    assert FillWindow(s) == Send(s, Segment(s, false, true, []));
  }

  lemma IsWaiting(c: Conn)
    requires Quiet(c, 2, [], true) && Hears(c, true)
    ensures c.TimeWait() && c.Active()
  {
    assert Flight([]) == 0;
  }

  // An endpoint in TIME-WAIT.
  ghost predicate Waiting(c: Conn) {
    Quiet(c, 2, [], true) && Hears(c, true) && c.TimeWait() && c.Active()
  }

  // The FIN goes out, and the peer's FIN and its acknowledgment arrive.
  lemma Finishes(c0: Conn, calls: seq<Call>, c: Conn) returns (c': Conn)
    requires Leads(c0, calls, c) && Quiet(c, 1, [], false) && Hears(c, false) && c.sender.window == 1
    ensures Leads(c0, calls + [Close] + [Arrive(FIN_ACK)], c') && Waiting(c')
  {
    Closes(c);
    var c1, e := Do(c, Close), Entry(1, Segment(c.sender, false, true, []));
    Extend(c0, calls, c, Close);
    HearsFin(c1, e);
    Extend(c0, calls + [Close], c1, Arrive(FIN_ACK));
    c' := Do(c1, Arrive(FIN_ACK));
    IsWaiting(c');
  }

  // How a new endpoint gets to TIME-WAIT.
  const CLOSING: seq<Call> := [Open] + [Arrive(SYN_ACK)] + [Close] + [Arrive(FIN_ACK)]

  lemma Waits(c0: Conn) returns (c: Conn)
    requires IsNew(c0)
    ensures Leads(c0, CLOSING, c) && Waiting(c)
  {
    var c1 := Establishes(c0);
    c := Finishes(c0, [Open] + [Arrive(SYN_ACK)], c1);
  }

  // An acknowledgment with a closed window takes the endpoint out of TIME-WAIT,
  // and a second FIN goes out.
  lemma ClosedWindowLeaves(c0: Conn) returns (c: Conn)
    requires IsNew(c0)
    ensures Leads(c0, CLOSING, c) && c.TimeWait()
    ensures var c' := Do(c, Arrive(SHUT));
            Leads(c0, CLOSING + [Arrive(SHUT)], c') && !c'.TimeWait() && c'.sender.probing && c'.sender.next == 3
  {
    c := Waits(c0);
    L.Reads(c.sender, 2);
    StaysInTimeWaitIff(c, SHUT);
    ClosedWindowSendsFin(c, SHUT);
    Extend(c0, CLOSING, c, Arrive(SHUT));
  }

  // A byte with the number of the peer's FIN.
  function Extra(b: byte): TcpSegment {
    Seg(1, false, false, false, 0, 0, [b])
  }

  lemma ExtraGrows(r: Receiver, b: byte)
    requires r == Receiver(Reassembler(Stream(1, [], 0, true, false), [], 0), 0, true)
    ensures var r' := r.Receive(Extra(b)); r'.Out().ended && |r'.Out().Buffer()| == 1 && !r'.Out().Eof()
  {
    assert Wrap(1, 0) == 1 && Low64(0) == 0;
    RoundTripNear(1, 0, 0);
    assert r.Learn(Extra(b)).Index(Extra(b)) == 0;
    PushWritesIff(r.reassembler, [b], 0, false);
    S.ReceiveForward(r, Extra(b));
  }

  // Some time in TIME-WAIT goes by.
  lemma Idles(c: Conn)
    requires Waiting(c)
    ensures var c' := Do(c, Pass(5));
            && ConnOk(c') && c'.TimeWait() && c'.Active() && c'.idle == 5
            && c'.receiver == c.receiver && c'.sender.segmentsOut == [] && c'.sender.next == 2
  {
    DoKeeps(c, Pass(5));
    ElapseOnTime(c, 5);
    TickKeeps(c.sender, 5);
  }

  lemma Disturbs(c: Conn, b: byte)
    requires ConnOk(c) && c.TimeWait() && c.Active() && c.idle == 5 && Hears(c, true)
    requires c.sender.segmentsOut == [] && c.sender.next == 2
    ensures var c' := Do(c, Arrive(Extra(b)));
            ConnOk(c') && c'.idle == 5 && ReturnsLate(c', Get(1))
  {
    DoKeeps(c, Arrive(Extra(b)));
    ExtraGrows(c.receiver, b);
    Answered(Absorb(c, Extra(b)), Extra(b));
  }

  // Five milliseconds in TIME-WAIT, a byte beyond the end of the inbound stream,
  // and the application reads it: the endpoint is back in TIME-WAIT with five
  // milliseconds already counted, although the clock has just started.
  lemma ReturnsLateAfterGrowth(c0: Conn, b: byte) returns (c: Conn)
    requires IsNew(c0)
    ensures Leads(c0, CLOSING + [Pass(5)] + [Arrive(Extra(b))], c) && ReturnsLate(c, Get(1))
    ensures var c' := Do(c, Get(1));
            && Leads(c0, CLOSING + [Pass(5)] + [Arrive(Extra(b))] + [Get(1)], c')
            && c'.TimeWait() && c'.idle == 5 && forall t: nat :: ClockStep(c, t, Get(1)) == 0
  {
    var c1 := Waits(c0);
    Idles(c1);
    Extend(c0, CLOSING, c1, Pass(5));
    var c2 := Do(c1, Pass(5));
    Disturbs(c2, b);
    Extend(c0, CLOSING + [Pass(5)], c2, Arrive(Extra(b)));
    c := Do(c2, Arrive(Extra(b)));
    Extend(c0, CLOSING + [Pass(5)] + [Arrive(Extra(b))], c, Get(1));
  }
}

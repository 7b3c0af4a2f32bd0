/**
 The summary of an endpoint's state, and why it only ever advances, whatever
 segments arrive.
 */
module TcpStates {
  import opened Numbers
  import opened Options
  import opened WrappingIntegers
  import opened ByteStreams
  import opened TcpSegments
  import opened Reassembly
  import opened ReassemblyLaws
  import opened Receivers
  import opened Senders
  import opened SenderLaws
  import opened Connections
  import C = ConnectionLaws

  datatype SenderSummary = Closed | SynSent | SynAcked | FinSent | FinAcked | SenderError
  datatype ReceiverSummary = Listen | SynRecv | FinRecv | ReceiverError

  function SummaryOfSender(s: Sender): SenderSummary {
    if s.stream.error then SenderError
    else if s.next == 0 then Closed
    else if s.next == s.InFlight() then SynSent
    else if !s.stream.Eof() then SynAcked
    else if s.next < s.stream.Written() + 2 then SynAcked
    else if s.InFlight() != 0 then FinSent
    else FinAcked
  }

  function SummaryOfReceiver(r: Receiver): ReceiverSummary {
    if r.Out().error then ReceiverError
    else if r.Ackno().None? then Listen
    else if r.Out().ended then FinRecv
    else SynRecv
  }

  // The order in which the states are passed through.
  function SenderRank(x: SenderSummary): nat {
    match x
    case Closed => 0
    case SynSent => 1
    case SynAcked => 2
    case FinSent => 3
    case FinAcked => 4
    case SenderError => 5
  }

  function ReceiverRank(x: ReceiverSummary): nat {
    match x
    case Listen => 0
    case SynRecv => 1
    case FinRecv => 2
    case ReceiverError => 3
  }

  // ------------------------------------------------------------------ sender

  // A probe is sent only after the SYN has been acknowledged.
  ghost predicate Steady(s: Sender) {
    SenderOk(s) && (s.probing ==> Base(s) > 0)
  }

  // A later state of the sender that has given nothing back.
  ghost predicate Onward(s: Sender, s': Sender) {
    && Steady(s) && Steady(s') && Later(s, s') && Base(s) <= Base(s')
    && (s.stream.error ==> s'.stream.error)
    && (s.stream.Eof() && s.next >= s.stream.Written() + 2 && s.InFlight() == 0 ==> s'.InFlight() == 0)
  }

  lemma OnwardAdvances(s: Sender, s': Sender)
    requires Onward(s, s')
    ensures SenderRank(SummaryOfSender(s)) <= SenderRank(SummaryOfSender(s'))
  {
    FlightIsSpan(s);
    FlightIsSpan(s');
  }

  // What the summary of a sender says about what has been sent and acknowledged.
  // A probe past a finished stream does not show in it.
  lemma SenderSummaryMeans(s: Sender)
    requires Steady(s) && !s.stream.error
    ensures var x, all := SummaryOfSender(s), s.stream.Eof() && s.next >= s.stream.Written() + 2;
            && (x == Closed <==> s.next == 0)
            && (x == SynSent <==> s.next > 0 && Base(s) == 0)
            && (x == SynAcked <==> Base(s) > 0 && !all)
            && (x == FinSent <==> Base(s) > 0 && all && Base(s) < Limit(s))
            && (x == FinAcked <==> Base(s) > 0 && all && Base(s) == Limit(s))
            && (x == FinAcked && !s.probing <==> s.next > 0 && all && Base(s) == s.next)
  {
    FlightIsSpan(s);
  }

  lemma ReceiverSummaryMeans(r: Receiver)
    requires !r.Out().error
    ensures var x := SummaryOfReceiver(r);
            && (x == Listen <==> !r.isnSet)
            && (x == SynRecv <==> r.isnSet && r.AckPoint() == r.Out().Written() + 1)
            && (x == FinRecv <==> r.isnSet && r.AckPoint() == r.Out().Written() + 2)
  {
  }

  lemma OnwardTrans(s: Sender, s': Sender, s'': Sender)
    requires Onward(s, s') && Onward(s', s'')
    ensures Onward(s, s'')
  {
    LaterTrans(s, s', s'');
  }

  lemma AckOnward(s: Sender, ackno: u32, window: u16)
    requires Steady(s)
    ensures Onward(s, AckReceived(s, ackno, window))
  {
    AckKeeps(s, ackno, window);
    if ReadAck(s, ackno) >= 0 {
      UnackedEmpty(s, ReadAck(s, ackno));
    }
  }

  lemma UnackedEmpty(s: Sender, a: nat)
    requires SenderOk(s)
    ensures s.InFlight() == 0 ==> Flight(Unacked(s.outstanding, a)) == 0
  {
    FlightIsSpan(s);
  }

  lemma FillOnward(s: Sender)
    requires Steady(s)
    ensures Onward(s, FillWindow(s))
  {
    FillKeeps(s);
    C.FillErrors(s);
    FlightIsSpan(s);
    if s.next > 0 && s.window > s.InFlight() && !s.probing {
      FillOpenOk(s);
    }
  }

  lemma TickOnward(s: Sender, ms: nat)
    requires Steady(s)
    ensures Onward(s, Tick(s, ms))
  {
    TickKeeps(s, ms);
  }

  lemma AlikeOnward(s: Sender, s': Sender)
    requires Steady(s) && C.Alike(s, s') && (s.stream.error ==> s'.stream.error)
    ensures Onward(s, s')
  {
    C.AlikeKeeps(s, s');
  }

  lemma WriteOnward(s: Sender, data: seq<byte>)
    requires Steady(s) && !s.stream.ended
    ensures Onward(s, s.(stream := s.stream.Write(data)))
  {
    WriteKeeps(s, data);
  }

  lemma EndOnward(s: Sender)
    requires Steady(s)
    ensures Onward(s, s.(stream := s.stream.End()))
  {
    EndKeeps(s);
  }

  lemma HearOnward(s: Sender, seg: TcpSegment)
    requires Steady(s)
    ensures Onward(s, Hear(s, seg))
  {
    if seg.header.ack {
      var s1 := AckReceived(s, seg.header.ackno, seg.header.win);
      AckOnward(s, seg.header.ackno, seg.header.win);
      if s1.next != 0 {
        FillOnward(s1);
        OnwardTrans(s, s1, FillWindow(s1));
      }
    } else {
      AlikeOnward(s, s);
    }
  }

  lemma AnswerOnward(s: Sender)
    requires Steady(s)
    ensures Onward(s, Answer(s))
  {
    var s1 := if s.next == 0 then FillWindow(s) else s;
    FillOnward(s);
    AlikeOnward(s, s);
    AlikeOnward(s1, Answer(s));
    OnwardTrans(s, s1, Answer(s));
  }

  // ---------------------------------------------------------------- receiver

  ghost predicate Forward(r: Receiver, r': Receiver) {
    && (r.isnSet ==> r'.isnSet) && (r.Out().ended ==> r'.Out().ended) && (r.Out().error ==> r'.Out().error)
    && r.Out().Written() <= r'.Out().Written()
  }

  lemma ReceiveForward(r: Receiver, seg: TcpSegment)
    requires r.reassembler.out.Valid()
    ensures Forward(r, r.Receive(seg))
  {
    PushForward(r.reassembler, seg.payload, r.Learn(seg).Index(seg), seg.header.fin);
  }

  // -------------------------------------------------------------- connection

  ghost predicate Moves(c: Conn, c': Conn) {
    Onward(c.sender, c'.sender) && Forward(c.receiver, c'.receiver)
  }

  lemma MovesTrans(c: Conn, c': Conn, c'': Conn)
    requires Moves(c, c') && Moves(c', c'')
    ensures Moves(c, c'')
  {
    OnwardTrans(c.sender, c'.sender, c''.sender);
  }

  lemma AkinMoves(c: Conn, c': Conn)
    requires Steady(c.sender) && C.Akin(c, c')
    ensures Moves(c, c')
  {
    AlikeOnward(c.sender, c'.sender);
  }

  lemma AnsweringMoves(c: Conn, seg: TcpSegment)
    requires c.Valid() && Steady(c.sender)
    ensures Moves(c, C.Answering(c, seg))
  {
    if seg.Length() > 0 && c.receiver.isnSet {
      AnswerOnward(c.sender);
    } else {
      AlikeOnward(c.sender, c.sender);
    }
  }

  lemma ReplyMoves(c: Conn, seg: TcpSegment)
    requires c.Valid() && Steady(c.sender)
    ensures Moves(c, Reply(c, seg))
  {
    AnsweringMoves(c, seg);
    C.ReplyAkin(c, seg);
    AkinMoves(C.Answering(c, seg), Reply(c, seg));
    MovesTrans(c, C.Answering(c, seg), Reply(c, seg));
  }

  lemma ArriveMoves(c: Conn, seg: TcpSegment)
    requires c.Valid() && Steady(c.sender)
    ensures Moves(c, SegmentReceived(c, seg))
  {
    if !c.Active() {
      AlikeOnward(c.sender, c.sender);
    } else if seg.header.rst {
      AlikeOnward(c.sender, c.Fail().sender);
    } else {
      ReceiveForward(c.receiver, seg);
      HearOnward(c.sender, seg);
      ReplyMoves(Absorb(c, seg), seg);
      MovesTrans(c, Absorb(c, seg), SegmentReceived(c, seg));
    }
  }

  lemma GiveUpOrSendMoves(c: Conn)
    requires c.Valid() && Steady(c.sender)
    ensures Moves(c, GiveUpOrSend(c))
  {
    C.GiveUpOrSendAkin(c);
    AkinMoves(c, GiveUpOrSend(c));
  }

  lemma ElapseMoves(c: Conn, ms: nat)
    requires c.Valid() && Steady(c.sender)
    ensures Moves(c, Elapse(c, ms))
  {
    if c.Active() {
      TickOnward(c.sender, ms);
      GiveUpOrSendMoves(Age(c, ms));
      MovesTrans(c, Age(c, ms), Elapse(c, ms));
    } else {
      AlikeOnward(c.sender, c.sender);
    }
  }

  lemma WriteMoves(c: Conn, data: seq<byte>)
    requires c.Valid() && Steady(c.sender) && !c.sender.stream.ended
    ensures Moves(c, Write(c, data))
  {
    var c1 := c.(sender := c.sender.(stream := c.sender.stream.Write(data)));
    WriteOnward(c.sender, data);
    if c1.Established() {
      FillOnward(c1.sender);
      AlikeOnward(FillWindow(c1.sender), Write(c, data).sender);
      OnwardTrans(c1.sender, FillWindow(c1.sender), Write(c, data).sender);
      OnwardTrans(c.sender, c1.sender, Write(c, data).sender);
    }
  }

  // `s'` is `s` after filling its window and passing segments on.
  lemma FillAndSendOnward(s: Sender, s': Sender)
    requires Steady(s) && C.Alike(FillWindow(s), s') && s'.stream.error == s.stream.error
    ensures Onward(s, s')
  {
    FillOnward(s);
    C.FillErrors(s);
    AlikeOnward(FillWindow(s), s');
    OnwardTrans(s, FillWindow(s), s');
  }

  lemma CloseMoves(c: Conn)
    requires c.Valid() && Steady(c.sender)
    ensures Moves(c, EndInput(c))
  {
    var s1 := c.sender.(stream := c.sender.stream.End());
    EndOnward(c.sender);
    C.FillErrors(s1);
    FillAndSendOnward(s1, EndInput(c).sender);
    OnwardTrans(c.sender, s1, EndInput(c).sender);
  }

  lemma ConnectMoves(c: Conn)
    requires c.Valid() && Steady(c.sender) && FillWindow(c.sender).segmentsOut != []
    ensures Moves(c, Connect(c))
  {
    C.FillErrors(c.sender);
    FillAndSendOnward(c.sender, Connect(c).sender);
  }

  lemma DoMoves(c: Conn, call: Call)
    requires c.Valid() && Steady(c.sender) && Permitted(c, call)
    ensures Moves(c, Do(c, call))
  {
    match call
    case Arrive(seg) => ArriveMoves(c, seg);
    case Pass(ms) => ElapseMoves(c, ms);
    case Put(data) => WriteMoves(c, data);
    case Close => CloseMoves(c);
    case Open => ConnectMoves(c);
    case Get(n) => AlikeOnward(c.sender, c.sender);
  }

  lemma MovesAdvance(c: Conn, c': Conn)
    requires Moves(c, c')
    ensures SenderRank(SummaryOfSender(c.sender)) <= SenderRank(SummaryOfSender(c'.sender))
    ensures ReceiverRank(SummaryOfReceiver(c.receiver)) <= ReceiverRank(SummaryOfReceiver(c'.receiver))
  {
    OnwardAdvances(c.sender, c'.sender);
  }

  // Over every run, with arbitrary segments arriving, both summaries only
  // advance through their orders, and an error is final.
  lemma {:induction false} StatesOnlyAdvance(c: Conn, calls: seq<Call>)
    requires c.Valid() && Steady(c.sender) && C.AllPermitted(c, calls)
    ensures var c' := C.After(c, calls);
            && Steady(c'.sender)
            && SenderRank(SummaryOfSender(c.sender)) <= SenderRank(SummaryOfSender(c'.sender))
            && ReceiverRank(SummaryOfReceiver(c.receiver)) <= ReceiverRank(SummaryOfReceiver(c'.receiver))
    decreases |calls|
  {
    if calls != [] {
      DoMoves(c, calls[0]);
      MovesAdvance(c, Do(c, calls[0]));
      StatesOnlyAdvance(Do(c, calls[0]), calls[1..]);
    }
  }

  // From the start of a connection, between any two points of any run.
  lemma AdvanceFromStart(sendCapacity: nat, receiveCapacity: nat, timeout: u16, isn: u32, first: seq<Call>, later: seq<Call>)
    requires var c0 := NewConn(sendCapacity, receiveCapacity, timeout, isn);
             C.AllPermitted(c0, first) && C.AllPermitted(C.After(c0, first), later)
    ensures var c1 := C.After(NewConn(sendCapacity, receiveCapacity, timeout, isn), first);
            var c2 := C.After(c1, later);
            && SenderRank(SummaryOfSender(c1.sender)) <= SenderRank(SummaryOfSender(c2.sender))
            && ReceiverRank(SummaryOfReceiver(c1.receiver)) <= ReceiverRank(SummaryOfReceiver(c2.receiver))
  {
    var c0 := NewConn(sendCapacity, receiveCapacity, timeout, isn);
    StatesOnlyAdvance(c0, first);
    StatesOnlyAdvance(C.After(c0, first), later);
  }
}

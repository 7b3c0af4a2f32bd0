/** What an endpoint sends: its receiver's state, stamped on every segment. */
module Emissions {
  import opened Numbers
  import opened WrappingIntegers
  import opened ByteStreams
  import opened TcpSegments
  import opened Receivers
  import opened Senders
  import opened SenderTimers
  import opened Connections

  // ------------------------------------------- the sender does not acknowledge

  // The segment carries neither an acknowledgment nor a reset.
  ghost predicate Bare(seg: TcpSegment) {
    !seg.header.ack && !seg.header.rst
  }

  // The segments of a sender are bare.
  ghost predicate Plain(s: Sender) {
    && (forall e | e in s.outstanding :: Bare(e.segment)) && Bare(s.probe)
    && (forall seg | seg in s.segmentsOut :: Bare(seg))
  }

  lemma {:induction false} AssignMembers(es: seq<Entry>, k: nat, seg: TcpSegment, e: Entry)
    requires e in Assign(es, k, seg)
    ensures e in es || e == Entry(k, seg)
  {
    if es != [] && es[0].seqno < k && e != es[0] {
      AssignMembers(es[1..], k, seg, e);
    }
  }

  lemma SendPlain(s: Sender, seg: TcpSegment)
    requires Plain(s) && Bare(seg)
    ensures Plain(Send(s, seg))
  {
    forall e | e in Send(s, seg).outstanding ensures Bare(e.segment) {
      AssignMembers(s.outstanding, s.next, seg, e);
    }
  }

  lemma {:induction false} SendBytesPlain(s: Sender, n: nat, fin: bool)
    requires s.stream.Valid() && n <= |s.stream.Buffer()| && Plain(s)
    ensures Plain(SendBytes(s, n, fin))
    decreases n
  {
    if n > 0 {
      var k := Min(n, MAX_PAYLOAD_SIZE);
      var t, seg := s.(stream := s.stream.Pop(k)), Segment(s, false, fin && k == n, s.stream.Buffer()[..k]);
      SendPlain(t, seg);
      SendBytesPlain(Send(t, seg), n - k, fin);
    }
  }

  lemma FillPlain(s: Sender)
    requires s.stream.Valid() && Plain(s)
    ensures Plain(FillWindow(s))
  {
    SendPlain(s, Segment(s, true, false, []));
    SendPlain(s, Segment(s, false, true, []));
    if s.window > s.InFlight() {
      var room, buffered := s.window - s.InFlight(), |s.stream.Buffer()|;
      SendBytesPlain(s, Min(room, buffered), s.stream.ended && room > buffered);
    }
  }

  lemma AckPlain(s: Sender, ackno: u32, window: u16)
    requires Plain(s)
    ensures Plain(AckReceived(s, ackno, window))
  {
    var a := ReadAck(s, ackno);
    if a >= 0 {
      forall e | e in Unacked(s.outstanding, a) ensures Bare(e.segment) {
        UnackedMembers(s.outstanding, a, e);
      }
    }
  }

  lemma TickPlain(s: Sender, ms: nat)
    requires Plain(s)
    ensures Plain(Tick(s, ms))
  {
  }

  lemma HearPlain(s: Sender, seg: TcpSegment)
    requires s.stream.Valid() && Plain(s)
    ensures Plain(Hear(s, seg))
  {
    if seg.header.ack {
      AckPlain(s, seg.header.ackno, seg.header.win);
      FillPlain(AckReceived(s, seg.header.ackno, seg.header.win));
    }
  }

  lemma AnswerPlain(s: Sender)
    requires s.stream.Valid() && Plain(s)
    ensures Plain(Answer(s))
  {
    FillPlain(s);
  }

  // ------------------------------------------------------------ what is sent

  // The part of a segment that a receiver looks at.
  ghost predicate SameData(x: TcpSegment, y: TcpSegment) {
    && x.payload == y.payload && x.header.seqno == y.header.seqno
    && x.header.syn == y.header.syn && x.header.fin == y.header.fin
  }

  // `seg` says where receiver `r` stands.
  ghost predicate Tells(r: Receiver, seg: TcpSegment)
    requires r.reassembler.out.Valid()
  {
    if r.isnSet
    then seg.header.ack && seg.header.ackno == Wrap(r.AckPoint(), r.isn) && seg.header.win == r.WindowSize() % TWO_16
    else !seg.header.ack
  }

  // Everything sent between `c` and `c'` says where the receiver of `c'` stands.
  ghost predicate Emits(c: Conn, c': Conn)
    requires c'.Valid()
  {
    && c.out <= c'.out
    && (forall i | |c.out| <= i < |c'.out| :: Tells(c'.receiver, c'.out[i]))
  }

  lemma {:induction false} StampAllTells(r: Receiver, segs: seq<TcpSegment>)
    requires r.reassembler.out.Valid() && forall seg | seg in segs :: Bare(seg)
    ensures |StampAll(r, segs)| == |segs|
    ensures forall i | 0 <= i < |segs| ::
              Tells(r, StampAll(r, segs)[i]) && SameData(segs[i], StampAll(r, segs)[i]) && !StampAll(r, segs)[i].header.rst
  {
    if segs != [] {
      StampAllTells(r, segs[1..]);
      forall i | 0 <= i < |segs|
        ensures Tells(r, StampAll(r, segs)[i]) && SameData(segs[i], StampAll(r, segs)[i]) && !StampAll(r, segs)[i].header.rst
      {
        assert Bare(segs[i]);
        if i > 0 {
          assert StampAll(r, segs)[i] == StampAll(r, segs[1..])[i - 1] && segs[i] == segs[1..][i - 1];
        }
      }
    }
  }

  // An endpoint whose sender is plain and has opened its side if the peer has.
  ghost predicate Tidy(c: Conn) {
    c.Valid() && Plain(c.sender) && (c.receiver.isnSet ==> c.sender.next > 0)
  }

  lemma SendAllEmits(c: Conn)
    requires Tidy(c)
    ensures Tidy(SendAll(c)) && Emits(c, SendAll(c)) && SendAll(c).receiver == c.receiver
  {
    var segs := StampAll(c.receiver, c.sender.segmentsOut);
    StampAllTells(c.receiver, c.sender.segmentsOut);
    forall i | |c.out| <= i < |SendAll(c).out| ensures Tells(c.receiver, SendAll(c).out[i]) {
      assert SendAll(c).out[i] == segs[i - |c.out|];
    }
  }

  lemma EmitsTrans(c: Conn, c': Conn, c'': Conn)
    requires c'.Valid() && c''.Valid() && Emits(c, c') && Emits(c', c'') && c''.receiver == c'.receiver
    ensures Emits(c, c'')
  {
    forall i | |c.out| <= i < |c''.out| ensures Tells(c''.receiver, c''.out[i]) {
      if i < |c'.out| {
        assert c''.out[i] == c'.out[i];
      }
    }
  }

  lemma SendRstEmits(c: Conn)
    requires Tidy(c)
    ensures Tidy(SendRst(c)) && Emits(c, SendRst(c)) && SendRst(c).receiver == c.receiver
  {
    assert Bare(SendRst(c).sender.segmentsOut[0]);
  }

  lemma KeepAliveEmits(c: Conn, seg: TcpSegment)
    requires Tidy(c)
    ensures Tidy(KeepAlive(c, seg)) && Emits(c, KeepAlive(c, seg)) && KeepAlive(c, seg).receiver == c.receiver
  {
    SendAllEmits(c.(sender := SendEmptySegment(c.sender)));
  }

  lemma ReplyEmits(c: Conn, seg: TcpSegment)
    requires c.Valid() && Plain(c.sender) && (c.receiver.isnSet ==> c.sender.next > 0 || seg.Length() > 0)
    ensures Tidy(Reply(c, seg)) && Emits(c, Reply(c, seg)) && Reply(c, seg).receiver == c.receiver
  {
    AnswerPlain(c.sender);
    AnswerOpens(c.sender);
    var c1 := if seg.Length() > 0 && c.receiver.isnSet then c.(sender := Answer(c.sender)) else c;
    SendAllEmits(c1);
    KeepAliveEmits(SendAll(c1), seg);
    EmitsTrans(c1, SendAll(c1), Reply(c, seg));
  }

  lemma {:induction false} SendBytesOpens(s: Sender, n: nat, fin: bool)
    requires s.stream.Valid() && n <= |s.stream.Buffer()|
    ensures s.next <= SendBytes(s, n, fin).next
    decreases n
  {
    if n > 0 {
      var k := Min(n, MAX_PAYLOAD_SIZE);
      var seg := Segment(s, false, fin && k == n, s.stream.Buffer()[..k]);
      SendBytesOpens(Send(s.(stream := s.stream.Pop(k)), seg), n - k, fin);
    }
  }

  lemma FillOpens(s: Sender)
    requires s.stream.Valid()
    ensures FillWindow(s).next > 0
  {
    if s.next > 0 && s.window > s.InFlight() {
      var room, buffered := s.window - s.InFlight(), |s.stream.Buffer()|;
      SendBytesOpens(s, Min(room, buffered), s.stream.ended && room > buffered);
    }
  }

  lemma AnswerOpens(s: Sender)
    requires s.stream.Valid()
    ensures Answer(s).next > 0
  {
    FillOpens(s);
  }

  lemma ArriveEmits(c: Conn, seg: TcpSegment)
    requires Tidy(c)
    ensures Tidy(SegmentReceived(c, seg)) && Emits(c, SegmentReceived(c, seg))
  {
    if c.Active() && !seg.header.rst {
      HearPlain(c.sender, seg);
      if seg.header.ack {
        FillOpens(AckReceived(c.sender, seg.header.ackno, seg.header.win));
      }
      ReplyEmits(Absorb(c, seg), seg);
    }
  }

  lemma ElapseEmits(c: Conn, ms: nat)
    requires Tidy(c)
    ensures Tidy(Elapse(c, ms)) && Emits(c, Elapse(c, ms))
  {
    if c.Active() {
      TickPlain(c.sender, ms);
      var c1 := Age(c, ms);
      SendAllEmits(c1);
      if c1.sender.retransmissions > MAX_RETX_ATTEMPTS {
        SendRstEmits(c1.Fail());
      }
    }
  }

  lemma FillAndSendEmits(c: Conn)
    requires Tidy(c)
    ensures var c' := SendAll(c.(sender := FillWindow(c.sender))); Tidy(c') && Emits(c, c')
  {
    FillPlain(c.sender);
    FillOpens(c.sender);
    SendAllEmits(c.(sender := FillWindow(c.sender)));
  }

  lemma ConnectEmits(c: Conn)
    requires Tidy(c) && FillWindow(c.sender).segmentsOut != []
    ensures Tidy(Connect(c)) && c.out <= Connect(c).out
    ensures forall i | |c.out| <= i < |Connect(c).out| :: !Connect(c).out[i].header.ack
    ensures c.sender.next == 0 ==> Emits(c, Connect(c))
  {
    FillPlain(c.sender);
    FillOpens(c.sender);
    assert Bare(FillWindow(c.sender).segmentsOut[0]);
  }

  // Whatever an endpoint sends says where its receiver stands at that time;
  // only `connect` passes a segment on without saying anything.
  lemma DoEmits(c: Conn, call: Call)
    requires Tidy(c) && Permitted(c, call)
    ensures Tidy(Do(c, call)) && c.out <= Do(c, call).out
    ensures forall i | |c.out| <= i < |Do(c, call).out| ::
              Tells(Do(c, call).receiver, Do(c, call).out[i]) || (call.Open? && !Do(c, call).out[i].header.ack)
    ensures (call.Open? && c.sender.next > 0) || Emits(c, Do(c, call))
  {
    match call
    case Arrive(seg) => ArriveEmits(c, seg);
    case Pass(ms) => ElapseEmits(c, ms);
    case Put(data) => FillAndSendEmits(c.(sender := c.sender.(stream := c.sender.stream.Write(data))));
    case Close => FillAndSendEmits(c.(sender := c.sender.(stream := c.sender.stream.End())));
    case Open => ConnectEmits(c);
    case Get(n) =>
  }
}

/** What every run of an endpoint keeps, whatever segments arrive. */
module ConnectionLaws {
  import opened Numbers
  import opened WrappingIntegers
  import opened ByteStreams
  import opened TcpSegments
  import opened Receivers
  import opened Senders
  import opened SenderLaws
  import opened SenderTimers
  import opened Connections

  // `s'` differs from `s` at most in its queue and its error flag.
  ghost predicate Alike(s: Sender, s': Sender) {
    s' == s.(segmentsOut := s'.segmentsOut, stream := s.stream.(error := s'.stream.error))
  }

  lemma AlikeKeeps(s: Sender, s': Sender)
    requires SenderOk(s) && Alike(s, s')
    ensures SenderOk(s') && Later(s, s') && Base(s') == Base(s)
  {
    AllChunksLater(s, s', s.outstanding);
  }

  // The timeout is the configured one, doubled once per retransmission, and the
  // connection is given up before the doubling could overflow.
  ghost predicate Paced(s: Sender, timeout: u16) {
    SenderOk(s) && BackedOff(s, timeout) && s.retransmissions <= MAX_RETX_ATTEMPTS + 1
  }

  ghost predicate ConnOk(c: Conn) {
    && c.Valid() && Paced(c.sender, c.timeout)
    && (c.sender.retransmissions > MAX_RETX_ATTEMPTS ==> c.Reset())
  }

  lemma FillPaced(s: Sender, timeout: u16)
    requires Paced(s, timeout)
    ensures Paced(FillWindow(s), timeout) && FillWindow(s).retransmissions == s.retransmissions
    ensures FillWindow(s).stream.error == s.stream.error
  {
    FillKeeps(s);
    FillKeepsBackOff(s, timeout);
    FillErrors(s);
  }

  lemma FillErrors(s: Sender)
    requires SenderOk(s)
    ensures FillWindow(s).stream.error == s.stream.error
  {
    if s.next > 0 && s.window > s.InFlight() && !s.probing {
      FillOpenOk(s);
    }
  }

  lemma FillEnds(s: Sender)
    requires SenderOk(s)
    ensures FillWindow(s).stream.ended == s.stream.ended
  {
    if s.next > 0 && s.window > s.InFlight() && !s.probing {
      FillOpenOk(s);
    }
  }

  lemma AckPaced(s: Sender, ackno: u32, window: u16, timeout: u16)
    requires Paced(s, timeout)
    ensures var s' := AckReceived(s, ackno, window);
            Paced(s', timeout) && s'.retransmissions <= s.retransmissions && s'.stream == s.stream
  {
    AckKeeps(s, ackno, window);
    AckRestores(s, ackno, window, timeout);
  }

  lemma HearPaced(s: Sender, seg: TcpSegment, timeout: u16)
    requires Paced(s, timeout)
    ensures Paced(Hear(s, seg), timeout) && Hear(s, seg).retransmissions <= s.retransmissions
    ensures Hear(s, seg).stream.error == s.stream.error
  {
    if seg.header.ack {
      AckPaced(s, seg.header.ackno, seg.header.win, timeout);
      var s1 := AckReceived(s, seg.header.ackno, seg.header.win);
      if s1.next != 0 {
        FillPaced(s1, timeout);
      }
    }
  }

  lemma AlikePaced(s: Sender, s': Sender, timeout: u16)
    requires Paced(s, timeout) && Alike(s, s')
    ensures Paced(s', timeout)
  {
    AlikeKeeps(s, s');
  }

  lemma AnswerPaced(s: Sender, timeout: u16)
    requires Paced(s, timeout)
    ensures Paced(Answer(s), timeout) && Answer(s).retransmissions == s.retransmissions
  {
    FillPaced(s, timeout);
    var s1 := if s.next == 0 then FillWindow(s) else s;
    AlikePaced(s1, Answer(s), timeout);
  }

  // `c'` differs from `c` at most in what is queued and sent and in being reset.
  ghost predicate Akin(c: Conn, c': Conn) {
    && c'.timeout == c.timeout && Alike(c.sender, c'.sender)
    && (c'.receiver == c.receiver || (c'.receiver == c.receiver.Fail() && c'.sender.stream.error))
    && (c.sender.stream.error ==> c'.sender.stream.error)
  }

  lemma SendAllAkin(c: Conn)
    requires c.Valid()
    ensures Akin(c, SendAll(c))
  {
  }

  // An endpoint that is about to reply to `seg`.
  function Answering(c: Conn, seg: TcpSegment): (c': Conn)
    requires c.Valid()
    ensures c'.Valid()
  {
    if seg.Length() > 0 && c.receiver.isnSet then c.(sender := Answer(c.sender)) else c
  }

  lemma ReplyAkin(c: Conn, seg: TcpSegment)
    requires c.Valid()
    ensures Akin(Answering(c, seg), Reply(c, seg)) && Reply(c, seg).receiver == c.receiver
    ensures Reply(c, seg).sender.stream.error == Answering(c, seg).sender.stream.error
  {
  }

  // Answering and sending leave the sender as it is but for its queue.
  lemma ReplyPaced(c: Conn, seg: TcpSegment)
    requires ConnOk(c)
    ensures ConnOk(Reply(c, seg))
  {
    AnswerPaced(c.sender, c.timeout);
    ReplyAkin(c, seg);
    AlikePaced(Answering(c, seg).sender, Reply(c, seg).sender, c.timeout);
    AnswerErrors(c.sender);
  }

  lemma AnswerErrors(s: Sender)
    requires SenderOk(s)
    ensures Answer(s).stream.error == s.stream.error
  {
    FillErrors(s);
  }

  lemma ArrivePaced(c: Conn, seg: TcpSegment)
    requires ConnOk(c)
    ensures ConnOk(SegmentReceived(c, seg))
  {
    if c.Active() {
      if seg.header.rst {
        AlikePaced(c.sender, c.Fail().sender, c.timeout);
      } else {
        HearPaced(c.sender, seg, c.timeout);
        ReplyPaced(Absorb(c, seg), seg);
      }
    }
  }

  lemma GiveUpAkin(c: Conn)
    requires c.Valid()
    ensures Akin(c, SendRst(c.Fail())) && SendRst(c.Fail()).Reset()
  {
  }

  lemma GiveUpOrSendAkin(c: Conn)
    requires c.Valid()
    ensures Akin(c, GiveUpOrSend(c))
    ensures c.sender.retransmissions > MAX_RETX_ATTEMPTS ==> GiveUpOrSend(c).Reset()
  {
    if c.sender.retransmissions > MAX_RETX_ATTEMPTS {
      GiveUpAkin(c);
    } else {
      SendAllAkin(c);
    }
  }

  lemma GiveUpOrSendPaced(c: Conn)
    requires c.Valid() && Paced(c.sender, c.timeout)
    ensures ConnOk(GiveUpOrSend(c)) && GiveUpOrSend(c).timeout == c.timeout
  {
    GiveUpOrSendAkin(c);
    AlikePaced(c.sender, GiveUpOrSend(c).sender, c.timeout);
  }

  lemma ElapsePaced(c: Conn, ms: nat)
    requires ConnOk(c)
    ensures ConnOk(Elapse(c, ms))
  {
    if c.Active() {
      TickKeeps(c.sender, ms);
      TickBacksOff(c.sender, ms, c.timeout);
      GiveUpOrSendPaced(Age(c, ms));
    }
  }

  lemma WritePaced(c: Conn, data: seq<byte>)
    requires ConnOk(c) && !c.sender.stream.ended
    ensures ConnOk(Write(c, data))
  {
    WriteKeeps(c.sender, data);
    var c1 := c.(sender := c.sender.(stream := c.sender.stream.Write(data)));
    FillPaced(c1.sender, c.timeout);
    if c1.Established() {
      AlikePaced(FillWindow(c1.sender), Write(c, data).sender, c.timeout);
    }
  }

  lemma ClosePaced(c: Conn)
    requires ConnOk(c)
    ensures ConnOk(EndInput(c))
  {
    EndKeeps(c.sender);
    var s1 := c.sender.(stream := c.sender.stream.End());
    FillPaced(s1, c.timeout);
    AlikePaced(FillWindow(s1), EndInput(c).sender, c.timeout);
  }

  lemma ConnectPaced(c: Conn)
    requires ConnOk(c) && FillWindow(c.sender).segmentsOut != []
    ensures ConnOk(Connect(c))
  {
    FillPaced(c.sender, c.timeout);
    AlikePaced(FillWindow(c.sender), Connect(c).sender, c.timeout);
  }

  lemma DoKeeps(c: Conn, call: Call)
    requires ConnOk(c) && Permitted(c, call)
    ensures ConnOk(Do(c, call)) && Do(c, call).timeout == c.timeout
  {
    match call
    case Arrive(seg) => ArrivePaced(c, seg);
    case Pass(ms) => ElapsePaced(c, ms);
    case Put(data) => WritePaced(c, data);
    case Close => ClosePaced(c);
    case Open => ConnectPaced(c);
    case Get(n) =>
  }

  // -------------------------------------------------------------------- runs

  ghost predicate AllPermitted(c: Conn, calls: seq<Call>)
    requires c.Valid()
    decreases |calls|
  {
    calls != [] ==> Permitted(c, calls[0]) && AllPermitted(Do(c, calls[0]), calls[1..])
  }

  ghost function After(c: Conn, calls: seq<Call>): (c': Conn)
    requires c.Valid() && AllPermitted(c, calls)
    ensures c'.Valid()
    decreases |calls|
  {
    if calls == [] then c else After(Do(c, calls[0]), calls[1..])
  }

  lemma {:induction false} RunKeeps(c: Conn, calls: seq<Call>)
    requires ConnOk(c) && AllPermitted(c, calls)
    ensures ConnOk(After(c, calls)) && After(c, calls).timeout == c.timeout
    decreases |calls|
  {
    if calls != [] {
      DoKeeps(c, calls[0]);
      RunKeeps(Do(c, calls[0]), calls[1..]);
    }
  }

  // Back-off over every run of a connection, whatever arrives: the timeout is
  // the configured one times two to the number of retransmissions, which never
  // exceeds nine, so doubling never overflows 32 bits; and beyond eight the
  // connection has been reset.
  lemma BackOffBound(sendCapacity: nat, receiveCapacity: nat, timeout: u16, isn: u32, calls: seq<Call>)
    requires AllPermitted(NewConn(sendCapacity, receiveCapacity, timeout, isn), calls)
    ensures var c := After(NewConn(sendCapacity, receiveCapacity, timeout, isn), calls);
            && c.sender.timeout == timeout * Pow2(c.sender.retransmissions)
            && c.sender.retransmissions <= 9
            && (c.sender.retransmissions == 9 ==> !c.Active())
  {
    RunKeeps(NewConn(sendCapacity, receiveCapacity, timeout, isn), calls);
  }
}

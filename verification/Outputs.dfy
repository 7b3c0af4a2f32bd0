/** What leaves an endpoint in a call, by number and content. */
module Outputs {
  import opened Numbers
  import opened WrappingIntegers
  import opened ByteStreams
  import opened TcpSegments
  import opened Receivers
  import opened Senders
  import opened SenderLaws
  import opened SenderTimers
  import opened Connections
  import opened ConnectionLaws
  import opened Emissions
  import S = TcpStates

  // ------------------------------------------------------------- the invariant

  // What every state of a connection is like.
  ghost predicate Sane(c: Conn) {
    ConnOk(c) && Tidy(c) && S.Steady(c.sender)
  }

  lemma DoSane(c: Conn, call: Call)
    requires Sane(c) && Permitted(c, call)
    ensures Sane(Do(c, call)) && c.out <= Do(c, call).out
  {
    DoKeeps(c, call);
    DoEmits(c, call);
    S.DoMoves(c, call);
  }

  lemma NewIsSane(sendCapacity: nat, receiveCapacity: nat, timeout: u16, isn: u32)
    ensures Sane(NewConn(sendCapacity, receiveCapacity, timeout, isn))
  {
  }

  lemma {:induction false} RunSane(c: Conn, calls: seq<Call>)
    requires Sane(c) && AllPermitted(c, calls)
    ensures Sane(After(c, calls)) && c.out <= After(c, calls).out
    decreases |calls|
  {
    if calls != [] {
      DoSane(c, calls[0]);
      RunSane(Do(c, calls[0]), calls[1..]);
    }
  }

  // ----------------------------------------------------------------- what is new

  ghost function News(c: Conn, c': Conn): seq<TcpSegment>
    requires c.out <= c'.out
  {
    c'.out[|c.out|..]
  }

  // Between `c` and `c'` everything queued has left, then a first transmission of
  // every number used, in order and with the bytes and flags that belong to it,
  // then `n` segments that use no number.  All of it says where the receiver stands,
  // and none of it is a reset.
  ghost predicate Flushes(c: Conn, c': Conn, n: nat)
    requires c'.Valid()
  {
    && Emits(c, c') && c'.sender.segmentsOut == []
    && var news, q := News(c, c'), |c.sender.segmentsOut|;
    && q + n <= |news|
    && (forall i | 0 <= i < q :: SameData(c.sender.segmentsOut[i], news[i]))
    && Consecutive(c'.sender, news[q..|news| - n], c.sender.next, c'.sender.next)
    && (forall i | |news| - n <= i < |news| :: Blank(c'.sender, news[i]))
    && (forall i | 0 <= i < |news| :: !news[i].header.rst)
  }

  // An empty segment with the next number.
  ghost predicate Blank(s: Sender, seg: TcpSegment) {
    seg.Length() == 0 && seg.header.seqno == Wrap(s.next, s.isn)
  }

  lemma SameChunk(s: Sender, k: nat, x: TcpSegment, y: TcpSegment)
    requires SameData(x, y) && Chunk(s, k, x)
    ensures Chunk(s, k, y)
  {
  }

  lemma {:induction false} SameConsecutive(s: Sender, xs: seq<TcpSegment>, ys: seq<TcpSegment>, low: nat, high: nat)
    requires |xs| == |ys| && (forall i | 0 <= i < |xs| :: SameData(xs[i], ys[i])) && Consecutive(s, xs, low, high)
    ensures Consecutive(s, ys, low, high)
    decreases |xs|
  {
    if xs != [] {
      SameChunk(s, low, xs[0], ys[0]);
      forall i | 0 <= i < |xs| - 1 ensures SameData(xs[1..][i], ys[1..][i]) {
        assert SameData(xs[i + 1], ys[i + 1]);
      }
      SameConsecutive(s, xs[1..], ys[1..], low + xs[0].Length(), high);
    }
  }

  // `news` is `queue` but for what it says about the receiver.
  ghost predicate Copies(queue: seq<TcpSegment>, news: seq<TcpSegment>) {
    |queue| == |news| && forall i | 0 <= i < |queue| :: SameData(queue[i], news[i])
  }

  lemma CopiedNumbers(s: Sender, queue: seq<TcpSegment>, news: seq<TcpSegment>, from: nat, to: nat, low: nat, high: nat)
    requires Copies(queue, news) && from <= to <= |queue| && Consecutive(s, queue[from..to], low, high)
    ensures Consecutive(s, news[from..to], low, high)
  {
    var xs, ys := queue[from..to], news[from..to];
    forall i | 0 <= i < |xs| ensures SameData(xs[i], ys[i]) {
      assert SameData(queue[from + i], news[from + i]);
    }
    SameConsecutive(s, xs, ys, low, high);
  }

  // Everything queued from `c` to `c1`: numbers in use, then `n` empty segments.
  ghost predicate Lines(c: Conn, c1: Conn, n: nat) {
    && c1.out == c.out && c.sender.segmentsOut <= c1.sender.segmentsOut
    && var q, queue := |c.sender.segmentsOut|, c1.sender.segmentsOut;
    && q + n <= |queue| && Consecutive(c1.sender, queue[q..|queue| - n], c.sender.next, c1.sender.next)
    && (forall i | |queue| - n <= i < |queue| :: Blank(c1.sender, queue[i]))
  }

  // What is passed on of a queue that was `held` and has been added to.
  lemma CopiedQueue(s: Sender, s': Sender, held: seq<TcpSegment>, queue: seq<TcpSegment>, news: seq<TcpSegment>, n: nat, low: nat)
    requires Copies(queue, news) && held <= queue && |held| + n <= |queue| && Alike(s, s') && s.stream.Valid()
    requires Consecutive(s, queue[|held|..|queue| - n], low, s.next)
    requires forall i | |queue| - n <= i < |queue| :: Blank(s, queue[i])
    ensures forall i | 0 <= i < |held| :: SameData(held[i], news[i])
    ensures Consecutive(s', news[|held|..|news| - n], low, s'.next)
    ensures forall i | |news| - n <= i < |news| :: Blank(s', news[i])
  {
    CopiedNumbers(s, queue, news, |held|, |queue| - n, low, s.next);
    ConsecutiveAlike(s, s', news[|held|..|news| - n], low, s.next);
    forall i | |news| - n <= i < |news| ensures Blank(s', news[i]) {
      assert SameData(queue[i], news[i]) && Blank(s, queue[i]);
    }
  }

  lemma SendAllFlushes(c: Conn, c1: Conn, n: nat)
    requires Tidy(c1) && Lines(c, c1, n)
    ensures Flushes(c, SendAll(c1), n)
  {
    var c', queue := SendAll(c1), c1.sender.segmentsOut;
    var news := StampAll(c1.receiver, queue);
    SendAllEmits(c1);
    assert Copies(queue, news) && forall i | 0 <= i < |news| :: !news[i].header.rst by {
      StampAllTells(c1.receiver, queue);
    }
    assert News(c, c') == news;
    CopiedQueue(c1.sender, c'.sender, c.sender.segmentsOut, queue, news, n, c.sender.next);
  }

  lemma ConsecutiveAlike(s: Sender, s': Sender, segs: seq<TcpSegment>, low: nat, high: nat)
    requires Consecutive(s, segs, low, high) && Alike(s, s') && s.stream.Valid()
    ensures Consecutive(s', segs, low, high)
  {
    ConsecutiveLater(s, s', segs, low, high);
  }

  // Filling the window and passing everything on.
  lemma FillFlushes(c: Conn, c1: Conn)
    requires Tidy(c1) && SenderOk(c1.sender) && c1.out == c.out
    requires c1.sender.segmentsOut == c.sender.segmentsOut && c1.sender.next == c.sender.next
    ensures Flushes(c, SendAll(c1.(sender := FillWindow(c1.sender))), 0)
  {
    FillKeeps(c1.sender);
    FillPlain(c1.sender);
    FillOpens(c1.sender);
    var c2 := c1.(sender := FillWindow(c1.sender));
    var q, queue := |c.sender.segmentsOut|, c2.sender.segmentsOut;
    assert queue[q..|queue| - 0] == queue[q..];
    SendAllFlushes(c, c2, 0);
  }

  // ------------------------------------------------------- when there is something

  // Filling the window sends something exactly when the SYN has not been sent, or
  // no probe is pending and there is something to say and either room for it or a
  // closed window to probe.
  lemma FillSendsIff(s: Sender)
    requires S.Steady(s)
    ensures FillWindow(s).next > s.next <==>
              || s.next == 0
              || (!s.probing && if s.window > s.InFlight() then s.stream.Buffer() != [] || (s.stream.Eof() && s.next < s.stream.Written() + 2)
                                else s.window == 0 && Base(s) > 0 && (s.stream.Buffer() != [] || s.stream.Eof()))
  {
    FlightIsSpan(s);
    if s.next > 0 && !s.probing {
      if s.window > s.InFlight() {
        FillOpenOk(s);
      } else if s.stream.Buffer() != [] {
        ProbeIsOk(s, 1, false);
      } else if s.stream.Eof() {
        ProbeIsOk(s, 0, true);
      }
    }
  }

  // ----------------------------------------------------------------------- write

  // The peer's SYN is known and the own SYN is acknowledged.
  ghost predicate Opened(c: Conn) {
    c.receiver.isnSet && Base(c.sender) > 0
  }

  lemma OpenedIff(c: Conn)
    requires Sane(c)
    ensures c.Established() <==> Opened(c)
  {
    FlightIsSpan(c.sender);
  }

  // As much as the window lets through is on its way.
  ghost predicate Sated(s: Sender)
    requires s.stream.Valid()
  {
    !s.probing && s.window > 0 ==>
      && (s.stream.Buffer() == [] || s.InFlight() >= s.window)
      && (s.stream.Eof() && s.InFlight() < s.window ==> s.next >= s.stream.Written() + 2)
  }

  lemma FillSates(s: Sender)
    requires SenderOk(s) && s.next > 0
    ensures Sated(FillWindow(s)) && FillWindow(s).window == s.window
    ensures !s.probing && s.window > 0 ==> !FillWindow(s).probing
  {
    FillRespectsWindow(s);
    FillKeeps(s);
  }

  // `write` takes as much as there is room for.  Until the connection is open
  // nothing is sent; after that, what the window lets through leaves at once.
  lemma WriteSends(c: Conn, data: seq<byte>)
    requires Sane(c) && !c.sender.stream.ended
    ensures var c' := Write(c, data);
            && c'.sender.stream.bytes == c.sender.stream.bytes + data[..Min(c.sender.stream.Remaining(), |data|)]
            && (!Opened(c) ==> c'.out == c.out && c'.sender.next == c.sender.next)
            && (Opened(c) ==> Flushes(c, c', 0) && Sated(c'.sender))
            && (!c.sender.probing && c.sender.window > 0 ==> !c'.sender.probing && c'.sender.window == c.sender.window)
  {
    var c1 := c.(sender := c.sender.(stream := c.sender.stream.Write(data)));
    WriteKeeps(c.sender, data);
    OpenedIff(c);
    if Opened(c) {
      FillFlushes(c, c1);
      FillKeeps(c1.sender);
      FillSates(c1.sender);
    }
  }

  lemma {:induction false} ConsecutiveEmpty(s: Sender, segs: seq<TcpSegment>, low: nat, high: nat)
    requires Consecutive(s, segs, low, high)
    ensures low <= high && (segs == [] <==> low == high)
    decreases |segs|
  {
    if segs != [] {
      ConsecutiveEmpty(s, segs[1..], low + segs[0].Length(), high);
    }
  }

  // With nothing queued, a `write` sends something exactly when the connection is
  // open, no probe is pending, there is something to send, and the window has
  // room or is closed.
  lemma WriteSendsIff(c: Conn, data: seq<byte>)
    requires Sane(c) && !c.sender.stream.ended && c.sender.segmentsOut == []
    ensures Write(c, data).out != c.out <==>
              && Opened(c) && !c.sender.probing && (c.sender.window == 0 || c.sender.window > c.sender.InFlight())
              && (c.sender.stream.Buffer() != [] || (data != [] && c.sender.stream.Remaining() > 0))
  {
    var c', s1 := Write(c, data), c.sender.(stream := c.sender.stream.Write(data));
    WriteSends(c, data);
    OpenedIff(c);
    if Opened(c) {
      S.WriteOnward(c.sender, data);
      FillSendsIff(s1);
      var news := News(c, c');
      assert news[0..|news| - 0] == news;
      ConsecutiveEmpty(c'.sender, news, c.sender.next, c'.sender.next);
    }
  }

  // ------------------------------------------------------------ end of the stream

  // A first transmission of the number after the last byte is a FIN.
  lemma {:induction false} LastIsFin(s: Sender, segs: seq<TcpSegment>, low: nat, high: nat)
    requires SenderOk(s) && Consecutive(s, segs, low, high) && low <= s.stream.Written() + 1 < high
    ensures exists i | 0 <= i < |segs| :: segs[i].header.fin
    decreases |segs|
  {
    if !segs[0].header.fin {
      LastIsFin(s, segs[1..], low + segs[0].Length(), high);
      var i :| 0 <= i < |segs| - 1 && segs[1..][i].header.fin;
      assert segs[i + 1].header.fin;
    }
  }

  lemma FinLeaves(c: Conn, c': Conn)
    requires c'.Valid() && SenderOk(c'.sender) && Flushes(c, c', 0)
    requires c.sender.next <= c'.sender.stream.Written() + 1 < c'.sender.next
    ensures exists i | |c.out| <= i < |c'.out| :: c'.out[i].header.fin
  {
    var news, q := News(c, c'), |c.sender.segmentsOut|;
    var firsts := news[q..|news| - 0];
    LastIsFin(c'.sender, firsts, c.sender.next, c'.sender.next);
    var i :| 0 <= i < |firsts| && firsts[i].header.fin;
    assert c'.out[|c.out| + q + i].header.fin;
  }

  // `end_input_stream` ends the stream and sends what the window lets through,
  // the FIN too if it has not been sent; before `connect`, the SYN.
  lemma CloseSends(c: Conn)
    requires Sane(c)
    ensures var c' := EndInput(c);
            && c'.sender.stream.ended && c'.sender.stream.bytes == c.sender.stream.bytes
            && Flushes(c, c', 0) && (c.sender.next > 0 ==> Sated(c'.sender)) && c'.sender.next > 0
            && (!c.sender.probing && c.sender.window > 0 ==> !c'.sender.probing && c'.sender.window == c.sender.window)
            && (c.sender.next <= c'.sender.stream.Written() + 1 < c'.sender.next ==>
                  exists i | |c.out| <= i < |c'.out| :: c'.out[i].header.fin)
  {
    var c1, c' := c.(sender := c.sender.(stream := c.sender.stream.End())), EndInput(c);
    EndKeeps(c.sender);
    FillFlushes(c, c1);
    FillKeeps(c1.sender);
    FillOpens(c1.sender);
    FillEnds(c1.sender);
    if c.sender.next > 0 {
      FillSates(c1.sender);
    }
    if c.sender.next <= c'.sender.stream.Written() + 1 < c'.sender.next {
      AlikeKeeps(FillWindow(c1.sender), c'.sender);
      FinLeaves(c, c');
    }
  }
}

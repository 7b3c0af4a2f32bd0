/** Every step of the closed one-way system keeps its invariant. */
module OrderedLaws {
  import opened Numbers
  import opened WrappingIntegers
  import opened ByteStreams
  import opened TcpSegments
  import opened Reassembly
  import opened ReassemblyLaws
  import opened ReassemblyWindow
  import R = ReassemblyRuns
  import opened Receivers
  import opened Senders
  import opened SenderLaws
  import opened OrderedTransfer
  import T = Transfer

  // ----------------------------------------------------------------- writing

  lemma {:induction false} EofAtAny(ps: seq<Piece>, n: nat)
    requires !AnyEof(ps)
    ensures EofAt(ps, n)
  {
    if ps != [] {
      EofAtAny(ps[1..], n);
    }
  }

  lemma SettledLonger(r: Reassembler, s: seq<byte>, s': seq<byte>)
    requires Settled(r, s) && s <= s' && !Flagged(r)
    ensures Settled(r, s')
  {
    T.FaithfulLonger(r, s, s');
    EofAtAny(r.pieces, |s'|);
  }

  lemma WriteCore(f: Flow, data: seq<byte>)
    requires Core(f) && Enabled(f, Write(data))
    ensures var s' := f.sender.(stream := f.sender.stream.Write(data)); Core(f.(sender := s')) && Later(f.sender, s')
  {
    var s := f.sender;
    WriteKeeps(s, data);
    SettledLonger(f.receiver.reassembler, s.stream.bytes, s.stream.Write(data).bytes);
    forall a | a in f.acks
      ensures Possible(f.receiver, s.stream.Write(data).Written(), a)
    {
      assert Possible(f.receiver, s.stream.Written(), a);
    }
  }

  lemma CloseCore(f: Flow)
    requires Core(f)
    ensures Core(f.(sender := f.sender.(stream := f.sender.stream.End())))
    ensures Later(f.sender, f.sender.(stream := f.sender.stream.End()))
  {
    EndKeeps(f.sender);
  }

  // ----------------------------------------------------------------- sending

  // Sending leaves the receiver's view of the stream intact.
  lemma AgreeLater(s: Sender, s': Sender, r: Receiver)
    requires Agree(s, r) && Later(s, s') && s'.stream.bytes == s.stream.bytes && s'.next <= s.stream.Written() + 2
    ensures Agree(s', r)
  {
  }

  lemma FillOpenFollows(s: Sender, a: Ack)
    requires SenderOk(s) && s.next <= s.stream.Written() + 2 && Follows(s, a) && a.point <= s.next
    requires !s.probing && s.window > s.InFlight()
    ensures Follows(FillOpen(s), a) && FillOpen(s).next <= s.stream.Written() + 2
  {
    FillOpenOk(s);
    FlightIsSpan(s);
    FlightIsSpan(FillOpen(s));
  }

  // The window is only ever closed by an acknowledgment of less than everything,
  // so a FIN probe is the first FIN.
  lemma ProbeFollows(s: Sender, a: Ack, n: nat, fin: bool)
    requires SenderOk(s) && s.next <= s.stream.Written() + 2 && Follows(s, a) && a.point <= s.next
    requires !s.probing && s.window == 0 && (a.point == s.stream.Written() + 2 ==> a.window > 0)
    requires (n == 1 && !fin && s.stream.Buffer() != []) || (n == 0 && fin && s.stream.Eof())
    ensures Follows(Probe(s, n, fin), a) && Probe(s, n, fin).next <= s.stream.Written() + 2
  {
    ProbeIsOk(s, n, fin);
  }

  lemma FillFollows(s: Sender, a: Ack)
    requires SenderOk(s) && s.next <= s.stream.Written() + 2 && Follows(s, a) && a.point <= s.next
    requires a.point == s.stream.Written() + 2 ==> a.window > 0
    ensures Follows(FillWindow(s), a) && FillWindow(s).next <= s.stream.Written() + 2
  {
    if s.window > s.InFlight() && !s.probing {
      FillOpenFollows(s, a);
    } else if s.window == 0 && s.next > s.InFlight() && !s.probing {
      if s.stream.Buffer() != [] {
        ProbeFollows(s, a, 1, false);
      } else if s.stream.Eof() {
        ProbeFollows(s, a, 0, true);
      }
    }
  }

  lemma FillUnanswered(s: Sender)
    requires SenderOk(s) && Unanswered(s)
    ensures Unanswered(FillWindow(s))
  {
    FillKeeps(s);
    FlightIsSpan(s);
  }

  lemma FillCore(f: Flow)
    requires Core(f)
    ensures Core(f.(sender := FillWindow(f.sender))) && Later(f.sender, FillWindow(f.sender))
  {
    var s := f.sender;
    FillKeeps(s);
    if f.heard < 0 {
      FillUnanswered(s);
    } else {
      HeardBound(f);
      assert f.acks[f.heard] in f.acks;
      FillFollows(s, f.acks[f.heard]);
    }
    AgreeLater(s, FillWindow(s), f.receiver);
  }

  lemma PassCore(f: Flow, ms: nat)
    requires Core(f)
    ensures Core(f.(sender := Tick(f.sender, ms))) && Later(f.sender, Tick(f.sender, ms))
  {
    TickKeeps(f.sender, ms);
    AgreeLater(f.sender, Tick(f.sender, ms), f.receiver);
  }

  lemma EmptyCore(f: Flow)
    requires Core(f)
    ensures Core(f.(sender := SendEmptySegment(f.sender))) && Later(f.sender, SendEmptySegment(f.sender))
  {
    EmptyKeeps(f.sender);
    AgreeLater(f.sender, SendEmptySegment(f.sender), f.receiver);
  }

  // ---------------------------------------------------------- acknowledgments

  lemma EmitCore(f: Flow)
    requires Core(f) && f.receiver.isnSet
    ensures Core(f.(acks := f.acks + [AckNow(f.receiver)]))
  {
    var r, n, now := f.receiver, f.sender.stream.Written(), AckNow(f.receiver);
    var acks := f.acks + [now];
    AckPointBound(f.sender, r);
    forall i, j | 0 <= i <= j < |acks| ensures Before(acks[i], acks[j]) {
      if i < |f.acks| == j {
        assert f.acks[i] in f.acks;
      }
    }
  }

  // The sender reads the receiver's number back exactly.
  lemma ReadsPoint(s: Sender, point: nat)
    requires point <= s.next < TWO_63 + 2 && s.next - point < TWO_31
    ensures ReadAck(s, Wrap(point, s.isn)) == point
  {
    assert Low64(s.next) == s.next;
    RoundTripNear(point, s.isn, s.next);
  }

  lemma HearFollows(s: Sender, last: Ack, a: Ack)
    requires SenderOk(s) && s.next < TWO_63 + 2 && Follows(s, last) && Before(last, a) && a.point <= s.next
    ensures Follows(HearAck(s, a), a)
  {
    ReadsPoint(s, a.point);
    AckKeeps(s, Wrap(a.point, s.isn), a.window);
  }

  lemma HearFirst(s: Sender, a: Ack)
    requires SenderOk(s) && Unanswered(s) && 1 <= a.point <= s.next
    ensures Follows(HearAck(s, a), a)
  {
    ReadsPoint(s, a.point);
    AckKeeps(s, Wrap(a.point, s.isn), a.window);
  }

  lemma HearCore(f: Flow, i: nat)
    requires Core(f) && f.heard <= i < |f.acks|
    ensures Core(f.(sender := HearAck(f.sender, f.acks[i]), heard := i))
    ensures Later(f.sender, HearAck(f.sender, f.acks[i]))
  {
    var s, a := f.sender, f.acks[i];
    assert a in f.acks;
    AckPointBound(s, f.receiver);
    if f.heard < 0 {
      HearFirst(s, a);
    } else {
      HearFollows(s, f.acks[f.heard], a);
    }
    AckKeeps(s, Wrap(a.point, s.isn), a.window);
    AgreeLater(s, HearAck(s, a), f.receiver);
  }

  // --------------------------------------------------------------- receiving

  // `r'` is `r` later on: it may know more, and forgets nothing.
  ghost predicate Grows(r: Reassembler, r': Reassembler) {
    && r.out.Written() <= r'.out.Written() && r.out.Edge() <= r'.out.Edge() && (r.out.ended ==> r'.out.ended)
    && r.out.capacity == r'.out.capacity
  }

  lemma PushGrows(r: Reassembler, s: seq<byte>, data: seq<byte>, index: nat, eof: bool)
    requires Settled(r, s) && InOrBeyond(r, s, data, index, eof)
    ensures var r' := Push(r, data, index, eof);
            && Settled(r', s) && Grows(r, r')
            && (forall j: nat :: Known(r', j) ==> Known(r, j) || index <= j < index + |data|)
            && (Flagged(r') ==> Flagged(r) || (eof && index < r.out.Edge()))
  {
    var r' := Push(r, data, index, eof);
    if index < r.out.Edge() {
      PushSettles(r, s, data, index, eof);
      R.SettledShape(r', s);
      R.SettledShape(r, s);
      assert r'.out.Written() < r.out.Written() ==> Known(r, r'.out.Written());
    }
  }

  // A live segment that fits is pushed inside or beyond the window, so the
  // receiver never has to evict anything for it.
  lemma DeliveredInOrBeyond(s: Sender, r: Receiver, k: nat, seg: TcpSegment)
    requires SenderOk(s) && s.next <= s.stream.Written() + 2 && Sound(s, r, Entry(k, seg)) && T.Live(r, k)
    requires r.isn == s.isn && r.Out().Edge() < TWO_64 - 1
    ensures InOrBeyond(r.reassembler, s.stream.bytes, seg.payload, r.Index(seg), seg.header.fin)
    ensures seg.payload != [] ==> r.Index(seg) + |seg.payload| <= s.stream.read
    ensures seg.header.fin && r.Index(seg) < r.Out().Edge() ==>
              && s.stream.ended && s.next == s.stream.Written() + 2
              && r.Index(seg) + |seg.payload| == s.stream.Written() < r.Out().Edge()
  {
    if !seg.header.syn {
      T.IndexOfChunk(s, r, k, seg);
    }
  }

  lemma PossibleLater(r: Receiver, r': Receiver, n: nat, a: Ack)
    requires Possible(r, n, a) && Grows(r.reassembler, r'.reassembler)
    ensures Possible(r', n, a)
  {
  }

  lemma ReceiverCore(f: Flow, r: Receiver)
    requires Core(f) && Agree(f.sender, r) && Grows(f.receiver.reassembler, r.reassembler)
    requires f.receiver.isnSet ==> r.isnSet
    ensures Core(f.(receiver := r))
  {
    var n := f.sender.stream.Written();
    forall a | a in f.acks ensures Possible(r, n, a) {
      PossibleLater(f.receiver, r, n, a);
    }
  }

  lemma EdgeBound(s: Sender, r: Receiver)
    requires Agree(s, r)
    ensures r.Out().Edge() < TWO_64 - 1
  {
    R.SettledShape(r.reassembler, s.stream.bytes);
  }

  lemma DeliverAgrees(s: Sender, r: Receiver, k: nat, seg: TcpSegment)
    requires SenderOk(s) && s.next <= s.stream.Written() + 2 && Sound(s, r, Entry(k, seg)) && T.Live(r, k)
    requires Agree(s, r) && r.isnSet
    ensures var r' := r.(reassembler := Push(r.reassembler, seg.payload, r.Index(seg), seg.header.fin));
            Agree(s, r') && Grows(r.reassembler, r'.reassembler)
  {
    EdgeBound(s, r);
    DeliveredInOrBeyond(s, r, k, seg);
    PushGrows(r.reassembler, s.stream.bytes, seg.payload, r.Index(seg), seg.header.fin);
  }

  lemma DeliverCore(f: Flow, k: nat, seg: TcpSegment)
    requires Core(f) && Sound(f.sender, f.receiver, Entry(k, seg)) && T.Live(f.receiver, k)
    ensures Core(f.(receiver := f.receiver.Receive(seg)))
    ensures Grows(f.receiver.reassembler, f.receiver.Receive(seg).reassembler)
  {
    var s, r := f.sender, f.receiver.Learn(seg);
    assert seg.header.syn ==> seg.header.seqno == s.isn;
    if r.isnSet {
      DeliverAgrees(s, r, k, seg);
      ReceiverCore(f, f.receiver.Receive(seg));
    }
  }

  lemma TakeCore(f: Flow, n: nat)
    requires Core(f)
    ensures Core(f.(receiver := f.receiver.Take(n)))
    ensures Grows(f.receiver.reassembler, f.receiver.Take(n).reassembler)
  {
    var r' := f.receiver.Take(n);
    R.TakeSettles(f.receiver.reassembler, f.sender.stream.bytes, n);
    forall j: nat | Known(r'.reassembler, j) ensures j < f.sender.stream.read {
      assert Known(f.receiver.reassembler, j);
    }
    ReceiverCore(f, r');
  }

  // -------------------------------------------------------------------- runs

  lemma StepCore(f: Flow, act: Act)
    requires FlowOk(f) && Enabled(f, act)
    ensures Core(Step(f, act)) && Later(f.sender, Step(f, act).sender)
    ensures Grows(f.receiver.reassembler, Step(f, act).receiver.reassembler)
  {
    match act
    case Write(data) => WriteCore(f, data);
    case Close => CloseCore(f);
    case Fill => FillCore(f);
    case Pass(ms) => PassCore(f, ms);
    case Empty => EmptyCore(f);
    case Deliver(e) =>
      assert Sound(f.sender, f.receiver, e);
      DeliverCore(f, e.seqno, e.segment);
    case Take(n) => TakeCore(f, n);
    case Emit => EmitCore(f);
    case Hear(i) => HearCore(f, i);
  }

  lemma NextKeeps(f: Flow, act: Act)
    requires FlowOk(f) && Enabled(f, act)
    ensures FlowOk(Next(f, act)) && Grows(f.receiver.reassembler, Next(f, act).receiver.reassembler)
  {
    var f' := Step(f, act);
    StepCore(f, act);
    SoundLater(f.sender, f'.sender, f.receiver, f'.receiver, f.wire);
    SendableIsSound(f');
  }
}

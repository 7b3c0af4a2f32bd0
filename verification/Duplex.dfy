/**
 Two endpoints and the network between them, which may lose, repeat and reorder
 segments in both directions.
 */
module Duplex {
  import opened Numbers
  import opened WrappingIntegers
  import opened ByteStreams
  import opened TcpSegments
  import opened ReassemblyLaws
  import opened Receivers
  import opened Senders
  import opened SenderLaws
  import opened Connections
  import opened ConnectionLaws
  import opened Emissions
  import opened Wires
  import opened Transfer
  import O = OrderedTransfer
  import S = TcpStates

  // What each side has ever had to send, with absolute numbers, beside the two
  // endpoints.
  datatype Pair = Pair(a: Conn, b: Conn, fromA: set<Entry>, fromB: set<Entry>)

  datatype Move =
    | AtA(call: Call)
    | AtB(call: Call)
    | ToA(segment: TcpSegment, entry: Entry)
    | ToB(segment: TcpSegment, entry: Entry)

  // `from` has sent `seg`, under number `e.seqno`, and neither that number nor
  // the acknowledgment is half the number space old at `to`.
  ghost predicate Deliverable(from: Conn, to: Conn, wire: set<Entry>, seg: TcpSegment, e: Entry) {
    && seg in from.out && e in wire && SameData(e.segment, seg) && Live(to.receiver, e.seqno)
    && (seg.header.ack ==> Genuine(to.sender, from.receiver, seg.header.ackno))
  }

  ghost predicate Enabled(p: Pair, m: Move) {
    match m
    case AtA(call) => !call.Arrive? && Permitted(p.a, call)
    case AtB(call) => !call.Arrive? && Permitted(p.b, call)
    case ToA(seg, e) => Deliverable(p.b, p.a, p.fromB, seg, e)
    case ToB(seg, e) => Deliverable(p.a, p.b, p.fromA, seg, e)
  }

  // ------------------------------------------------------------- the invariant

  // The wire carries pieces of what the sender has to say.
  ghost predicate AllPieces(s: Sender, wire: set<Entry>) {
    forall e | e in wire :: Chunk(s, e.seqno, e.segment)
  }

  // Every acknowledgment ever sent is one the receiver could give by now.
  ghost predicate Honest(c: Conn) {
    forall seg | seg in c.out && seg.header.ack :: Given(c.receiver, seg.header.ackno)
  }

  ghost predicate Given(r: Receiver, ackno: u32) {
    r.isnSet && exists p: nat :: p <= r.AckPoint() && ackno == Wrap(p, r.isn)
  }

  // One side on its own.
  ghost predicate SideOk(c: Conn, wire: set<Entry>) {
    Tidy(c) && SenderOk(c.sender) && AllPieces(c.sender, wire) && AllBacked(wire, c) && Honest(c)
  }

  ghost predicate PairOk(p: Pair) {
    && SideOk(p.a, p.fromA) && SideOk(p.b, p.fromB)
    && Led(p.a.sender, p.b.receiver) && Led(p.b.sender, p.a.receiver)
  }

  // ------------------------------------------------- what a call does to a side

  lemma KeepsTrans(s: Sender, s': Sender, s'': Sender, a: nat)
    requires Keeps(s, s', a) && Keeps(s', s'', a)
    ensures Keeps(s, s'', a)
  {
    LaterTrans(s, s', s'');
  }

  lemma AlikeKeepsAll(s: Sender, s': Sender, a: nat)
    requires SenderOk(s) && Alike(s, s')
    ensures Keeps(s, s', a)
  {
    AlikeKeeps(s, s');
  }

  lemma FillKeepsAll(s: Sender, a: nat)
    requires SenderOk(s)
    ensures Keeps(s, FillWindow(s), a)
  {
    FillKeeps(s);
  }

  // What an incoming segment acknowledges, as the sender reads it.
  ghost function Heard(s: Sender, seg: TcpSegment): nat {
    if seg.header.ack then Max(0, ReadAck(s, seg.header.ackno)) else 0
  }

  lemma HearKeeps(s: Sender, seg: TcpSegment)
    requires SenderOk(s)
    ensures Keeps(s, Hear(s, seg), Heard(s, seg))
  {
    if seg.header.ack {
      var s1 := AckReceived(s, seg.header.ackno, seg.header.win);
      AckKeepsAbove(s, seg.header.ackno, seg.header.win);
      if s1.next != 0 {
        FillKeepsAll(s1, Heard(s, seg));
        KeepsTrans(s, s1, FillWindow(s1), Heard(s, seg));
      }
    } else {
      AlikeKeepsAll(s, s, 0);
    }
  }

  // `s'` is `s` after filling its window and passing segments on.
  lemma FillAndSendKeeps(s: Sender, s': Sender, a: nat)
    requires SenderOk(s) && Alike(FillWindow(s), s')
    ensures Keeps(s, s', a)
  {
    FillKeepsAll(s, a);
    AlikeKeepsAll(FillWindow(s), s', a);
    KeepsTrans(s, FillWindow(s), s', a);
  }

  lemma ReplyKeeps(c: Conn, seg: TcpSegment, a: nat)
    requires c.Valid() && SenderOk(c.sender)
    ensures Keeps(c.sender, Reply(c, seg).sender, a)
  {
    ReplyAkin(c, seg);
    if seg.Length() > 0 && c.receiver.isnSet && c.sender.next == 0 {
      FillAndSendKeeps(c.sender, Reply(c, seg).sender, a);
    } else {
      AlikeKeepsAll(c.sender, Reply(c, seg).sender, a);
    }
  }

  lemma ArriveKeeps(c: Conn, seg: TcpSegment)
    requires c.Valid() && SenderOk(c.sender)
    ensures Keeps(c.sender, SegmentReceived(c, seg).sender, Heard(c.sender, seg))
  {
    var a := Heard(c.sender, seg);
    if !c.Active() {
      AlikeKeepsAll(c.sender, c.sender, a);
    } else if seg.header.rst {
      AlikeKeepsAll(c.sender, c.Fail().sender, a);
    } else {
      HearKeeps(c.sender, seg);
      ReplyKeeps(Absorb(c, seg), seg, a);
      KeepsTrans(c.sender, Hear(c.sender, seg), SegmentReceived(c, seg).sender, a);
    }
  }

  lemma ElapseKeeps(c: Conn, ms: nat)
    requires c.Valid() && SenderOk(c.sender)
    ensures Keeps(c.sender, Elapse(c, ms).sender, 0)
  {
    if !c.Active() {
      AlikeKeepsAll(c.sender, c.sender, 0);
    } else {
      TickKeeps(c.sender, ms);
      assert Keeps(c.sender, Age(c, ms).sender, 0);
      GiveUpOrSendAkin(Age(c, ms));
      AlikeKeepsAll(Age(c, ms).sender, Elapse(c, ms).sender, 0);
      KeepsTrans(c.sender, Age(c, ms).sender, Elapse(c, ms).sender, 0);
    }
  }

  lemma WriteKeepsAll(c: Conn, data: seq<byte>)
    requires c.Valid() && SenderOk(c.sender) && !c.sender.stream.ended
    ensures Keeps(c.sender, Connections.Write(c, data).sender, 0)
  {
    var c1 := c.(sender := c.sender.(stream := c.sender.stream.Write(data)));
    WriteKeeps(c.sender, data);
    if c1.Established() {
      FillAndSendKeeps(c1.sender, Connections.Write(c, data).sender, 0);
      KeepsTrans(c.sender, c1.sender, Connections.Write(c, data).sender, 0);
    }
  }

  lemma CloseKeeps(c: Conn)
    requires c.Valid() && SenderOk(c.sender)
    ensures Keeps(c.sender, EndInput(c).sender, 0)
  {
    var s1 := c.sender.(stream := c.sender.stream.End());
    EndKeeps(c.sender);
    FillAndSendKeeps(s1, EndInput(c).sender, 0);
    KeepsTrans(c.sender, s1, EndInput(c).sender, 0);
  }

  // Only an acknowledgment makes a sender forget anything.
  lemma DoKeepsSender(c: Conn, call: Call)
    requires c.Valid() && SenderOk(c.sender) && Permitted(c, call)
    ensures Keeps(c.sender, Do(c, call).sender, if call.Arrive? then Heard(c.sender, call.segment) else 0)
  {
    match call
    case Arrive(seg) => ArriveKeeps(c, seg);
    case Pass(ms) => ElapseKeeps(c, ms);
    case Put(data) => WriteKeepsAll(c, data);
    case Close => CloseKeeps(c);
    case Open => FillAndSendKeeps(c.sender, Connect(c).sender, 0);
    case Get(n) => AlikeKeepsAll(c.sender, c.sender, 0);
  }

  lemma SameChunk(s: Sender, k: nat, x: TcpSegment, y: TcpSegment)
    requires Chunk(s, k, x) && SameData(x, y)
    ensures Chunk(s, k, y)
  {
  }

  // The peer's sender `s` stays led by the receiver, whatever the call.
  lemma DoLeads(s: Sender, c: Conn, call: Call)
    requires Led(s, c.receiver) && c.Valid() && Permitted(c, call) && !call.Arrive?
    ensures Led(s, Do(c, call).receiver)
  {
    if call.Pass? && c.Active() {
      GiveUpOrSendAkin(Age(c, call.ms));
    }
  }

  lemma ArriveLeads(s: Sender, c: Conn, seg: TcpSegment, k: nat)
    requires Led(s, c.receiver) && c.Valid() && Chunk(s, k, seg) && Live(c.receiver, k)
    ensures Led(s, SegmentReceived(c, seg).receiver)
  {
    if c.Active() && !seg.header.rst {
      LedReceiver(s, c.receiver, k, seg);
      ReplyAkin(Absorb(c, seg), seg);
    }
  }

  lemma SendableArePieces(s: Sender)
    requires SenderOk(s)
    ensures AllPieces(s, O.Sendable(s))
  {
    forall e | e in O.Sendable(s) ensures Chunk(s, e.seqno, e.segment) {
      if e in s.outstanding {
        O.TilesMember(s, s.outstanding, Base(s), Limit(s), e);
      }
    }
  }

  lemma PiecesLater(s: Sender, s': Sender, wire: set<Entry>)
    requires AllPieces(s, wire) && Later(s, s')
    ensures AllPieces(s', wire)
  {
    forall e | e in wire ensures Chunk(s', e.seqno, e.segment) {
      ChunkLater(s, s', e.seqno, e.segment);
    }
  }

  lemma GivenLater(r: Receiver, r': Receiver, ackno: u32)
    requires Given(r, ackno) && S.Forward(r, r') && r'.isn == r.isn
    ensures Given(r', ackno)
  {
    var p: nat :| p <= r.AckPoint() && ackno == Wrap(p, r.isn);
    assert p <= r'.AckPoint();
  }

  // What a side says about its receiver stays true.
  lemma StaysHonest(c: Conn, c': Conn)
    requires Honest(c) && c'.Valid() && c.out <= c'.out && S.Forward(c.receiver, c'.receiver)
    requires c.receiver.isnSet ==> c'.receiver.isn == c.receiver.isn
    requires forall i | |c.out| <= i < |c'.out| :: Tells(c'.receiver, c'.out[i]) || !c'.out[i].header.ack
    ensures Honest(c')
  {
    forall seg | seg in c'.out && seg.header.ack ensures Given(c'.receiver, seg.header.ackno) {
      var i :| 0 <= i < |c'.out| && c'.out[i] == seg;
      if i < |c.out| {
        assert c.out[i] == seg && seg in c.out;
        GivenLater(c.receiver, c'.receiver, seg.header.ackno);
      } else {
        assert Tells(c'.receiver, c'.out[i]);
        assert c'.receiver.AckPoint() <= c'.receiver.AckPoint();
      }
    }
  }

  lemma ArriveForward(c: Conn, seg: TcpSegment)
    requires c.Valid()
    ensures S.Forward(c.receiver, SegmentReceived(c, seg).receiver)
  {
    if c.Active() && !seg.header.rst {
      S.ReceiveForward(c.receiver, seg);
      ReplyAkin(Absorb(c, seg), seg);
    }
  }

  lemma PassForward(c: Conn, ms: nat)
    requires c.Valid()
    ensures S.Forward(c.receiver, Elapse(c, ms).receiver)
  {
    if c.Active() {
      var c1 := Age(c, ms);
      assert c1.receiver == c.receiver;
      GiveUpOrSendAkin(c1);
    }
  }

  lemma DoForward(c: Conn, call: Call)
    requires c.Valid() && Permitted(c, call)
    ensures S.Forward(c.receiver, Do(c, call).receiver)
  {
    match call
    case Arrive(seg) => ArriveForward(c, seg);
    case Pass(ms) => PassForward(c, ms);
    case _ =>
  }

  ghost function Wired(wire: set<Entry>, c: Conn): set<Entry> {
    wire + O.Sendable(c.sender)
  }

  lemma SideStep(c: Conn, wire: set<Entry>, call: Call, peer: Sender)
    requires SideOk(c, wire) && Permitted(c, call) && Led(peer, c.receiver) && Led(peer, Do(c, call).receiver)
    ensures SideOk(Do(c, call), Wired(wire, Do(c, call)))
  {
    var c' := Do(c, call);
    DoEmits(c, call);
    DoForward(c, call);
    StaysHonest(c, c');
    DoKeepsSender(c, call);
    PiecesLater(c.sender, c'.sender, wire);
    SendableArePieces(c'.sender);
    DoReady(wire, c, call);
  }

  // One side makes a call of its own.
  lemma OwnMove(c: Conn, wire: set<Entry>, call: Call, peer: Conn)
    requires SideOk(c, wire) && Permitted(c, call) && !call.Arrive?
    requires Led(c.sender, peer.receiver) && Led(peer.sender, c.receiver)
    ensures var c' := Do(c, call);
            SideOk(c', Wired(wire, c')) && Led(c'.sender, peer.receiver) && Led(peer.sender, c'.receiver)
  {
    DoKeepsSender(c, call);
    LedSender(c.sender, Do(c, call).sender, peer.receiver, 0);
    DoLeads(peer.sender, c, call);
    SideStep(c, wire, call, peer.sender);
  }

  // One side receives a segment of the other.
  lemma Arrival(c: Conn, wire: set<Entry>, seg: TcpSegment, e: Entry, peer: Conn, wire': set<Entry>)
    requires SideOk(c, wire) && SideOk(peer, wire') && Deliverable(peer, c, wire', seg, e)
    requires Led(c.sender, peer.receiver) && Led(peer.sender, c.receiver)
    ensures var c' := Do(c, Arrive(seg));
            SideOk(c', Wired(wire, c')) && Led(c'.sender, peer.receiver) && Led(peer.sender, c'.receiver)
  {
    var c' := Do(c, Arrive(seg));
    DoKeepsSender(c, Arrive(seg));
    if seg.header.ack {
      GenuineIsBelow(c.sender, peer.receiver, seg.header.ackno);
    }
    LedSender(c.sender, c'.sender, peer.receiver, Heard(c.sender, seg));
    SameChunk(peer.sender, e.seqno, e.segment, seg);
    ArriveLeads(peer.sender, c, seg, e.seqno);
    SideStep(c, wire, Arrive(seg), peer.sender);
  }

  // -------------------------------------------------------------------- runs

  ghost function Next(p: Pair, m: Move): (p': Pair)
    requires PairOk(p) && Enabled(p, m)
    ensures PairOk(p')
  {
    match m
    case AtA(call) =>
      OwnMove(p.a, p.fromA, call, p.b);
      p.(a := Do(p.a, call), fromA := Wired(p.fromA, Do(p.a, call)))
    case AtB(call) =>
      OwnMove(p.b, p.fromB, call, p.a);
      p.(b := Do(p.b, call), fromB := Wired(p.fromB, Do(p.b, call)))
    case ToA(seg, e) =>
      Arrival(p.a, p.fromA, seg, e, p.b, p.fromB);
      p.(a := Do(p.a, Arrive(seg)), fromA := Wired(p.fromA, Do(p.a, Arrive(seg))))
    case ToB(seg, e) =>
      Arrival(p.b, p.fromB, seg, e, p.a, p.fromA);
      p.(b := Do(p.b, Arrive(seg)), fromB := Wired(p.fromB, Do(p.b, Arrive(seg))))
  }

  ghost predicate Allowed(p: Pair, moves: seq<Move>)
    requires PairOk(p)
    decreases |moves|
  {
    moves != [] ==> Enabled(p, moves[0]) && Allowed(Next(p, moves[0]), moves[1..])
  }

  ghost function After(p: Pair, moves: seq<Move>): (p': Pair)
    requires PairOk(p) && Allowed(p, moves)
    ensures PairOk(p')
    decreases |moves|
  {
    if moves == [] then p else After(Next(p, moves[0]), moves[1..])
  }

  // How an endpoint is set up.
  datatype Setup = Setup(send: nat, receive: nat, timeout: u16, isn: u32)

  function NewSide(x: Setup): (c: Conn)
    ensures SideOk(c, {})
  {
    NewConn(x.send, x.receive, x.timeout, x.isn)
  }

  function NewPair(x: Setup, y: Setup): (p: Pair)
    ensures PairOk(p)
  {
    Pair(NewSide(x), NewSide(y), {}, {})
  }

  // An endpoint that is inactive without having been reset has finished.
  lemma InactiveMeansFinished(c: Conn)
    requires !c.Active() && !c.Reset()
    ensures Finished(c.sender) && c.receiver.Out().Eof()
  {
  }

  // `from` has closed without an error, and all it was given is at `to`.
  ghost predicate Delivered(from: Conn, to: Conn) {
    !from.Active() && !from.Reset() ==>
      to.receiver.Out().bytes == from.sender.stream.bytes && to.receiver.Out().ended
  }

  lemma ClosedMeansDelivered(from: Conn, to: Conn)
    requires Led(from.sender, to.receiver)
    ensures Delivered(from, to)
  {
    if !from.Active() && !from.Reset() {
      InactiveMeansFinished(from);
      LedAndFinished(from.sender, to.receiver);
    }
  }

  // A clean close means delivered, for both endpoints of every run: once one is
  // inactive without an error, the other has assembled everything that was ever
  // written to it and has seen the end of it.
  lemma CleanCloseMeansDelivered(x: Setup, y: Setup, moves: seq<Move>)
    requires Allowed(NewPair(x, y), moves)
    ensures var p := After(NewPair(x, y), moves); Delivered(p.a, p.b) && Delivered(p.b, p.a)
  {
    var p := After(NewPair(x, y), moves);
    ClosedMeansDelivered(p.a, p.b);
    ClosedMeansDelivered(p.b, p.a);
  }

  // In every run what each endpoint has assembled is a prefix of what was
  // written to the other.
  lemma InboundIsPrefix(x: Setup, y: Setup, moves: seq<Move>)
    requires Allowed(NewPair(x, y), moves)
    ensures var p := After(NewPair(x, y), moves);
            && p.b.receiver.Out().bytes <= p.a.sender.stream.bytes
            && p.a.receiver.Out().bytes <= p.b.sender.stream.bytes
  {
    assert PairOk(After(NewPair(x, y), moves));
  }

  // In every run the network can deliver whatever was sent, as long as it is not
  // too old: every segment is on the wire under a number its sender gave it, and
  // every acknowledgment is one the receiver could give.
  lemma EverythingSentIsOnTheWire(x: Setup, y: Setup, moves: seq<Move>)
    requires Allowed(NewPair(x, y), moves)
    ensures var p := After(NewPair(x, y), moves);
            && (forall seg | seg in p.a.out :: Backed(p.fromA, seg)) && Honest(p.a)
            && (forall seg | seg in p.b.out :: Backed(p.fromB, seg)) && Honest(p.b)
  {
    assert PairOk(After(NewPair(x, y), moves));
  }
}

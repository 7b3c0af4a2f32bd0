/**
 Two endpoints and the network between them.  Segments from A to B may be lost,
 repeated and reordered; segments from B to A may be lost and repeated but do
 not overtake one another, so that A hears B's acknowledgments in order.
 */
module OrderedDuplex {
  import opened Numbers
  import opened WrappingIntegers
  import opened ByteStreams
  import opened TcpSegments
  import opened Reassembly
  import opened ReassemblyWindow
  import opened Receivers
  import opened Senders
  import opened SenderLaws
  import opened Connections
  import opened ConnectionLaws
  import opened Emissions
  import opened Wires
  import O = OrderedTransfer
  import L = OrderedLaws
  import R = OrderedRuns
  import T = Transfer

  // `wire` is what A has ever had to send, with absolute numbers.  `acks` is
  // what B's segments told, one by one, after the first `silent` ones, which B
  // sent before it knew A's initial sequence number.  `seen` is the last of B's
  // segments that A has processed, or -1.
  datatype Pair = Pair(a: Conn, b: Conn, wire: set<Entry>, acks: seq<O.Ack>, silent: nat, seen: int)

  function Start(a: Conn, b: Conn): Pair {
    Pair(a, b, {}, [], 0, -1)
  }

  datatype Move =
    | AtA(call: Call)
    | AtB(call: Call)
    | ToA(i: nat)
    | ToB(segment: TcpSegment, entry: Entry)

  // A's outbound direction, seen on its own.
  ghost function Outbound(p: Pair): O.Flow {
    O.Flow(p.a.sender, p.b.receiver, p.wire, p.acks, if p.seen < p.silent then -1 else p.seen - p.silent)
  }

  // `seg` carries acknowledgment `ack` to a sender that started at `isn`.
  ghost predicate Carried(isn: u32, ack: O.Ack, seg: TcpSegment) {
    seg.header.ack && seg.header.ackno == Wrap(ack.point, isn) && seg.header.win == ack.window
  }

  ghost predicate Matched(p: Pair) {
    && |p.b.out| == p.silent + |p.acks| && p.seen < |p.b.out|
    && (forall i | 0 <= i < p.silent :: !p.b.out[i].header.ack)
    && (forall i | 0 <= i < |p.acks| :: Carried(p.a.sender.isn, p.acks[i], p.b.out[p.silent + i]))
  }

  ghost predicate PairOk(p: Pair) {
    p.a.Valid() && Tidy(p.b) && O.FlowOk(Outbound(p)) && Matched(p)
  }

  ghost predicate Enabled(p: Pair, m: Move) {
    match m
    case AtA(call) =>
      !call.Arrive? && Permitted(p.a, call) && (call.Put? ==> p.a.sender.stream.Written() + |call.data| < TWO_63)
    case AtB(call) => !call.Arrive? && Permitted(p.b, call) && (call.Open? ==> p.b.sender.next == 0)
    case ToA(i) => p.seen <= i < |p.b.out|
    case ToB(seg, e) => seg in p.a.out && e in p.wire && SameData(e.segment, seg) && T.Live(p.b.receiver, e.seqno)
  }

  // A has become `a`, and what it has to send may be on the wire from now on.
  ghost function MoveA(p: Pair, a: Conn, seen: int): Pair {
    p.(a := a, wire := p.wire + O.Sendable(a.sender), seen := seen)
  }

  // B has become `b`, and its new segments tell where its receiver stands.
  ghost function MoveB(p: Pair, b: Conn): Pair
    requires b.Valid() && b.receiver.reassembler.out.capacity < TWO_16 && |p.b.out| <= |b.out|
  {
    var n := |b.out| - |p.b.out|;
    if b.receiver.isnSet then p.(b := b, acks := p.acks + Copies(n, O.AckNow(b.receiver)))
    else p.(b := b, silent := p.silent + n)
  }

  ghost function Copies(n: nat, ack: O.Ack): seq<O.Ack> {
    seq(n, _ => ack)
  }

  // A processes a segment unless it is inactive or the segment is a reset.
  ghost function Seen(p: Pair, i: nat): int
    requires i < |p.b.out|
  {
    if p.a.Active() && !p.b.out[i].header.rst then i else p.seen
  }

  // ------------------------------------------------------------------- A moves

  lemma AlikeCore(f: O.Flow, s: Sender)
    requires O.Core(f) && Alike(f.sender, s)
    ensures O.Core(f.(sender := s)) && Later(f.sender, s)
  {
    AlikeKeeps(f.sender, s);
    L.AgreeLater(f.sender, s, f.receiver);
  }

  // `f` becomes a flow with sender `s` that satisfies the invariant.
  ghost predicate Good(f: O.Flow, s: Sender, heard: int) {
    O.Core(f.(sender := s, heard := heard)) && Later(f.sender, s)
  }

  lemma FillAndSendCore(f: O.Flow, s: Sender)
    requires O.Core(f) && Alike(FillWindow(f.sender), s)
    ensures Good(f, s, f.heard)
  {
    L.FillCore(f);
    AlikeCore(f.(sender := FillWindow(f.sender)), s);
    LaterTrans(f.sender, FillWindow(f.sender), s);
  }

  lemma WriteA(f: O.Flow, c: Conn, data: seq<byte>)
    requires O.Core(f) && f.sender == c.sender && c.Valid() && !c.sender.stream.ended
    requires c.sender.stream.Written() + |data| < TWO_63
    ensures Good(f, Write(c, data).sender, f.heard)
  {
    var c1 := c.(sender := c.sender.(stream := c.sender.stream.Write(data)));
    L.WriteCore(f, data);
    if c1.Established() {
      FillAndSendCore(f.(sender := c1.sender), Write(c, data).sender);
      LaterTrans(f.sender, c1.sender, Write(c, data).sender);
    }
  }

  lemma CloseA(f: O.Flow, c: Conn)
    requires O.Core(f) && f.sender == c.sender && c.Valid()
    ensures Good(f, EndInput(c).sender, f.heard)
  {
    var s1 := c.sender.(stream := c.sender.stream.End());
    L.CloseCore(f);
    FillAndSendCore(f.(sender := s1), EndInput(c).sender);
    LaterTrans(f.sender, s1, EndInput(c).sender);
  }

  lemma ElapseA(f: O.Flow, c: Conn, ms: nat)
    requires O.Core(f) && f.sender == c.sender && c.Valid()
    ensures Good(f, Elapse(c, ms).sender, f.heard)
  {
    if c.Active() {
      var s1, s2 := Tick(c.sender, ms), Elapse(c, ms).sender;
      L.PassCore(f, ms);
      GiveUpOrSendAkin(Age(c, ms));
      AlikeCore(f.(sender := s1), s2);
      LaterTrans(f.sender, s1, s2);
    }
  }

  lemma CallA(f: O.Flow, c: Conn, call: Call)
    requires O.Core(f) && f.sender == c.sender && c.Valid() && !call.Arrive? && Permitted(c, call)
    requires call.Put? ==> c.sender.stream.Written() + |call.data| < TWO_63
    ensures Good(f, Do(c, call).sender, f.heard)
  {
    match call
    case Pass(ms) => ElapseA(f, c, ms);
    case Put(data) => WriteA(f, c, data);
    case Close => CloseA(f, c);
    case Open => FillAndSendCore(f, Connect(c).sender);
    case Get(n) =>
  }

  // A hears acknowledgment `i`, or a segment without one, and fills its window.
  lemma HearA(f: O.Flow, seg: TcpSegment, heard: int)
    requires O.Core(f)
    requires if seg.header.ack
             then 0 <= heard < |f.acks| && f.heard <= heard && Carried(f.sender.isn, f.acks[heard], seg)
             else heard == f.heard
    ensures Good(f, Hear(f.sender, seg), heard)
  {
    if seg.header.ack {
      var s1 := AckReceived(f.sender, seg.header.ackno, seg.header.win);
      var f1 := f.(sender := s1, heard := heard);
      L.HearCore(f, heard);
      if s1.next != 0 {
        L.FillCore(f1);
        LaterTrans(f.sender, s1, FillWindow(s1));
      }
    }
  }

  lemma AnswerA(f: O.Flow, s: Sender)
    requires O.Core(f) && Alike(Answer(f.sender), s)
    ensures Good(f, s, f.heard)
  {
    if f.sender.next == 0 {
      FillAndSendCore(f, s);
    } else {
      AlikeCore(f, s);
    }
  }

  lemma ReplyA(f: O.Flow, c: Conn, seg: TcpSegment)
    requires O.Core(f) && f.sender == c.sender && c.Valid()
    ensures Good(f, Reply(c, seg).sender, f.heard)
  {
    ReplyAkin(c, seg);
    if seg.Length() > 0 && c.receiver.isnSet {
      AnswerA(f, Reply(c, seg).sender);
    } else {
      AlikeCore(f, Reply(c, seg).sender);
    }
  }

  lemma ArriveA(f: O.Flow, c: Conn, seg: TcpSegment, heard: int)
    requires O.Core(f) && f.sender == c.sender && c.Valid()
    requires if seg.header.ack && c.Active() && !seg.header.rst
             then 0 <= heard < |f.acks| && f.heard <= heard && Carried(f.sender.isn, f.acks[heard], seg)
             else heard == f.heard
    ensures Good(f, SegmentReceived(c, seg).sender, heard)
  {
    if c.Active() {
      if seg.header.rst {
        AlikeCore(f, c.Fail().sender);
      } else {
        HearA(f, seg, heard);
        ReplyA(f.(sender := Hear(f.sender, seg), heard := heard), Absorb(c, seg), seg);
        LaterTrans(f.sender, Hear(f.sender, seg), SegmentReceived(c, seg).sender);
      }
    }
  }

  // ------------------------------------------------------------------- B moves

  lemma FailCore(f: O.Flow)
    requires O.Core(f)
    ensures O.Core(f.(receiver := f.receiver.Fail())) && L.Grows(f.receiver.reassembler, f.receiver.Fail().reassembler)
  {
    var r' := f.receiver.Fail();
    forall j: nat | Known(r'.reassembler, j) ensures j < f.sender.stream.read {
      assert Known(f.receiver.reassembler, j);
    }
    L.ReceiverCore(f, r');
  }

  lemma SoundSame(s: Sender, r: Receiver, e: Entry, seg: TcpSegment)
    requires O.Sound(s, r, e) && SameData(e.segment, seg)
    ensures O.Sound(s, r, Entry(e.seqno, seg))
  {
  }

  // `f` becomes a flow with receiver `r` that satisfies the invariant.
  ghost predicate Fine(f: O.Flow, r: Receiver) {
    O.Core(f.(receiver := r)) && L.Grows(f.receiver.reassembler, r.reassembler) && (f.receiver.isnSet ==> r.isnSet)
  }

  lemma ElapseB(f: O.Flow, c: Conn, ms: nat)
    requires O.Core(f) && f.receiver == c.receiver && c.Valid()
    ensures Fine(f, Elapse(c, ms).receiver)
  {
    FailCore(f);
    if c.Active() {
      GiveUpOrSendAkin(Age(c, ms));
    }
  }

  lemma CallB(f: O.Flow, c: Conn, call: Call)
    requires O.Core(f) && f.receiver == c.receiver && c.Valid() && !call.Arrive? && Permitted(c, call)
    ensures Fine(f, Do(c, call).receiver)
  {
    match call
    case Pass(ms) => ElapseB(f, c, ms);
    case Get(n) => L.TakeCore(f, n);
    case _ =>
  }

  lemma ArriveB(f: O.Flow, c: Conn, seg: TcpSegment, e: Entry)
    requires O.Core(f) && f.receiver == c.receiver && c.Valid()
    requires O.Sound(f.sender, f.receiver, e) && SameData(e.segment, seg) && T.Live(f.receiver, e.seqno)
    ensures Fine(f, SegmentReceived(c, seg).receiver)
  {
    if c.Active() {
      if seg.header.rst {
        FailCore(f);
      } else {
        SoundSame(f.sender, f.receiver, e, seg);
        L.DeliverCore(f, e.seqno, seg);
        ReplyAkin(Absorb(c, seg), seg);
      }
    }
  }

  lemma {:induction false} EmitManyCore(f: O.Flow, n: nat)
    requires O.Core(f) && f.receiver.isnSet
    ensures O.Core(f.(acks := f.acks + Copies(n, O.AckNow(f.receiver))))
    decreases n
  {
    var ack := O.AckNow(f.receiver);
    if n == 0 {
      assert f.acks + Copies(0, ack) == f.acks;
    } else {
      L.EmitCore(f);
      EmitManyCore(f.(acks := f.acks + [ack]), n - 1);
      assert f.acks + [ack] + Copies(n - 1, ack) == f.acks + Copies(n, ack);
    }
  }

  lemma MoveBCore(p: Pair, b: Conn)
    requires PairOk(p) && Tidy(b) && Emits(p.b, b) && Fine(Outbound(p), b.receiver)
    ensures O.Core(Outbound(MoveB(p, b)))
  {
    var f := Outbound(p).(receiver := b.receiver);
    if b.receiver.isnSet {
      EmitManyCore(f, |b.out| - |p.b.out|);
    } else {
      assert Outbound(MoveB(p, b)) == f;
    }
  }

  lemma MoveBMatched(p: Pair, b: Conn)
    requires PairOk(p) && Tidy(b) && Emits(p.b, b) && Fine(Outbound(p), b.receiver)
    ensures Matched(MoveB(p, b))
  {
    var p', r := MoveB(p, b), b.receiver;
    assert r.isnSet ==> r.isn == p.a.sender.isn;
    forall i | 0 <= i < |p'.acks| ensures Carried(p.a.sender.isn, p'.acks[i], b.out[p'.silent + i]) {
      if i < |p.acks| {
        assert b.out[p.silent + i] == p.b.out[p.silent + i];
      } else {
        assert Tells(r, b.out[p'.silent + i]);
      }
    }
    forall i | 0 <= i < p'.silent ensures !b.out[i].header.ack {
      if i < p.silent {
        assert b.out[i] == p.b.out[i];
      } else {
        assert Tells(r, b.out[i]);
      }
    }
  }

  lemma MoveBKeeps(p: Pair, b: Conn)
    requires PairOk(p) && Tidy(b) && Emits(p.b, b) && Fine(Outbound(p), b.receiver)
    ensures PairOk(MoveB(p, b))
  {
    MoveBCore(p, b);
    MoveBMatched(p, b);
    O.SoundLater(p.a.sender, p.a.sender, p.b.receiver, b.receiver, p.wire);
  }

  lemma MoveAKeeps(p: Pair, a: Conn, seen: int)
    requires PairOk(p) && a.Valid() && seen < |p.b.out|
    requires Good(Outbound(p), a.sender, if seen < p.silent then -1 else seen - p.silent)
    ensures PairOk(MoveA(p, a, seen))
  {
    var p' := MoveA(p, a, seen);
    var f := Outbound(p).(sender := a.sender, heard := Outbound(p').heard);
    assert Outbound(p') == f.(wire := p'.wire);
    O.SoundLater(p.a.sender, a.sender, p.b.receiver, p.b.receiver, p.wire);
    O.SendableIsSound(f);
  }

  // -------------------------------------------------------------------- runs

  ghost function Next(p: Pair, m: Move): (p': Pair)
    requires PairOk(p) && Enabled(p, m)
    ensures PairOk(p')
  {
    match m
    case AtA(call) =>
      CallA(Outbound(p), p.a, call);
      MoveAKeeps(p, Do(p.a, call), p.seen);
      MoveA(p, Do(p.a, call), p.seen)
    case AtB(call) =>
      DoEmits(p.b, call);
      CallB(Outbound(p), p.b, call);
      MoveBKeeps(p, Do(p.b, call));
      MoveB(p, Do(p.b, call))
    case ToA(i) =>
      var seg, seen := p.b.out[i], Seen(p, i);
      ToAKeeps(p, i);
      MoveA(p, SegmentReceived(p.a, seg), seen)
    case ToB(seg, e) =>
      assert O.Sound(p.a.sender, p.b.receiver, e);
      ArriveEmits(p.b, seg);
      ArriveB(Outbound(p), p.b, seg, e);
      MoveBKeeps(p, SegmentReceived(p.b, seg));
      MoveB(p, SegmentReceived(p.b, seg))
  }

  lemma ToAKeeps(p: Pair, i: nat)
    requires PairOk(p) && p.seen <= i < |p.b.out|
    ensures PairOk(MoveA(p, SegmentReceived(p.a, p.b.out[i]), Seen(p, i)))
  {
    var seg, seen := p.b.out[i], Seen(p, i);
    var heard := if seen < p.silent then -1 else seen - p.silent;
    if i >= p.silent {
      assert Carried(p.a.sender.isn, p.acks[i - p.silent], p.b.out[p.silent + (i - p.silent)]);
    }
    ArriveA(Outbound(p), p.a, seg, heard);
    MoveAKeeps(p, SegmentReceived(p.a, seg), seen);
  }

  ghost predicate Allowed(p: Pair, moves: seq<Move>)
    requires PairOk(p)
    decreases |moves|
  {
    moves != [] ==> Enabled(p, moves[0]) && Allowed(Next(p, moves[0]), moves[1..])
  }

  ghost function After(p: Pair, moves: seq<Move>): (p': Pair)
    requires PairOk(p) && Allowed(p, moves)
    ensures PairOk(p')
    decreases |moves|
  {
    if moves == [] then p else After(Next(p, moves[0]), moves[1..])
  }

  function NewPair(sendA: nat, receiveA: nat, timeoutA: u16, isnA: u32, sendB: nat, receiveB: u16, timeoutB: u16, isnB: u32): (p: Pair)
    ensures PairOk(p)
  {
    Start(NewConn(sendA, receiveA, timeoutA, isnA), NewConn(sendB, receiveB, timeoutB, isnB))
  }

  lemma SameFate(r: Receiver, x: TcpSegment, y: TcpSegment)
    requires r.reassembler.out.Valid() && SameData(x, y)
    ensures R.ThrowsAway(r, x) <==> R.ThrowsAway(r, y)
  {
  }

  // With B's segments in order A's side of the connection is as safe as the
  // closed one-way system: at most one FIN number is used, whatever B has not
  // acknowledged A still holds, and no arrival makes B throw anything away.
  lemma OutboundIsSafe(sendA: nat, receiveA: nat, timeoutA: u16, isnA: u32,
                       sendB: nat, receiveB: u16, timeoutB: u16, isnB: u32, moves: seq<Move>)
    requires Allowed(NewPair(sendA, receiveA, timeoutA, isnA, sendB, receiveB, timeoutB, isnB), moves)
    ensures var p := After(NewPair(sendA, receiveA, timeoutA, isnA, sendB, receiveB, timeoutB, isnB), moves);
            var s, r := p.a.sender, p.b.receiver;
            && s.next <= s.stream.Written() + 2
            && (forall n: nat | (if r.isnSet then r.AckPoint() else 0) <= n < s.next :: R.Holds(s, n))
            && (forall seg, e | Enabled(p, ToB(seg, e)) :: !R.ThrowsAway(r, seg))
  {
    var p := After(NewPair(sendA, receiveA, timeoutA, isnA, sendB, receiveB, timeoutB, isnB), moves);
    var s, r := p.a.sender, p.b.receiver;
    forall n: nat | (if r.isnSet then r.AckPoint() else 0) <= n < s.next ensures R.Holds(s, n) {
      R.HeldUntilAcknowledged(Outbound(p), n);
    }
    forall seg, e | Enabled(p, ToB(seg, e)) ensures !R.ThrowsAway(r, seg) {
      R.NothingThrownAway(Outbound(p), e);
      SameFate(r, e.segment, seg);
    }
  }

  // ------------------------------------------------------------ the wire

  lemma NextBacked(p: Pair, m: Move)
    requires PairOk(p) && Enabled(p, m) && AllBacked(p.wire, p.a)
    ensures AllBacked(Next(p, m).wire, Next(p, m).a)
  {
    match m
    case AtA(call) => DoReady(p.wire, p.a, call);
    case ToA(i) => DoReady(p.wire, p.a, Arrive(p.b.out[i]));
    case _ =>
  }

  lemma {:induction false} RunBacked(p: Pair, moves: seq<Move>)
    requires PairOk(p) && Allowed(p, moves) && AllBacked(p.wire, p.a)
    ensures AllBacked(After(p, moves).wire, After(p, moves).a)
    decreases |moves|
  {
    if moves != [] {
      NextBacked(p, moves[0]);
      RunBacked(Next(p, moves[0]), moves[1..]);
    }
  }

  // In every run of two new endpoints, whatever A has sent can be delivered as
  // far as the wire is concerned.
  lemma EverythingSentIsOnTheWire(sendA: nat, receiveA: nat, timeoutA: u16, isnA: u32,
                                  sendB: nat, receiveB: u16, timeoutB: u16, isnB: u32, moves: seq<Move>)
    requires Allowed(NewPair(sendA, receiveA, timeoutA, isnA, sendB, receiveB, timeoutB, isnB), moves)
    ensures var p := After(NewPair(sendA, receiveA, timeoutA, isnA, sendB, receiveB, timeoutB, isnB), moves);
            forall seg | seg in p.a.out :: Backed(p.wire, seg)
  {
    RunBacked(NewPair(sendA, receiveA, timeoutA, isnA, sendB, receiveB, timeoutB, isnB), moves);
  }
}

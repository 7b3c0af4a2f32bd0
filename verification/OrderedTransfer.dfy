/**
 One direction of a connection, closed: the acknowledgments are those the
 receiver really sends.  Segments may be lost, repeated and reordered at will;
 acknowledgments may be lost and repeated but do not overtake one another.
 */
module OrderedTransfer {
  import opened Numbers
  import opened WrappingIntegers
  import opened ByteStreams
  import opened TcpSegments
  import opened Reassembly
  import opened ReassemblyLaws
  import opened ReassemblyWindow
  import opened Receivers
  import opened Senders
  import opened SenderLaws
  import T = Transfer

  // What one acknowledgment says: everything below `point` has arrived, and
  // there is room for `window` more.
  datatype Ack = Ack(point: nat, window: u16)

  // `wire` is everything ever sent, with the absolute number it was sent at;
  // `acks` is every acknowledgment ever sent, oldest first; `heard` is the last
  // one the sender has processed, or -1.
  datatype Flow = Flow(sender: Sender, receiver: Receiver, wire: set<Entry>, acks: seq<Ack>, heard: int)

  datatype Act =
    | Write(data: seq<byte>)
    | Close
    | Fill
    | Pass(ms: nat)
    | Empty
    | Deliver(entry: Entry)
    | Take(n: nat)
    | Emit
    | Hear(i: nat)

  function Start(sendCapacity: nat, receiveCapacity: u16, timeout: u16, isn: u32): (f: Flow)
    ensures FlowOk(f)
  {
    Flow(NewSender(sendCapacity, timeout, isn), NewReceiver(receiveCapacity), {}, [], -1)
  }

  // Whatever the sender may put on the wire: what it holds, and empty segments.
  ghost function Sendable(s: Sender): set<Entry> {
    (set e | e in s.outstanding)
    + (if s.probing then {Entry(s.probeSeqno, s.probe)} else {})
    + {Entry(s.next, Segment(s, false, false, []))}
  }

  ghost predicate Sane(f: Flow) {
    f.sender.stream.Valid() && f.receiver.reassembler.out.Valid() && f.receiver.reassembler.out.capacity < TWO_16
  }

  // The network may deliver anything on the wire that is not half the number
  // space old; the sender may hear any acknowledgment not older than the last.
  ghost predicate Enabled(f: Flow, act: Act) {
    match act
    case Write(data) => !f.sender.stream.ended && f.sender.stream.Written() + |data| < TWO_63
    case Deliver(e) => e in f.wire && T.Live(f.receiver, e.seqno)
    case Emit => f.receiver.isnSet
    case Hear(i) => f.heard <= i < |f.acks|
    case _ => true
  }

  ghost function AckNow(r: Receiver): Ack
    requires r.reassembler.out.Valid() && r.reassembler.out.capacity < TWO_16
  {
    Ack(r.AckPoint(), r.WindowSize())
  }

  ghost function HearAck(s: Sender, a: Ack): Sender {
    AckReceived(s, Wrap(a.point, s.isn), a.window)
  }

  ghost function Step(f: Flow, act: Act): (f': Flow)
    requires Sane(f) && Enabled(f, act)
    ensures f'.sender.stream.Valid() && f'.receiver.reassembler.out.Valid()
  {
    var s, r := f.sender, f.receiver;
    match act
    case Write(data) => f.(sender := s.(stream := s.stream.Write(data)))
    case Close => f.(sender := s.(stream := s.stream.End()))
    case Fill => f.(sender := FillWindow(s))
    case Pass(ms) => f.(sender := Tick(s, ms))
    case Empty => f.(sender := SendEmptySegment(s))
    case Deliver(e) => f.(receiver := r.Receive(e.segment))
    case Take(n) => f.(receiver := r.Take(n))
    case Emit => f.(acks := f.acks + [AckNow(r)])
    case Hear(i) => f.(sender := HearAck(s, f.acks[i]), heard := i)
  }

  ghost function Next(f: Flow, act: Act): (f': Flow)
    requires Sane(f) && Enabled(f, act)
  {
    var f' := Step(f, act);
    f'.(wire := f'.wire + Sendable(f'.sender))
  }

  // -------------------------------------------------------------- the invariant

  // A segment that ends inside the receiver's window, or is a single number.
  ghost predicate Fits(r: Receiver, e: Entry) {
    e.segment.Length() <= 1 || e.End() <= r.Out().Edge() + 1
  }

  ghost predicate Sound(s: Sender, r: Receiver, e: Entry) {
    Chunk(s, e.seqno, e.segment) && Fits(r, e)
  }

  ghost predicate AllSound(s: Sender, r: Receiver, wire: set<Entry>) {
    forall e | e in wire :: Sound(s, r, e)
  }

  // An acknowledgment the receiver could have sent by now: of data, or of the
  // whole stream `n` bytes long and its FIN, and then with the window open.
  ghost predicate Possible(r: Receiver, n: nat, a: Ack) {
    && 1 <= a.point
    && if a.point <= n + 1 then a.point <= r.Out().Written() + 1 && a.point + a.window <= r.Out().Edge() + 1
       else r.Out().ended && a.point == n + 2 && 1 <= a.window && a.point + a.window <= r.Out().Edge() + 2
  }

  ghost predicate Before(a: Ack, b: Ack) {
    a.point <= b.point && a.point + a.window <= b.point + b.window
  }

  ghost predicate Ordered(acks: seq<Ack>) {
    forall i, j | 0 <= i <= j < |acks| :: Before(acks[i], acks[j])
  }

  // What the sender's state owes to the last acknowledgment it heard.
  ghost predicate Follows(s: Sender, a: Ack) {
    && s.next >= 1 && s.window == a.window && Base(s) <= a.point && Limit(s) <= a.point + a.window
    && (s.probing ==> a.point <= s.probeSeqno)
    && (s.outstanding != [] || s.probing ==> a.point < s.next)
  }

  ghost predicate Unanswered(s: Sender) {
    s.window == 0 && s.next <= 1 && !s.probing && Base(s) == 0
  }

  // The two ends agree about the stream.
  ghost predicate Agree(s: Sender, r: Receiver) {
    && r.reassembler.out.capacity < TWO_16 && s.stream.Written() < TWO_63
    && Settled(r.reassembler, s.stream.bytes)
    && (r.isnSet ==> r.isn == s.isn && s.next >= 1)
    && (forall j: nat :: Known(r.reassembler, j) ==> j < s.stream.read)
    && (Flagged(r.reassembler) ==>
          s.stream.ended && s.next == s.stream.Written() + 2 && s.stream.Written() < r.Out().Edge())
  }

  ghost predicate AcksOk(f: Flow) {
    && (f.acks != [] ==> f.receiver.isnSet)
    && (forall a | a in f.acks :: Possible(f.receiver, f.sender.stream.Written(), a))
    && Ordered(f.acks)
  }

  ghost predicate HeardOk(f: Flow) {
    if f.heard < 0 then Unanswered(f.sender)
    else f.heard < |f.acks| && Follows(f.sender, f.acks[f.heard])
  }

  ghost predicate Core(f: Flow) {
    && SenderOk(f.sender) && f.sender.next <= f.sender.stream.Written() + 2
    && Agree(f.sender, f.receiver) && AcksOk(f) && HeardOk(f)
  }

  ghost predicate FlowOk(f: Flow) {
    Core(f) && AllSound(f.sender, f.receiver, f.wire)
  }

  // ------------------------------------------------------------------- the wire

  lemma {:induction false} TilesMember(s: Sender, es: seq<Entry>, low: nat, high: nat, e: Entry)
    requires Tiles(es, low, high) && AllChunks(s, es) && e in es
    ensures Chunk(s, e.seqno, e.segment) && low <= e.seqno && e.End() <= high && 0 < e.segment.Length()
  {
    TilesGrow(es[1..], es[0].End(), high);
    if e != es[0] {
      TilesMember(s, es[1..], es[0].End(), high, e);
    }
  }

  // Whatever the receiver has acknowledged, the sender has sent.
  lemma AckPointBound(s: Sender, r: Receiver)
    requires SenderOk(s) && Agree(s, r) && r.isnSet
    ensures r.AckPoint() <= s.next
  {
    var w := r.Out().Written();
    if w > 0 {
      assert Known(r.reassembler, w - 1);
    }
  }

  lemma HeardBound(f: Flow)
    requires Core(f) && f.heard >= 0
    ensures var a := f.acks[f.heard]; a.point <= f.receiver.AckPoint() <= f.sender.next
    ensures f.receiver.Out().Written() <= f.sender.stream.Written()
  {
    var a := f.acks[f.heard];
    assert a in f.acks;
    AckPointBound(f.sender, f.receiver);
  }

  // What the sender holds fits the receiver's window.
  lemma SendableIsSound(f: Flow)
    requires Core(f)
    ensures AllSound(f.sender, f.receiver, Sendable(f.sender))
  {
    var s := f.sender;
    forall e | e in Sendable(s) ensures Sound(s, f.receiver, e) {
      if e in s.outstanding {
        TilesMember(s, s.outstanding, Base(s), Limit(s), e);
        if f.heard >= 0 {
          HeardBound(f);
          assert f.acks[f.heard] in f.acks;
        }
      }
    }
  }

  lemma SoundLater(s: Sender, s': Sender, r: Receiver, r': Receiver, wire: set<Entry>)
    requires AllSound(s, r, wire) && Later(s, s') && r.Out().Edge() <= r'.Out().Edge()
    ensures AllSound(s', r', wire)
  {
    forall e | e in wire ensures Sound(s', r', e) {
      assert Sound(s, r, e);
      ChunkLater(s, s', e.seqno, e.segment);
    }
  }
}

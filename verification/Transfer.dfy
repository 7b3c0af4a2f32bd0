/**
 One direction of a connection as a distributed system: a sender, a receiver and
 a network that may lose, repeat and reorder segments, with any acknowledgments
 whatever coming back.
 */
module Transfer {
  import opened Numbers
  import opened WrappingIntegers
  import opened ByteStreams
  import opened TcpSegments
  import opened Reassembly
  import opened ReassemblyLaws
  import opened Receivers
  import opened Senders
  import opened SenderLaws

  // Everything the sender ever queued stays in `sender.segmentsOut`; the network
  // may deliver any of it at any time, any number of times, or never.
  datatype Link = Link(sender: Sender, receiver: Receiver)

  datatype Act =
    | Write(data: seq<byte>)
    | Close
    | Fill
    | Ack(ackno: u32, window: u16)
    | Pass(ms: nat)
    | Empty
    | Deliver(segment: TcpSegment)
    | Take(n: nat)

  function Start(sendCapacity: nat, receiveCapacity: nat, timeout: u16, isn: u32): (l: Link)
    ensures Invariant(l)
  {
    Link(NewSender(sendCapacity, timeout, isn), NewReceiver(receiveCapacity))
  }

  // Absolute number `k` is less than half the number space away from what the
  // receiver expects, and the 64-bit counters have not wrapped.
  ghost predicate Live(r: Receiver, k: nat) {
    var written := r.Out().Written();
    -TWO_31 < k - written < TWO_31 && k < TWO_64 && written < TWO_64
  }

  ghost predicate Enabled(l: Link, act: Act) {
    match act
    case Write(_) => !l.sender.stream.ended
    case Deliver(seg) => seg in l.sender.segmentsOut && exists k :: Chunk(l.sender, k, seg) && Live(l.receiver, k)
    case _ => true
  }

  ghost predicate Sane(l: Link) {
    l.sender.stream.Valid() && l.receiver.reassembler.out.Valid()
  }

  ghost function Next(l: Link, act: Act): (l': Link)
    requires Sane(l)
    ensures Sane(l')
  {
    var s, r := l.sender, l.receiver;
    match act
    case Write(data) => l.(sender := s.(stream := s.stream.Write(data)))
    case Close => l.(sender := s.(stream := s.stream.End()))
    case Fill => l.(sender := FillWindow(s))
    case Ack(ackno, window) => l.(sender := AckReceived(s, ackno, window))
    case Pass(ms) => l.(sender := Tick(s, ms))
    case Empty => l.(sender := SendEmptySegment(s))
    case Deliver(seg) => l.(receiver := r.Receive(seg))
    case Take(n) => l.(receiver := r.Take(n))
  }

  ghost predicate Possible(l: Link, acts: seq<Act>)
    requires Sane(l)
    decreases |acts|
  {
    acts != [] ==> Enabled(l, acts[0]) && Possible(Next(l, acts[0]), acts[1..])
  }

  ghost function After(l: Link, acts: seq<Act>): (l': Link)
    requires Sane(l)
    ensures Sane(l')
    decreases |acts|
  {
    if acts == [] then l else After(Next(l, acts[0]), acts[1..])
  }

  ghost predicate Invariant(l: Link) {
    && SenderOk(l.sender) && Accounted(l.sender, l.sender.segmentsOut)
    && Faithful(l.receiver.reassembler, l.sender.stream.bytes)
    && (l.receiver.isnSet ==> l.receiver.isn == l.sender.isn)
  }

  // ------------------------------------------------------------- the receiver

  // A live segment is put where its sender meant it.
  lemma IndexOfChunk(s: Sender, r: Receiver, k: nat, seg: TcpSegment)
    requires Chunk(s, k, seg) && !seg.header.syn && r.isn == s.isn && Live(r, k)
    ensures r.Index(seg) == if k == 0 then TWO_64 - 1 else k - 1
  {
    var written := r.Out().Written();
    assert Low64(written) == written;
    RoundTripNear(k, s.isn, written);
  }

  lemma ChunkIsProper(s: Sender, r: Receiver, k: nat, seg: TcpSegment)
    requires Chunk(s, k, seg) && r.isn == s.isn && r.isnSet && (seg.header.syn || Live(r, k))
    ensures Proper(s.stream.bytes, seg.payload, r.Index(seg), seg.header.fin)
  {
    if !seg.header.syn {
      IndexOfChunk(s, r, k, seg);
    }
  }

  lemma {:induction false} AllWithinLonger(s: seq<byte>, s': seq<byte>, ps: seq<Piece>)
    requires AllWithin(s, ps) && s <= s'
    ensures AllWithin(s', ps)
  {
    if ps != [] {
      AllWithinLonger(s, s', ps[1..]);
    }
  }

  lemma FaithfulLonger(r: Reassembler, s: seq<byte>, s': seq<byte>)
    requires Faithful(r, s) && s <= s'
    ensures Faithful(r, s')
  {
    AllWithinLonger(s, s', r.pieces);
  }

  lemma DeliverKeeps(l: Link, k: nat, seg: TcpSegment)
    requires Invariant(l) && Chunk(l.sender, k, seg) && Live(l.receiver, k)
    ensures Invariant(l.(receiver := l.receiver.Receive(seg)))
    ensures l.receiver.Out().bytes <= l.receiver.Receive(seg).Out().bytes
  {
    var r := l.receiver.Learn(seg);
    assert seg.header.syn ==> seg.header.seqno == l.sender.isn;
    if r.isnSet {
      ChunkIsProper(l.sender, r, k, seg);
      PushFaithful(r.reassembler, l.sender.stream.bytes, seg.payload, r.Index(seg), seg.header.fin);
    }
  }

  lemma StepKeeps(l: Link, act: Act)
    requires Invariant(l) && Enabled(l, act)
    ensures Invariant(Next(l, act))
    ensures l.receiver.Out().bytes <= Next(l, act).receiver.Out().bytes
    ensures l.sender.stream.bytes <= Next(l, act).sender.stream.bytes
  {
    var s := l.sender;
    match act
    case Write(data) =>
      WriteKeeps(s, data);
      AccountedLater(s, s.(stream := s.stream.Write(data)), s.segmentsOut);
      FaithfulLonger(l.receiver.reassembler, s.stream.bytes, s.stream.Write(data).bytes);
    case Close =>
      EndKeeps(s);
      AccountedLater(s, s.(stream := s.stream.End()), s.segmentsOut);
    case Fill =>
      FillKeeps(s);
      QueuesAccounts(s, FillWindow(s));
    case Ack(ackno, window) =>
      AckKeeps(s, ackno, window);
      AccountedLater(s, AckReceived(s, ackno, window), s.segmentsOut);
    case Pass(ms) =>
      TickKeeps(s, ms);
      TickAccounts(s, ms);
    case Empty => EmptyKeeps(s);
    case Deliver(seg) =>
      var k :| Chunk(s, k, seg) && Live(l.receiver, k);
      DeliverKeeps(l, k, seg);
    case Take(n) =>
  }

  lemma {:induction false} RunKeeps(l: Link, acts: seq<Act>)
    requires Invariant(l) && Possible(l, acts)
    ensures Invariant(After(l, acts))
    ensures l.receiver.Out().bytes <= After(l, acts).receiver.Out().bytes
    decreases |acts|
  {
    if acts != [] {
      StepKeeps(l, acts[0]);
      RunKeeps(Next(l, acts[0]), acts[1..]);
    }
  }

  // End-to-end safety: whatever the network does to live segments and whatever
  // acknowledgments the sender is told, the receiver's output is a prefix of
  // what was written to the sender.
  lemma DeliveredIsPrefixOfWritten(sendCapacity: nat, receiveCapacity: nat, timeout: u16, isn: u32, acts: seq<Act>)
    requires Possible(Start(sendCapacity, receiveCapacity, timeout, isn), acts)
    ensures var l := After(Start(sendCapacity, receiveCapacity, timeout, isn), acts);
            l.receiver.Out().bytes <= l.sender.stream.bytes
  {
    RunKeeps(Start(sendCapacity, receiveCapacity, timeout, isn), acts);
  }

  // The segments a run sends for the first time.
  ghost function FirstSent(l: Link, acts: seq<Act>): seq<TcpSegment>
    requires Sane(l) && SenderOk(l.sender) && Possible(l, acts) && Invariant(l)
    decreases |acts|
  {
    if acts == [] then []
    else
      StepKeeps(l, acts[0]);
      FillKeeps(l.sender);
      (if acts[0].Fill? then FillWindow(l.sender).segmentsOut[|l.sender.segmentsOut|..] else [])
      + FirstSent(Next(l, acts[0]), acts[1..])
  }

  lemma {:induction false} FirstSentTiles(l: Link, acts: seq<Act>)
    requires Sane(l) && Invariant(l) && Possible(l, acts)
    ensures Consecutive(After(l, acts).sender, FirstSent(l, acts), l.sender.next, After(l, acts).sender.next)
    ensures Later(l.sender, After(l, acts).sender)
    decreases |acts|
  {
    if acts != [] {
      var l1, l2 := Next(l, acts[0]), After(l, acts);
      StepKeeps(l, acts[0]);
      StepIsLater(l, acts[0]);
      FirstSentTiles(l1, acts[1..]);
      LaterTrans(l.sender, l1.sender, l2.sender);
      if acts[0].Fill? {
        FillKeeps(l.sender);
        var added := l1.sender.segmentsOut[|l.sender.segmentsOut|..];
        ConsecutiveLater(l1.sender, l2.sender, added, l.sender.next, l1.sender.next);
        ConsecutiveJoin(l2.sender, added, FirstSent(l1, acts[1..]), l.sender.next, l1.sender.next, l2.sender.next);
      } else {
        assert [] + FirstSent(l1, acts[1..]) == FirstSent(l1, acts[1..]);
      }
    }
  }

  // First transmissions tile the sequence numbers: in the order they are sent
  // they carry every number from 0 on exactly once, each with the byte that
  // belongs there.
  lemma FirstTransmissionsTile(sendCapacity: nat, receiveCapacity: nat, timeout: u16, isn: u32, acts: seq<Act>)
    requires Possible(Start(sendCapacity, receiveCapacity, timeout, isn), acts)
    ensures var l := Start(sendCapacity, receiveCapacity, timeout, isn);
            Consecutive(After(l, acts).sender, FirstSent(l, acts), 0, After(l, acts).sender.next)
  {
    FirstSentTiles(Start(sendCapacity, receiveCapacity, timeout, isn), acts);
  }

  // Under any acknowledgments at all: what is unacknowledged, followed by the
  // probe, tiles a range up to the next number, with the bytes that belong
  // there, and the timer runs exactly when there is such a thing.
  lemma AlwaysTiled(sendCapacity: nat, receiveCapacity: nat, timeout: u16, isn: u32, acts: seq<Act>)
    requires Possible(Start(sendCapacity, receiveCapacity, timeout, isn), acts)
    ensures var s := After(Start(sendCapacity, receiveCapacity, timeout, isn), acts).sender;
            && Tiles(s.outstanding, Base(s), Limit(s)) && AllChunks(s, s.outstanding)
            && (if s.probing then Limit(s) + s.probe.Length() == s.next && Chunk(s, Limit(s), s.probe) else Limit(s) == s.next)
            && (s.timerRunning <==> s.outstanding != [] || s.probing)
  {
    RunKeeps(Start(sendCapacity, receiveCapacity, timeout, isn), acts);
  }

  lemma StepIsLater(l: Link, act: Act)
    requires Sane(l) && Invariant(l) && Enabled(l, act)
    ensures Later(l.sender, Next(l, act).sender)
    ensures !act.Fill? ==> Next(l, act).sender.next == l.sender.next
  {
    var s := l.sender;
    match act
    case Write(data) => WriteKeeps(s, data);
    case Close => EndKeeps(s);
    case Fill => FillKeeps(s);
    case Ack(ackno, window) => AckKeeps(s, ackno, window);
    case Pass(ms) => TickKeeps(s, ms);
    case Empty => EmptyKeeps(s);
    case Deliver(seg) =>
    case Take(n) =>
  }

  // ------------------------------------------------- genuine acknowledgments

  // What the receiver would acknowledge now.
  ghost function Floor(r: Receiver): nat {
    if r.isnSet then r.AckPoint() else 0
  }

  // The sender believes nothing acknowledged that the receiver does not have.
  ghost predicate Led(s: Sender, r: Receiver) {
    && SenderOk(s) && Faithful(r.reassembler, s.stream.bytes)
    && (r.isnSet ==> r.isn == s.isn) && Base(s) <= Floor(r)
  }

  // The receiver may have sent this acknowledgment number, now or at any time
  // before, and it is less than half the number space away from the sender's
  // next number.
  ghost predicate Genuine(s: Sender, r: Receiver, ackno: u32) {
    exists p: nat :: p <= Floor(r) && Near(p, s.next) && ackno == Wrap(p, s.isn)
  }

  ghost predicate Near(p: nat, next: nat) {
    -TWO_31 < p - next < TWO_31 && p < TWO_64 && next < TWO_64
  }

  // A genuine number is never read as more than it says.
  lemma GenuineIsBelow(s: Sender, r: Receiver, ackno: u32)
    requires Genuine(s, r, ackno)
    ensures ReadAck(s, ackno) <= Floor(r)
  {
    var p: nat :| p <= Floor(r) && Near(p, s.next) && ackno == Wrap(p, s.isn);
    assert Low64(s.next) == s.next;
    RoundTripNear(p, s.isn, s.next);
  }

  // Everything sent and acknowledged means everything delivered.
  lemma LedAndFinished(s: Sender, r: Receiver)
    requires Led(s, r) && Finished(s)
    ensures r.Out().bytes == s.stream.bytes && r.Out().ended
  {
    FlightIsSpan(s);
  }

  // `s'` is a later state of `s` that has forgotten no more than what is below
  // `a`.
  ghost predicate Keeps(s: Sender, s': Sender, a: nat) {
    SenderOk(s') && Later(s, s') && Base(s') <= Max(Base(s), a)
  }

  lemma LedSender(s: Sender, s': Sender, r: Receiver, a: nat)
    requires Led(s, r) && Keeps(s, s', a) && a <= Floor(r)
    ensures Led(s', r)
  {
    FaithfulLonger(r.reassembler, s.stream.bytes, s'.stream.bytes);
  }

  lemma LedReceiver(s: Sender, r: Receiver, k: nat, seg: TcpSegment)
    requires Led(s, r) && Chunk(s, k, seg) && Live(r, k)
    ensures Led(s, r.Receive(seg))
  {
    var r1 := r.Learn(seg);
    assert seg.header.syn ==> seg.header.seqno == s.isn;
    if r1.isnSet {
      ChunkIsProper(s, r1, k, seg);
      PushFaithful(r1.reassembler, s.stream.bytes, seg.payload, r1.Index(seg), seg.header.fin);
      PushForward(r1.reassembler, seg.payload, r1.Index(seg), seg.header.fin);
    }
  }

  lemma AckKeepsAbove(s: Sender, ackno: u32, window: u16)
    requires SenderOk(s)
    ensures Keeps(s, AckReceived(s, ackno, window), Max(0, ReadAck(s, ackno)))
  {
    AckKeeps(s, ackno, window);
  }

  lemma GenuineStep(l: Link, act: Act)
    requires Invariant(l) && Led(l.sender, l.receiver) && Enabled(l, act)
    requires act.Ack? ==> Genuine(l.sender, l.receiver, act.ackno)
    ensures Invariant(Next(l, act)) && Led(Next(l, act).sender, Next(l, act).receiver)
  {
    var s, r := l.sender, l.receiver;
    StepKeeps(l, act);
    match act
    case Write(data) =>
      WriteKeeps(s, data);
      LedSender(s, s.(stream := s.stream.Write(data)), r, 0);
    case Close =>
      EndKeeps(s);
      LedSender(s, s.(stream := s.stream.End()), r, 0);
    case Fill =>
      FillKeeps(s);
      LedSender(s, FillWindow(s), r, 0);
    case Ack(ackno, window) =>
      AckKeepsAbove(s, ackno, window);
      GenuineIsBelow(s, r, ackno);
      LedSender(s, AckReceived(s, ackno, window), r, Max(0, ReadAck(s, ackno)));
    case Pass(ms) =>
      TickKeeps(s, ms);
      LedSender(s, Tick(s, ms), r, 0);
    case Empty =>
      EmptyKeeps(s);
      LedSender(s, SendEmptySegment(s), r, 0);
    case Deliver(seg) =>
      var k :| Chunk(s, k, seg) && Live(r, k);
      LedReceiver(s, r, k, seg);
    case Take(n) =>
  }

  // Every acknowledgment heard is genuine; the network may reorder and repeat
  // them as it likes.
  ghost predicate AllGenuine(l: Link, acts: seq<Act>)
    requires Sane(l)
    decreases |acts|
  {
    acts != [] ==>
      && (acts[0].Ack? ==> Genuine(l.sender, l.receiver, acts[0].ackno))
      && AllGenuine(Next(l, acts[0]), acts[1..])
  }

  lemma {:induction false} GenuineRun(l: Link, acts: seq<Act>)
    requires Invariant(l) && Led(l.sender, l.receiver) && Possible(l, acts) && AllGenuine(l, acts)
    ensures Led(After(l, acts).sender, After(l, acts).receiver)
    decreases |acts|
  {
    if acts != [] {
      GenuineStep(l, acts[0]);
      GenuineRun(Next(l, acts[0]), acts[1..]);
    }
  }

  // With genuine acknowledgments in any order: once the sender has finished,
  // everything was delivered.
  lemma FinishedMeansDelivered(sendCapacity: nat, receiveCapacity: nat, timeout: u16, isn: u32, acts: seq<Act>)
    requires Possible(Start(sendCapacity, receiveCapacity, timeout, isn), acts)
    requires AllGenuine(Start(sendCapacity, receiveCapacity, timeout, isn), acts)
    ensures var l := After(Start(sendCapacity, receiveCapacity, timeout, isn), acts);
            Finished(l.sender) ==> l.receiver.Out().bytes == l.sender.stream.bytes && l.receiver.Out().ended
  {
    var l0 := Start(sendCapacity, receiveCapacity, timeout, isn);
    GenuineRun(l0, acts);
    if Finished(After(l0, acts).sender) {
      LedAndFinished(After(l0, acts).sender, After(l0, acts).receiver);
    }
  }
}

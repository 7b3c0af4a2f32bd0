/** What the sender keeps under any acknowledgments at all. */
module SenderLaws {
  import opened Numbers
  import opened WrappingIntegers
  import opened ByteStreams
  import opened TcpSegments
  import opened Senders

  // The entries occupy exactly [low, high), one after the other.
  ghost predicate Tiles(es: seq<Entry>, low: nat, high: nat) {
    if es == [] then low == high
    else es[0].seqno == low && es[0].segment.Length() > 0 && Tiles(es[1..], es[0].End(), high)
  }

  // Where the unacknowledged segments end and the probe, if any, begins.
  function Limit(s: Sender): nat {
    if s.probing then s.probeSeqno else s.next
  }

  // The lowest unacknowledged sequence number.
  function Base(s: Sender): nat {
    if s.outstanding == [] then Limit(s) else s.outstanding[0].seqno
  }

  // `seg` is a piece of what the sender has to say, at absolute number `k`: the
  // SYN at 0, the byte of stream index i at i + 1, a FIN not before the end.
  ghost predicate Chunk(s: Sender, k: nat, seg: TcpSegment) {
    && seg.header.seqno == Wrap(k, s.isn) && k + seg.Length() <= s.next
    && if seg.header.syn then k == 0 && seg.payload == [] && !seg.header.fin
       else
         && (seg.Length() > 0 ==> k >= 1)
         && (seg.payload != [] ==> Carries(s.stream, seg.payload, k - 1))
         && (seg.header.fin ==> s.stream.Eof() && k - 1 + |seg.payload| >= s.stream.Written())
  }

  // `payload` is what was taken from the stream at `index`.
  ghost predicate Carries(stream: Stream, payload: seq<byte>, index: nat) {
    && index + |payload| <= stream.read <= |stream.bytes|
    && payload == stream.bytes[index..index + |payload|]
  }

  ghost predicate AllChunks(s: Sender, es: seq<Entry>) {
    es != [] ==> Chunk(s, es[0].seqno, es[0].segment) && AllChunks(s, es[1..])
  }

  ghost predicate SenderOk(s: Sender) {
    && s.stream.Valid()
    && (s.next == 0 ==> s.outstanding == [] && !s.probing && s.stream.read == 0)
    && (s.next > 0 ==> s.stream.read + 1 <= s.next)
    && (s.next > s.stream.read + 1 ==> s.stream.Eof())
    && Tiles(s.outstanding, Base(s), Limit(s)) && AllChunks(s, s.outstanding)
    && (s.probing ==> ProbeOk(s))
    && !s.probe.header.syn && (s.probe.header.fin ==> s.stream.Eof())
    && (s.timerRunning <==> s.outstanding != [] || s.probing)
  }

  ghost predicate ProbeOk(s: Sender) {
    && s.probeSeqno >= 1 && s.probeSeqno + 1 == s.next
    && s.probe.Length() == 1 && Chunk(s, s.probeSeqno, s.probe)
  }

  // `s'` is the same sender at a later time.
  ghost predicate Later(s: Sender, s': Sender) {
    && s'.isn == s.isn && s.next <= s'.next
    && s.stream.bytes <= s'.stream.bytes && s.stream.read <= s'.stream.read <= |s'.stream.bytes|
    && (s.stream.ended ==> s'.stream.ended && s'.stream.bytes == s.stream.bytes)
  }

  lemma ChunkLater(s: Sender, s': Sender, k: nat, seg: TcpSegment)
    requires Chunk(s, k, seg) && Later(s, s')
    ensures Chunk(s', k, seg)
  {
  }

  lemma {:induction false} AllChunksLater(s: Sender, s': Sender, es: seq<Entry>)
    requires AllChunks(s, es) && Later(s, s')
    ensures AllChunks(s', es)
  {
    if es != [] {
      ChunkLater(s, s', es[0].seqno, es[0].segment);
      AllChunksLater(s, s', es[1..]);
    }
  }

  lemma LaterTrans(s: Sender, s': Sender, s'': Sender)
    requires Later(s, s') && Later(s', s'')
    ensures Later(s, s'')
  {
  }

  // ----------------------------------------------------------------- sending

  lemma {:induction false} FlightOfTiles(es: seq<Entry>, low: nat, high: nat)
    requires Tiles(es, low, high)
    ensures Flight(es) == high - low
  {
    if es != [] {
      FlightOfTiles(es[1..], es[0].End(), high);
    }
  }

  lemma {:induction false} TilesGrow(es: seq<Entry>, low: nat, high: nat)
    requires Tiles(es, low, high)
    ensures low <= high && (es != [] ==> low < high)
  {
    if es != [] {
      TilesGrow(es[1..], es[0].End(), high);
    }
  }

  lemma FlightIsSpan(s: Sender)
    requires SenderOk(s)
    ensures s.InFlight() == Limit(s) - Base(s) && (s.outstanding != [] <==> s.InFlight() > 0)
  {
    FlightOfTiles(s.outstanding, Base(s), Limit(s));
    TilesGrow(s.outstanding, Base(s), Limit(s));
  }

  lemma {:induction false} AssignTiles(es: seq<Entry>, low: nat, high: nat, seg: TcpSegment)
    requires Tiles(es, low, high) && seg.Length() > 0
    ensures Tiles(Assign(es, high, seg), low, high + seg.Length())
    ensures Assign(es, high, seg)[0].seqno == low
    ensures Flight(Assign(es, high, seg)) == Flight(es) + seg.Length()
  {
    if es != [] {
      TilesGrow(es, low, high);
      AssignTiles(es[1..], es[0].End(), high, seg);
    }
  }

  lemma {:induction false} AssignChunks(s: Sender, es: seq<Entry>, k: nat, seg: TcpSegment)
    requires AllChunks(s, es) && Chunk(s, k, seg)
    ensures AllChunks(s, Assign(es, k, seg))
  {
    if es != [] {
      if es[0].seqno < k {
        AssignChunks(s, es[1..], k, seg);
      } else if es[0].seqno > k {
        assert ([Entry(k, seg)] + es)[1..] == es;
      }
    }
  }

  // New segments, in order, from `low` up to `high`.
  ghost predicate Consecutive(s: Sender, segs: seq<TcpSegment>, low: nat, high: nat)
    decreases |segs|
  {
    if segs == [] then low == high
    else Chunk(s, low, segs[0]) && 0 < segs[0].Length() && |segs[0].payload| <= MAX_PAYLOAD_SIZE
         && Consecutive(s, segs[1..], low + segs[0].Length(), high)
  }

  // `s'` has queued new segments for exactly the numbers it has used since `s`.
  ghost predicate Queues(s: Sender, s': Sender) {
    && s.segmentsOut <= s'.segmentsOut
    && Consecutive(s', s'.segmentsOut[|s.segmentsOut|..], s.next, s'.next)
  }

  lemma {:induction false} ConsecutiveJoin(s: Sender, xs: seq<TcpSegment>, ys: seq<TcpSegment>, low: nat, mid: nat, high: nat)
    requires Consecutive(s, xs, low, mid) && Consecutive(s, ys, mid, high)
    ensures Consecutive(s, xs + ys, low, high)
    decreases |xs|
  {
    if xs == [] {
      assert xs + ys == ys;
    } else {
      assert (xs + ys)[1..] == xs[1..] + ys;
      ConsecutiveJoin(s, xs[1..], ys, low + xs[0].Length(), mid, high);
    }
  }

  lemma {:induction false} ConsecutiveLater(s: Sender, s': Sender, segs: seq<TcpSegment>, low: nat, high: nat)
    requires Consecutive(s, segs, low, high) && Later(s, s')
    ensures Consecutive(s', segs, low, high)
    decreases |segs|
  {
    if segs != [] {
      ChunkLater(s, s', low, segs[0]);
      ConsecutiveLater(s, s', segs[1..], low + segs[0].Length(), high);
    }
  }

  // `seg` is right for the next sequence number.
  ghost predicate CanSend(s: Sender, seg: TcpSegment) {
    && seg.Length() > 0 && |seg.payload| <= MAX_PAYLOAD_SIZE && !s.probing
    && Chunk(s.(next := s.next + seg.Length()), s.next, seg)
  }

  // What a sender that takes `n` bytes from its stream and uses `n` numbers, or
  // one more for a SYN or a FIN, has become.
  ghost predicate Sent(s: Sender, s': Sender, n: nat, extra: bool) {
    && SenderOk(s') && Later(s, s') && Queues(s, s')
    && Base(s') == Base(s) && !s'.probing && s'.window == s.window
    && s'.stream == s.stream.(read := s.stream.read + n)
    && s'.next == s.next + n + (if extra then 1 else 0)
    && s'.InFlight() == s.InFlight() + n + (if extra then 1 else 0)
  }

  // One segment more in the queue, with the next number.
  lemma QueuesOne(s: Sender, s': Sender, seg: TcpSegment)
    requires s'.segmentsOut == s.segmentsOut + [seg] && s'.next == s.next + seg.Length()
    requires Chunk(s', s.next, seg) && 0 < seg.Length() && |seg.payload| <= MAX_PAYLOAD_SIZE
    ensures Queues(s, s')
  {
    assert s'.segmentsOut[|s.segmentsOut|..] == [seg];
    assert [seg][1..] == [];
  }

  // What is held after one more segment is sent.
  lemma SendHolds(s: Sender, s': Sender, seg: TcpSegment)
    requires Tiles(s.outstanding, Base(s), s.next) && AllChunks(s, s.outstanding) && Later(s, s')
    requires s'.outstanding == Assign(s.outstanding, s.next, seg) && s'.next == s.next + seg.Length()
    requires !s.probing && !s'.probing && Chunk(s', s.next, seg) && 0 < seg.Length()
    ensures Tiles(s'.outstanding, Base(s'), s'.next) && AllChunks(s', s'.outstanding) && s'.outstanding != []
    ensures Base(s') == Base(s) && s'.InFlight() == s.InFlight() + seg.Length()
  {
    AssignTiles(s.outstanding, Base(s), s.next, seg);
    AllChunksLater(s, s', s.outstanding);
    AssignChunks(s', s.outstanding, s.next, seg);
  }

  lemma SendOk(s: Sender, n: nat, extra: bool, seg: TcpSegment)
    requires SenderOk(s) && n <= |s.stream.Buffer()|
    requires seg.Length() == n + (if extra then 1 else 0)
    requires var t := s.(stream := s.stream.Pop(n));
             && CanSend(t, seg)
             && t.stream.read + 1 <= s.next + seg.Length()
             && (s.next + seg.Length() > t.stream.read + 1 ==> t.stream.Eof())
    ensures Sent(s, Send(s.(stream := s.stream.Pop(n)), seg), n, extra)
  {
    var t' := Send(s.(stream := s.stream.Pop(n)), seg);
    SendHolds(s, t', seg);
    QueuesOne(s, t', seg);
  }

  lemma QueuesTrans(s: Sender, s': Sender, s'': Sender)
    requires Queues(s, s') && Queues(s', s'') && Later(s', s'')
    ensures Queues(s, s'')
  {
    var xs, ys := s'.segmentsOut[|s.segmentsOut|..], s''.segmentsOut[|s'.segmentsOut|..];
    ConsecutiveLater(s', s'', xs, s.next, s'.next);
    ConsecutiveJoin(s'', xs, ys, s.next, s'.next, s''.next);
    assert s''.segmentsOut[|s.segmentsOut|..] == xs + ys;
  }

  lemma SendOneOk(s: Sender, k: nat, fin: bool)
    requires SenderOk(s) && s.next > 0 && !s.probing && 0 < k <= |s.stream.Buffer()| && k <= MAX_PAYLOAD_SIZE
    requires fin ==> s.stream.ended && k == |s.stream.Buffer()|
    ensures Sent(s, Send(s.(stream := s.stream.Pop(k)), Segment(s, false, fin, s.stream.Buffer()[..k])), k, fin)
  {
    var seg := Segment(s, false, fin, s.stream.Buffer()[..k]);
    assert seg.payload == s.stream.bytes[s.next - 1..s.next - 1 + k];
    SendOk(s, k, fin, seg);
  }

  lemma SentTrans(s: Sender, s': Sender, s'': Sender, n: nat, m: nat, fin: bool)
    requires Sent(s, s', n, false) && Sent(s', s'', m, fin)
    ensures Sent(s, s'', n + m, fin)
  {
    LaterTrans(s, s', s'');
    QueuesTrans(s, s', s'');
  }

  lemma {:induction false} SendBytesOk(s: Sender, n: nat, fin: bool)
    requires SenderOk(s) && s.next > 0 && !s.probing && 0 < n <= |s.stream.Buffer()|
    requires fin ==> s.stream.ended && n == |s.stream.Buffer()|
    ensures Sent(s, SendBytes(s, n, fin), n, fin)
    decreases n
  {
    if n <= MAX_PAYLOAD_SIZE {
      SendOneOk(s, n, fin);
    } else {
      var k := MAX_PAYLOAD_SIZE;
      var s1 := Send(s.(stream := s.stream.Pop(k)), Segment(s, false, false, s.stream.Buffer()[..k]));
      SendOneOk(s, k, false);
      SentLeaves(s, s1, k, n, fin);
      SendBytesOk(s1, n - k, fin);
      var s2 := SendBytes(s1, n - k, fin);
      assert s2 == SendBytes(s, n, fin);
      SentTrans(s, s1, s2, k, n - k, fin);
    }
  }

  lemma SentLeaves(s: Sender, s1: Sender, k: nat, n: nat, fin: bool)
    requires s.stream.Valid() && k < n <= |s.stream.Buffer()| && Sent(s, s1, k, false) && s.next > 0
    requires fin ==> s.stream.ended && n == |s.stream.Buffer()|
    ensures SenderOk(s1) && s1.next > 0 && !s1.probing && 0 < n - k <= |s1.stream.Buffer()|
    ensures fin ==> s1.stream.ended && n - k == |s1.stream.Buffer()|
  {
  }

  lemma QueuesNothing(s: Sender)
    ensures Queues(s, s)
  {
    assert s.segmentsOut[|s.segmentsOut|..] == [];
  }

  // Filling an open window sends what fits and nothing else.
  lemma FillOpenOk(s: Sender)
    requires SenderOk(s) && s.next > 0 && !s.probing && s.window > s.InFlight()
    ensures var n := Min(s.window - s.InFlight(), |s.stream.Buffer()|);
            var fin := s.stream.ended && s.stream.Written() + 1 == s.next + n && s.InFlight() + n < s.window;
            Sent(s, FillOpen(s), n, fin)
  {
    var n := Min(s.window - s.InFlight(), |s.stream.Buffer()|);
    if s.stream.Eof() && s.next < s.stream.Written() + 2 {
      SendOk(s, 0, true, Segment(s, false, true, []));
    } else if n > 0 {
      SendBytesOk(s, n, s.stream.ended && s.window - s.InFlight() > |s.stream.Buffer()|);
    } else {
      QueuesNothing(s);
    }
  }

  lemma ProbeIsChunk(s: Sender, n: nat, fin: bool)
    requires SenderOk(s) && s.next > 0
    requires (n == 1 && !fin && s.stream.Buffer() != []) || (n == 0 && fin && s.stream.Eof())
    ensures var s' := Probe(s, n, fin);
            && Chunk(s', s.next, s'.probe) && s'.probe.Length() == 1 && |s'.probe.payload| <= 1 && !s'.probe.header.syn
  {
    var payload := s.stream.Buffer()[..n];
    if n == 1 {
      assert !s.stream.Eof();
      assert payload == s.stream.bytes[s.next - 1..s.next];
    } else {
      assert payload == [];
    }
  }

  lemma ProbeIsOk(s: Sender, n: nat, fin: bool)
    requires SenderOk(s) && s.next > 0 && !s.probing
    requires (n == 1 && !fin && s.stream.Buffer() != []) || (n == 0 && fin && s.stream.Eof())
    ensures var s' := Probe(s, n, fin);
            && SenderOk(s') && Later(s, s') && Queues(s, s')
            && s'.outstanding == s.outstanding && s'.next == s.next + 1 && s'.probing && s'.window == s.window
            && s'.stream == s.stream.Pop(n)
  {
    var s' := Probe(s, n, fin);
    ProbeIsChunk(s, n, fin);
    AllChunksLater(s, s', s.outstanding);
    QueuesOne(s, s', s'.probe);
  }

  // `fill_window` keeps the tiling, and its new segments carry exactly the new
  // numbers, each with the bytes that belong there.
  lemma FillKeeps(s: Sender)
    requires SenderOk(s)
    ensures SenderOk(FillWindow(s)) && Later(s, FillWindow(s)) && Queues(s, FillWindow(s))
    ensures s.stream.bytes == FillWindow(s).stream.bytes && s.window == FillWindow(s).window
    ensures Base(s) == Base(FillWindow(s))
  {
    QueuesNothing(s);
    if s.next == 0 {
      SendOk(s, 0, true, Segment(s, true, false, []));
    } else if s.window > s.InFlight() && !s.probing {
      FillOpenOk(s);
    } else if s.window == 0 && s.next > s.InFlight() && !s.probing {
      if s.stream.Buffer() != [] {
        ProbeIsOk(s, 1, false);
      } else if s.stream.Eof() {
        ProbeIsOk(s, 0, true);
      }
    }
  }

  // After the SYN the window is respected, a probe adds one number beyond it,
  // and filling stops only when there is nothing to send or no room: with room
  // left over and the stream finished, the FIN has been sent.
  lemma FillRespectsWindow(s: Sender)
    requires SenderOk(s) && s.next > 0
    ensures var s' := FillWindow(s);
            && s'.InFlight() <= Max(s.InFlight(), s.window)
            && s'.next - s.next <= s'.InFlight() - s.InFlight() + (if s'.probing && !s.probing then 1 else 0)
            && (s'.probing && !s.probing ==> s.window == 0)
            && (!s.probing && s.window > 0 ==>
                  && (s'.stream.Buffer() == [] || s'.InFlight() >= s.window)
                  && (s'.stream.Eof() && s'.InFlight() < s.window ==> s'.next >= s'.stream.Written() + 2))
  {
    if s.window > s.InFlight() && !s.probing {
      FillOpenOk(s);
    } else if s.window == 0 && s.next > s.InFlight() && !s.probing {
      if s.stream.Buffer() != [] {
        ProbeIsOk(s, 1, false);
      } else if s.stream.Eof() {
        ProbeIsOk(s, 0, true);
      }
    }
  }

  // ---------------------------------------------------------- acknowledgment

  lemma {:induction false} UnackedTiles(s: Sender, es: seq<Entry>, low: nat, high: nat, a: nat)
    requires Tiles(es, low, high) && AllChunks(s, es)
    ensures var es' := Unacked(es, a);
            && AllChunks(s, es')
            && (es' != [] ==> Tiles(es', es'[0].seqno, high) && low <= es'[0].seqno <= Max(low, a) && a < high)
            && (es' == [] ==> high <= Max(low, a))
            && (a <= low ==> es' == es)
    decreases |es|
  {
    if es != [] {
      UnackedTiles(s, es[1..], es[0].End(), high, a);
      TilesGrow(es[1..], es[0].End(), high);
    }
  }

  lemma {:induction false} UnackedAll(es: seq<Entry>, low: nat, high: nat, a: nat)
    requires Tiles(es, low, high) && a <= low
    ensures Unacked(es, a) == es
  {
    if es != [] {
      UnackedAll(es[1..], es[0].End(), high, a);
    }
  }

  // Numbers a multiple of 2^32 apart stand for each other, and no others.
  lemma Congruent(n: nat, m: nat, isn: u32)
    requires n <= m < n + TWO_32
    ensures Wrap(n + TWO_32, isn) == Wrap(n, isn) && (Wrap(n, isn) == Wrap(m, isn) <==> n == m)
  {
  }

  // The closest value that is above the checkpoint has the next lower one below it.
  lemma NoneBetween(u: u64, ackno: u32, isn: u32, next: u64)
    requires Closest(u, ackno, isn, next)
    ensures u <= next ==> next < u + TWO_32
    ensures u > next && u >= TWO_32 ==> u - TWO_32 <= next && Wrap(u - TWO_32, isn) == ackno
  {
    Congruent(u, u, isn);
    assert u + TWO_32 < TWO_64 ==> Candidate(u + TWO_32, ackno, isn);
    if u > next && u >= TWO_32 {
      Congruent(u - TWO_32, u - TWO_32, isn);
      assert Candidate(u - TWO_32, ackno, isn);
    }
  }

  // An acknowledgment is read as the largest number up to the next unused one that
  // it can stand for, and refused exactly when there is none.
  lemma ReadAckIsLatest(s: Sender, ackno: u32)
    requires s.next < TWO_64
    ensures var a := ReadAck(s, ackno);
            && (a >= 0 ==> Wrap(a, s.isn) == ackno && a <= s.next < a + TWO_32)
            && (a < 0 ==> forall n: nat | n <= s.next :: Wrap(n, s.isn) != ackno)
  {
    var u := Unwrap(ackno, s.isn, Low64(s.next));
    assert Low64(s.next) == s.next;
    UnwrapIsClosest(ackno, s.isn, s.next);
    NoneBetween(u, ackno, s.isn, s.next);
    if ReadAck(s, ackno) < 0 {
      forall n: nat | n <= s.next ensures Wrap(n, s.isn) != ackno {
        Congruent(n, u, s.isn);
      }
    }
  }

  // Any acknowledgment at all, genuine, stale or made up, keeps the tiling.
  lemma AckKeeps(s: Sender, ackno: u32, window: u16)
    requires SenderOk(s)
    ensures SenderOk(AckReceived(s, ackno, window)) && Later(s, AckReceived(s, ackno, window))
    ensures var s', a := AckReceived(s, ackno, window), ReadAck(s, ackno);
            && s'.stream == s.stream && s'.next == s.next && s'.segmentsOut == s.segmentsOut
            && (a >= 0 ==> s'.window == window && Base(s) <= Base(s') <= Max(Base(s), a)
                           && (s'.probing <==> s.probing && a <= s.probeSeqno)
                           && (s'.outstanding != [] ==> a < Limit(s)))
            && s'.probeSeqno == s.probeSeqno
            && (a < 0 ==> s' == s)
  {
    var a := ReadAck(s, ackno);
    if a >= 0 {
      var s' := AckReceived(s, ackno, window);
      UnackedTiles(s, s.outstanding, Base(s), Limit(s), a);
      TilesGrow(s.outstanding, Base(s), Limit(s));
      AllChunksLater(s, s', s'.outstanding);
    }
  }

  // A segment is dropped only when an accepted acknowledgment covers all of it.
  lemma {:induction false} DroppedOnlyWhenAcked(es: seq<Entry>, a: nat, e: Entry)
    requires e in es
    ensures e in Unacked(es, a) <==> a < e.End()
  {
    if es[0].End() <= a {
      if e != es[0] {
        DroppedOnlyWhenAcked(es[1..], a, e);
      } else if e in Unacked(es[1..], a) {
        UnackedEnds(es[1..], a, e);
      }
    } else if e in es[1..] {
      DroppedOnlyWhenAcked(es[1..], a, e);
    }
  }

  lemma {:induction false} UnackedEnds(es: seq<Entry>, a: nat, e: Entry)
    requires e in Unacked(es, a)
    ensures a < e.End()
  {
    if es[0].End() <= a {
      UnackedEnds(es[1..], a, e);
    } else if e != es[0] {
      UnackedEnds(es[1..], a, e);
    }
  }

  // -------------------------------------------------------- time and writing

  lemma TickKeeps(s: Sender, ms: nat)
    requires SenderOk(s)
    ensures SenderOk(Tick(s, ms)) && Later(s, Tick(s, ms))
    ensures var s' := Tick(s, ms);
            && s'.stream == s.stream && s'.next == s.next && s'.window == s.window
            && s'.outstanding == s.outstanding && s'.probing == s.probing && s'.probeSeqno == s.probeSeqno
            && (s'.segmentsOut == s.segmentsOut
                || s'.segmentsOut == s.segmentsOut + [if s.probing then s.probe else s.outstanding[0].segment])
  {
    AllChunksLater(s, Tick(s, ms), s.outstanding);
  }

  lemma WriteKeeps(s: Sender, data: seq<byte>)
    requires SenderOk(s) && !s.stream.ended
    ensures var s' := s.(stream := s.stream.Write(data)); SenderOk(s') && Later(s, s')
  {
    AllChunksLater(s, s.(stream := s.stream.Write(data)), s.outstanding);
  }

  lemma EndKeeps(s: Sender)
    requires SenderOk(s)
    ensures var s' := s.(stream := s.stream.End()); SenderOk(s') && Later(s, s')
  {
    AllChunksLater(s, s.(stream := s.stream.End()), s.outstanding);
  }

  // ------------------------------------------------------ what has been queued

  // Every segment is a piece of what the sender has to say.
  ghost predicate Accounted(s: Sender, segs: seq<TcpSegment>) {
    segs != [] ==> (exists k :: Chunk(s, k, segs[0])) && Accounted(s, segs[1..])
  }

  lemma {:induction false} AccountedLater(s: Sender, s': Sender, segs: seq<TcpSegment>)
    requires Accounted(s, segs) && Later(s, s')
    ensures Accounted(s', segs)
  {
    if segs != [] {
      var k :| Chunk(s, k, segs[0]);
      ChunkLater(s, s', k, segs[0]);
      AccountedLater(s, s', segs[1..]);
    }
  }

  lemma {:induction false} AccountedJoin(s: Sender, xs: seq<TcpSegment>, ys: seq<TcpSegment>)
    requires Accounted(s, xs) && Accounted(s, ys)
    ensures Accounted(s, xs + ys)
  {
    if xs == [] {
      assert xs + ys == ys;
    } else {
      assert (xs + ys)[0] == xs[0] && (xs + ys)[1..] == xs[1..] + ys;
      AccountedJoin(s, xs[1..], ys);
    }
  }

  lemma {:induction false} ConsecutiveAccounted(s: Sender, segs: seq<TcpSegment>, low: nat, high: nat)
    requires Consecutive(s, segs, low, high)
    ensures Accounted(s, segs)
    decreases |segs|
  {
    if segs != [] {
      ConsecutiveAccounted(s, segs[1..], low + segs[0].Length(), high);
    }
  }

  lemma {:induction false} AccountedMember(s: Sender, segs: seq<TcpSegment>, seg: TcpSegment) returns (k: nat)
    requires Accounted(s, segs) && seg in segs
    ensures Chunk(s, k, seg)
  {
    if seg == segs[0] {
      k :| Chunk(s, k, segs[0]);
    } else {
      k := AccountedMember(s, segs[1..], seg);
    }
  }

  lemma AccountedOne(s: Sender, s': Sender, k: nat, seg: TcpSegment)
    requires Accounted(s, s.segmentsOut) && Later(s, s') && Chunk(s', k, seg) && s'.segmentsOut == s.segmentsOut + [seg]
    ensures Accounted(s', s'.segmentsOut)
  {
    AccountedLater(s, s', s.segmentsOut);
    assert [seg][0] == seg && [seg][1..] == [];
    AccountedJoin(s', s.segmentsOut, [seg]);
  }

  lemma QueuesAccounts(s: Sender, s': Sender)
    requires Accounted(s, s.segmentsOut) && Later(s, s') && Queues(s, s')
    ensures Accounted(s', s'.segmentsOut)
  {
    var added := s'.segmentsOut[|s.segmentsOut|..];
    AccountedLater(s, s', s.segmentsOut);
    ConsecutiveAccounted(s', added, s.next, s'.next);
    AccountedJoin(s', s.segmentsOut, added);
    assert s'.segmentsOut == s.segmentsOut + added;
  }

  lemma TickAccounts(s: Sender, ms: nat)
    requires SenderOk(s) && Accounted(s, s.segmentsOut)
    ensures Accounted(Tick(s, ms), Tick(s, ms).segmentsOut)
  {
    var s' := Tick(s, ms);
    TickKeeps(s, ms);
    if s'.segmentsOut == s.segmentsOut {
      AccountedLater(s, s', s.segmentsOut);
    } else if s.probing {
      ChunkLater(s, s', s.probeSeqno, s.probe);
      AccountedOne(s, s', s.probeSeqno, s.probe);
    } else {
      ChunkLater(s, s', s.outstanding[0].seqno, s.outstanding[0].segment);
      AccountedOne(s, s', s.outstanding[0].seqno, s.outstanding[0].segment);
    }
  }

  lemma EmptyKeeps(s: Sender)
    requires SenderOk(s)
    ensures SenderOk(SendEmptySegment(s)) && Later(s, SendEmptySegment(s))
    ensures Accounted(s, s.segmentsOut) ==> Accounted(SendEmptySegment(s), SendEmptySegment(s).segmentsOut)
  {
    var s' := SendEmptySegment(s);
    AllChunksLater(s, s', s.outstanding);
    if Accounted(s, s.segmentsOut) {
      AccountedOne(s, s', s.next, Segment(s, false, false, []));
    }
  }
}

/**
 Whole runs of a reassembler: arrivals inside the window, interleaved with
 reads, in any order and with any repetition.
 */
module ReassemblyRuns {
  import opened Numbers
  import opened ByteStreams
  import opened Reassembly
  import opened ReassemblyLaws
  import opened ReassemblyWindow

  datatype Event =
    | Arrive(data: seq<byte>, index: nat, eof: bool)
    | Take(n: nat)

  function Step(r: Reassembler, e: Event): (r': Reassembler)
    requires r.out.Valid()
    ensures r'.out.Valid() && r'.out.capacity == r.out.capacity
  {
    match e
    case Arrive(data, index, eof) => Push(r, data, index, eof)
    case Take(n) => r.(out := r.out.Pop(n))
  }

  function Run(r: Reassembler, events: seq<Event>): (r': Reassembler)
    requires r.out.Valid()
    ensures r'.out.Valid() && r'.out.capacity == r.out.capacity
    decreases |events|
  {
    if events == [] then r else Run(Step(r, events[0]), events[1..])
  }

  // Every arrival carries bytes of `s` and ends inside the window of its time,
  // or starts beyond it.
  ghost predicate Legal(r: Reassembler, s: seq<byte>, events: seq<Event>)
    requires r.out.Valid()
    decreases |events|
  {
    events != [] ==>
      && (events[0].Arrive? ==> InOrBeyond(r, s, events[0].data, events[0].index, events[0].eof))
      && Legal(Step(r, events[0]), s, events[1..])
  }

  // The event is an arrival inside the window.
  ghost predicate Enters(r: Reassembler, e: Event) {
    e.Arrive? && e.index < r.out.Edge()
  }

  // Some arrival inside the window of its time carries byte `j`.
  ghost predicate Arrived(r: Reassembler, events: seq<Event>, j: nat)
    requires r.out.Valid()
    decreases |events|
  {
    events != [] &&
    ((Enters(r, events[0]) && events[0].index <= j < events[0].index + |events[0].data|)
     || Arrived(Step(r, events[0]), events[1..], j))
  }

  // Some arrival inside the window carries the end mark together with the last
  // byte for the first time, or with no byte at all.
  ghost predicate Marked(r: Reassembler, events: seq<Event>)
    requires r.out.Valid()
    decreases |events|
  {
    events != [] &&
    ((Enters(r, events[0]) && events[0].eof && NewTail(r, events[0].data, events[0].index))
     || Marked(Step(r, events[0]), events[1..]))
  }

  lemma TakeSettles(r: Reassembler, s: seq<byte>, n: nat)
    requires Settled(r, s)
    ensures Settled(r.(out := r.out.Pop(n)), s)
  {
    DescWiden(r.pieces, r.out.Written() + 1, r.out.Edge(), r.out.Pop(n).Edge());
  }

  lemma {:induction false} RunSettles(r: Reassembler, s: seq<byte>, events: seq<Event>)
    requires Settled(r, s) && Legal(r, s, events)
    ensures Settled(Run(r, events), s)
    ensures forall j: nat :: Known(Run(r, events), j) <==> Known(r, j) || Arrived(r, events, j)
    ensures Flagged(Run(r, events)) <==> Flagged(r) || Marked(r, events)
    decreases |events|
  {
    if events != [] {
      match events[0]
      case Arrive(data, index, eof) =>
        if index < r.out.Edge() {
          PushSettles(r, s, data, index, eof);
        }
        RunSettles(Step(r, events[0]), s, events[1..]);
      case Take(n) =>
        TakeSettles(r, s, n);
        RunSettles(Step(r, events[0]), s, events[1..]);
    }
  }

  // What is stored but not written lies strictly beyond the next byte.
  lemma {:induction false} NotCoveredBelow(ps: seq<Piece>, low: nat, high: nat, j: nat)
    requires Desc(ps, low, high) && j < low
    ensures !Covered(ps, j)
  {
    if ps != [] {
      NotCoveredBelow(ps[1..], low, ps[0].index, j);
    }
  }

  // Refinement.  After any legal run the output is the stream up to the first
  // byte that has not arrived, the stored pieces are disjoint and lie beyond that
  // byte inside the window, the count of unassembled bytes is exact, the
  // capacity holds, and the input has ended exactly when everything arrived and
  // the end mark arrived with, or after, a byte not seen before.
  lemma RunIsPrefixOfArrivals(capacity: nat, s: seq<byte>, events: seq<Event>)
    requires capacity < TWO_64 && Legal(EmptyReassembler(capacity), s, events)
    ensures var r0 := EmptyReassembler(capacity);
            var r := Run(r0, events);
            && r.out.bytes <= s
            && (forall j | 0 <= j < r.out.Written() :: Arrived(r0, events, j))
            && !Arrived(r0, events, r.out.Written())
            && Desc(r.pieces, r.out.Written() + 1, r.out.Edge())
            && r.size == Total(r.pieces) && r.size + |r.out.Buffer()| <= capacity
            && (r.out.ended <==> r.out.bytes == s && Marked(r0, events))
  {
    var r0 := EmptyReassembler(capacity);
    RunSettles(r0, s, events);
    var r := Run(r0, events);
    SettledShape(r, s);
    forall j: nat | j < r.out.Written() ensures Arrived(r0, events, j) {
      assert Known(r, j);
    }
  }

  // What `Settled` says about the output and the counts.
  lemma SettledShape(r: Reassembler, s: seq<byte>)
    requires Settled(r, s)
    ensures r.out.bytes <= s && !Known(r, r.out.Written())
    ensures r.size + |r.out.Buffer()| <= r.out.capacity
    ensures r.out.ended <==> r.out.bytes == s && Flagged(r)
  {
    NotCoveredBelow(r.pieces, r.out.Written() + 1, r.out.Edge(), r.out.Written());
    TotalAfterFirst(r.pieces, r.out.Written(), r.out.Edge());
    if r.out.bytes == s {
      NoEofBeyond(r.pieces, |s|, r.out.Edge());
    }
  }

  lemma TotalAfterFirst(ps: seq<Piece>, low: nat, high: nat)
    requires Desc(ps, low + 1, high) && low <= high
    ensures Total(ps) <= high - low
  {
    DescLower(ps, low + 1, low, high);
    TotalBound(ps, low, high);
  }

  // Once everything is written no end mark can still be waiting.
  lemma {:induction false} NoEofBeyond(ps: seq<Piece>, n: nat, high: nat)
    requires Desc(ps, n + 1, high) && EofAt(ps, n)
    ensures !AnyEof(ps)
  {
    if ps != [] {
      NoEofBeyond(ps[1..], n, ps[0].index);
    }
  }

  // Order and repetition do not matter: two legal runs whose arrivals cover the
  // same bytes have written the same bytes.
  lemma SameArrivalsSameOutput(c1: nat, e1: seq<Event>, c2: nat, e2: seq<Event>, s: seq<byte>)
    requires c1 < TWO_64 && Legal(EmptyReassembler(c1), s, e1)
    requires c2 < TWO_64 && Legal(EmptyReassembler(c2), s, e2)
    requires forall j: nat :: Arrived(EmptyReassembler(c1), e1, j) <==> Arrived(EmptyReassembler(c2), e2, j)
    ensures Run(EmptyReassembler(c1), e1).out.bytes == Run(EmptyReassembler(c2), e2).out.bytes
  {
    RunIsPrefixOfArrivals(c1, s, e1);
    RunIsPrefixOfArrivals(c2, s, e2);
    var r1, r2 := EmptyReassembler(c1), EmptyReassembler(c2);
    var w1, w2 := Run(r1, e1).out.Written(), Run(r2, e2).out.Written();
    assert Arrived(r1, e1, w1) <==> Arrived(r2, e2, w1);
    assert Arrived(r1, e1, w2) <==> Arrived(r2, e2, w2);
  }

  // Every arrival inside the window that reaches the end of `s` carries the end
  // mark.
  ghost predicate MarksTheEnd(r: Reassembler, s: seq<byte>, events: seq<Event>)
    requires r.out.Valid()
    decreases |events|
  {
    events != [] ==>
      && (Enters(r, events[0]) && events[0].data != [] && events[0].index + |events[0].data| == |s| ==> events[0].eof)
      && MarksTheEnd(Step(r, events[0]), s, events[1..])
  }

  lemma {:induction false} MarkedWhenMarking(r: Reassembler, s: seq<byte>, events: seq<Event>)
    requires Settled(r, s) && Legal(r, s, events) && MarksTheEnd(r, s, events)
    requires s != [] && Arrived(r, events, |s| - 1) && !Known(r, |s| - 1)
    ensures Marked(r, events)
    decreases |events|
  {
    match events[0]
    case Arrive(data, index, eof) =>
      if index < r.out.Edge() {
        PushSettles(r, s, data, index, eof);
      }
      if !(Enters(r, events[0]) && index <= |s| - 1 < index + |data|) {
        MarkedWhenMarking(Step(r, events[0]), s, events[1..]);
      }
    case Take(n) =>
      TakeSettles(r, s, n);
      MarkedWhenMarking(Step(r, events[0]), s, events[1..]);
  }

  // If the last byte always travels with the end mark, the input ends in the
  // very step in which the last missing byte is written; an empty stream ends
  // with the first end mark.
  lemma EndsWithLastByte(capacity: nat, s: seq<byte>, events: seq<Event>)
    requires capacity < TWO_64 && Legal(EmptyReassembler(capacity), s, events)
    requires MarksTheEnd(EmptyReassembler(capacity), s, events)
    ensures var r0 := EmptyReassembler(capacity);
            var r := Run(r0, events);
            r.out.ended <==> r.out.bytes == s && (s == [] ==> Marked(r0, events))
  {
    var r0 := EmptyReassembler(capacity);
    RunIsPrefixOfArrivals(capacity, s, events);
    if s != [] && Run(r0, events).out.bytes == s {
      MarkedWhenMarking(r0, s, events);
    }
  }
}

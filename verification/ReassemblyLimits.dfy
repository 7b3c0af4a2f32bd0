/**
 Pushes that overrun the window and the count of stored bytes: how far it falls
 short, and exactly when it stays right.
 */
module ReassemblyLimits {
  import opened Numbers
  import opened ByteStreams
  import opened Reassembly
  import opened ReassemblyLaws
  import opened ReassemblyWindow
  import opened ReassemblyRuns

  // The stored count of bytes is right.
  ghost predicate Exact(r: Reassembler) {
    r.size == Total(r.pieces)
  }

  // How much a 64-bit count falls short of `total`.
  ghost function Gap(size: u64, total: nat): nat {
    (total - size) % TWO_64
  }

  ghost function GapOf(r: Reassembler): nat {
    Gap(r.size, Total(r.pieces))
  }

  lemma GapPop(size: u64, total: nat, n: nat)
    requires n <= total
    ensures Gap((size - n) % TWO_64, total - n) == Gap(size, total)
  {
  }

  lemma GapGrowth(size: u64, total: nat, n: nat)
    ensures Gap((size + n) % TWO_64, total + n) == Gap(size, total)
  {
  }

  // What is stored and buffered fits the capacity, but for the bytes not counted.
  ghost predicate Fitting(capacity: nat, buffered: nat, total: nat, size: u64) {
    total + buffered <= capacity + Gap(size, total)
  }

  // The same with everything far from the limits of 64-bit numbers.
  ghost predicate Bounded(capacity: nat, buffered: nat, total: nat, size: u64, bound: nat) {
    && Fitting(capacity, buffered, total, size)
    && total + buffered + capacity <= bound < TWO_64 - capacity && Gap(size, total) <= bound
  }

  // The room that seems free: what is free and what is not counted, until more is
  // missing from the count than there is.
  lemma SpareOfGap(capacity: nat, buffered: nat, total: nat, size: u64, bound: nat)
    requires Bounded(capacity, buffered, total, size, bound)
    ensures var gap := Gap(size, total);
            SpareRoom(capacity, size, buffered) ==
              if gap <= total + buffered then capacity + gap - total - buffered else 0
  {
    Used(size, total, buffered);
  }

  lemma Used(size: u64, total: nat, buffered: nat)
    ensures (size + buffered) % TWO_64 == (total + buffered - Gap(size, total)) % TWO_64
  {
  }

  // --------------------------------------------------------------- making room

  // Making room for `need` bytes cuts a piece while some room seems free.
  ghost predicate ShearsAt(capacity: nat, buffered: nat, ps: seq<Piece>, size: u64, need: nat, begin: nat)
    decreases |ps|
  {
    var spare := SpareRoom(capacity, size, buffered);
    && ps != [] && spare < need && ps[0].index >= begin
    && if |ps[0].data| + spare > need then spare > 0
       else ShearsAt(capacity, buffered, ps[1..], (size - |ps[0].data|) % TWO_64, need, begin)
  }

  lemma PopBounded(capacity: nat, buffered: nat, ps: seq<Piece>, size: u64, bound: nat)
    requires ps != [] && Bounded(capacity, buffered, Total(ps), size, bound)
    ensures Bounded(capacity, buffered, Total(ps[1..]), (size - |ps[0].data|) % TWO_64, bound)
    ensures Gap((size - |ps[0].data|) % TWO_64, Total(ps[1..])) == Gap(size, Total(ps))
  {
    GapPop(size, Total(ps), |ps[0].data|);
  }

  // Once more is missing from the count than there is, no room ever seems free.
  lemma {:induction false} StuckNeverShears(capacity: nat, buffered: nat, ps: seq<Piece>, size: u64, need: nat, begin: nat, bound: nat)
    requires Bounded(capacity, buffered, Total(ps), size, bound) && Gap(size, Total(ps)) > Total(ps) + buffered
    ensures !ShearsAt(capacity, buffered, ps, size, need, begin)
    decreases |ps|
  {
    SpareOfGap(capacity, buffered, Total(ps), size, bound);
    if ps != [] && |ps[0].data| <= need {
      PopBounded(capacity, buffered, ps, size, bound);
      StuckNeverShears(capacity, buffered, ps[1..], (size - |ps[0].data|) % TWO_64, need, begin, bound);
    }
  }

  lemma ShearTotal(ps: seq<Piece>, spare: nat, need: nat)
    requires ps != [] && spare < need < |ps[0].data| + spare
    ensures Total([Shear(ps[0], spare, need)] + ps[1..]) == Total(ps) + spare - need
  {
    var qs := [Shear(ps[0], spare, need)] + ps[1..];
    assert qs[1..] == ps[1..];
  }

  // The highest piece cut, and the count after it.
  ghost function CutTop(ps: seq<Piece>, spare: nat, need: nat): seq<Piece>
    requires ps != [] && spare < need < |ps[0].data| + spare
  {
    [Shear(ps[0], spare, need)] + ps[1..]
  }

  // Cutting a piece adds the spare room to what is missing from the count; after
  // that there is room enough, or none will ever seem free again.
  lemma CutGap(capacity: nat, buffered: nat, ps: seq<Piece>, size: u64, need: nat, begin: nat, bound: nat)
    requires Bounded(capacity, buffered, Total(ps), size, bound)
    requires var spare := SpareRoom(capacity, size, buffered); ps != [] && spare < need < |ps[0].data| + spare
    ensures var spare := SpareRoom(capacity, size, buffered);
            var qs, size' := CutTop(ps, spare, need), (size - need) % TWO_64;
            && Total(qs) == Total(ps) + spare - need && Bounded(capacity, buffered, Total(qs), size', bound)
            && Gap(size', Total(qs)) == Gap(size, Total(ps)) + spare
            && !ShearsAt(capacity, buffered, qs, size', need, begin)
            && (SpareRoom(capacity, size', buffered) >= need || Gap(size', Total(qs)) > Total(qs) + buffered)
            && Total(qs) + need + buffered <= capacity + Gap(size', Total(qs))
  {
    var spare, total := SpareRoom(capacity, size, buffered), Total(ps);
    SpareOfGap(capacity, buffered, total, size, bound);
    ShearTotal(ps, spare, need);
    var qs, size' := CutTop(ps, spare, need), (size - need) % TWO_64;
    CutGapValue(size, total, spare, need);
    SpareOfGap(capacity, buffered, Total(qs), size', bound);
    if Gap(size', Total(qs)) > Total(qs) + buffered {
      StuckNeverShears(capacity, buffered, qs, size', need, begin, bound);
    }
  }

  lemma CutGapValue(size: u64, total: nat, spare: nat, need: nat)
    requires need <= total + spare && Gap(size, total) + spare < TWO_64
    ensures Gap((size - need) % TWO_64, total + spare - need) == Gap(size, total) + spare
  {
  }

  // What making room does to the count: it never makes good what is missing, and
  // adds to it exactly when it cuts a piece while some room seems free.
  ghost predicate Loses(capacity: nat, buffered: nat, ps: seq<Piece>, size: u64, need: nat, begin: nat, bound: nat, space: Space)
    requires space.Space?
  {
    var gap, gap' := Gap(size, Total(ps)), Gap(space.size, Total(space.pieces));
    && Total(space.pieces) <= Total(ps) && gap <= gap' <= bound
    && (gap' > gap <==> ShearsAt(capacity, buffered, ps, size, need, begin))
    && Total(space.pieces) + |space.data| + buffered <= capacity + gap'
  }

  lemma {:induction false} EvictLoses(capacity: nat, buffered: nat, ps: seq<Piece>, size: u64, data: seq<byte>, begin: nat, bound: nat)
    requires Bounded(capacity, buffered, Total(ps), size, bound)
    ensures Loses(capacity, buffered, ps, size, |data|, begin, bound, Evict(capacity, buffered, ps, size, data, begin))
    decreases Total(ps) + |ps|
  {
    var spare := SpareRoom(capacity, size, buffered);
    SpareOfGap(capacity, buffered, Total(ps), size, bound);
    if ps != [] && spare < |data| && ps[0].index >= begin {
      if |ps[0].data| + spare > |data| {
        CutGap(capacity, buffered, ps, size, |data|, begin, bound);
        EvictLoses(capacity, buffered, CutTop(ps, spare, |data|), (size - |data|) % TWO_64, data, begin, bound);
      } else {
        PopBounded(capacity, buffered, ps, size, bound);
        EvictLoses(capacity, buffered, ps[1..], (size - |ps[0].data|) % TWO_64, data, begin, bound);
      }
    }
  }

  // The first cut also takes the end mark from the piece.
  lemma CutLoses(capacity: nat, buffered: nat, ps: seq<Piece>, size: u64, data: seq<byte>, begin: nat, bound: nat)
    requires Bounded(capacity, buffered, Total(ps), size, bound) && ps != [] && ps[0].index >= begin
    requires var spare := SpareRoom(capacity, size, buffered); spare < |data| < |ps[0].data| + spare
    ensures Loses(capacity, buffered, ps, size, |data|, begin, bound, MakeSpace(capacity, buffered, ps, size, data, begin))
  {
    CutGap(capacity, buffered, ps, size, |data|, begin, bound);
    var cut := Shear(ps[0], SpareRoom(capacity, size, buffered), |data|);
    assert Total([cut.(eof := false)] + ps[1..]) == Total([cut] + ps[1..]) by {
      assert ([cut.(eof := false)] + ps[1..])[1..] == ps[1..] == ([cut] + ps[1..])[1..];
    }
  }

  lemma MakeSpaceLoses(capacity: nat, buffered: nat, ps: seq<Piece>, size: u64, data: seq<byte>, begin: nat, bound: nat)
    requires Bounded(capacity, buffered, Total(ps), size, bound)
    ensures var space := MakeSpace(capacity, buffered, ps, size, data, begin);
            if space.Space? then Loses(capacity, buffered, ps, size, |data|, begin, bound, space)
            else !ShearsAt(capacity, buffered, ps, size, |data|, begin)
  {
    var spare := SpareRoom(capacity, size, buffered);
    SpareOfGap(capacity, buffered, Total(ps), size, bound);
    if ps != [] && spare < |data| && ps[0].index >= begin {
      if |ps[0].data| + spare > |data| {
        CutLoses(capacity, buffered, ps, size, data, begin, bound);
      } else {
        PopBounded(capacity, buffered, ps, size, bound);
        EvictLoses(capacity, buffered, ps[1..], (size - |ps[0].data|) % TWO_64, data, begin, bound);
      }
    }
  }

  // ------------------------------------------------------------------ draining

  // What is stored and buffered of a stream `s` is part of it.
  lemma {:induction false} StoredIsPart(ps: seq<Piece>, s: seq<byte>, low: nat, high: nat)
    requires Desc(ps, low, high) && AllWithin(s, ps) && low <= |s| && low <= high
    ensures Total(ps) <= Min(|s|, high) - low
  {
    if ps != [] {
      StoredIsPart(ps[1..], s, low, ps[0].index);
    }
  }

  lemma HeldIsPart(r: Reassembler, s: seq<byte>)
    requires Draining(r, s)
    ensures Total(r.pieces) + |r.out.Buffer()| <= |s|
  {
    if r.pieces != [] {
      StoredIsPart(r.pieces, s, r.out.Written(), r.pieces[0].End() + 1);
    }
  }

  // Draining moves bytes and leaves the count as right or wrong as it was.
  ghost predicate Moves(r: Reassembler, r': Reassembler)
    requires r.out.Valid() && r'.out.Valid()
  {
    && Total(r'.pieces) + |r'.out.Buffer()| == Total(r.pieces) + |r.out.Buffer()|
    && GapOf(r') == GapOf(r)
  }

  lemma DrainOneMoves(r: Reassembler)
    requires r.out.Valid() && Descending(r.pieces, r.out.Written()) && !Drained(r)
    ensures Descending(DrainOne(r).pieces, DrainOne(r).out.Written()) && Moves(r, DrainOne(r))
  {
    var key, room := r.out.Written(), r.out.Remaining();
    var p, rest := At(r.pieces, key), Without(r.pieces, key);
    DrainOneDesc(r);
    assert Total(r.pieces) == Total(rest) + |p.data| by {
      WithoutCounts(r.pieces, key);
    }
    GapPop(r.size, Total(r.pieces), Min(room, |p.data|));
    if room < |p.data| {
      var q := Piece(p.eof, p.data[room..], p.index + room);
      assert Total(Insert(rest, q)) == Total(rest) + |q.data| by {
        InsertCounts(rest, q);
      }
    }
  }

  lemma {:induction false} DrainMoves(r: Reassembler)
    requires r.out.Valid() && Descending(r.pieces, r.out.Written())
    ensures Moves(r, Drain(r))
    decreases |r.pieces|, r.out.Remaining()
  {
    if !Drained(r) {
      DrainOneMoves(r);
      DrainMoves(DrainOne(r));
    }
  }

  // ------------------------------------------------------------------- pushing

  // Bytes of `s`, stored with a count that may have fallen short.
  ghost predicate Tallied(r: Reassembler, s: seq<byte>) {
    && Faithful(r, s)
    && Bounded(r.out.capacity, |r.out.Buffer()|, Total(r.pieces), r.size, |s| + r.out.capacity)
  }

  lemma NoGap(size: u64, total: nat)
    requires total < TWO_64
    ensures Gap(size, total) == 0 <==> size == total
  {
  }

  lemma ExactIsTallied(r: Reassembler, s: seq<byte>)
    requires Faithful(r, s) && Exact(r) && |s| + 2 * r.out.capacity < TWO_64
    requires Total(r.pieces) + |r.out.Buffer()| <= r.out.capacity
    ensures Tallied(r, s) && GapOf(r) == 0
  {
    HeldIsPart(r, s);
    NoGap(r.size, Total(r.pieces));
  }

  ghost predicate Shears(r: Reassembler, d: seq<byte>, b: nat)
    requires r.out.Valid()
  {
    ShearsAt(r.out.capacity, |r.out.Buffer()|, r.pieces, r.size, |d|, b)
  }

  // What one step does to the count: what is missing from it stays missing, and
  // more goes missing exactly when `shears`.
  ghost predicate Tallies(r: Reassembler, r': Reassembler, s: seq<byte>, shears: bool) {
    Tallied(r', s) && GapOf(r) <= GapOf(r') && (GapOf(r) < GapOf(r') <==> shears)
  }

  // Storing into the room that was made keeps all bytes kept, and the count as it is.
  lemma StoreMoves(r: Reassembler, s: seq<byte>, d: seq<byte>, b: nat, e: bool, space: Space)
    requires Faithful(r, s) && r.out.Edge() > 0
    requires b >= r.out.Written() && Within(s, d, b) && Apart(r.pieces, b, b + |d|) && FreeKey(r.pieces, b)
    requires space == MakeSpace(r.out.capacity, |r.out.Buffer()|, r.pieces, r.size, d, b) && space.Space?
    ensures var r' := Store(r, d, b, e);
            && Total(r'.pieces) + |r'.out.Buffer()| == Total(space.pieces) + |space.data| + |r.out.Buffer()|
            && GapOf(r') == Gap(space.size, Total(space.pieces))
  {
    assert d == [] ==> space == Space(r.pieces, r.size, d);
    MakeSpaceTrims(r.out.capacity, |r.out.Buffer()|, r.pieces, r.size, d, b);
    PlacedMoves(r, s, space.pieces, space.size, Piece(e, space.data, b), b + |d|);
  }

  // Storing fresh bytes makes the count fall short of what is stored exactly when
  // making room for them cuts a piece while some room seems free.
  lemma StoreExactIff(r: Reassembler, s: seq<byte>, d: seq<byte>, b: nat, e: bool)
    requires Tallied(r, s) && r.out.Edge() > 0
    requires b >= r.out.Written() && Within(s, d, b) && Apart(r.pieces, b, b + |d|) && FreeKey(r.pieces, b)
    ensures Tallies(r, Store(r, d, b, e), s, Shears(r, d, b))
  {
    var capacity, buffered, bound := r.out.capacity, |r.out.Buffer()|, |s| + r.out.capacity;
    var r', space := Store(r, d, b, e), MakeSpace(capacity, buffered, r.pieces, r.size, d, b);
    MakeSpaceLoses(capacity, buffered, r.pieces, r.size, d, b, bound);
    if space.Space? {
      assert Faithful(r', s) && Total(r'.pieces) + |r'.out.Buffer()| <= |s| by {
        StoreFaithful(r, s, d, b, e);
        HeldIsPart(r', s);
      }
      StoreMoves(r, s, d, b, e, space);
    }
  }

  lemma PlacedMoves(r: Reassembler, s: seq<byte>, qs: seq<Piece>, size: u64, p: Piece, end: nat)
    requires Draining(r, s) && Trimmed(qs, r.pieces) && (p.index == end ==> qs == r.pieces)
    requires r.out.Written() <= p.index && p.End() <= end && Apart(r.pieces, p.index, end) && FreeKey(r.pieces, p.index)
    ensures var r' := Drain(Placed(r.out, qs, size, p));
            && Total(r'.pieces) + |r'.out.Buffer()| == Total(qs) + |p.data| + |r.out.Buffer()|
            && GapOf(r') == Gap(size, Total(qs))
  {
    var placed := Placed(r.out, qs, size, p);
    assert Descending(placed.pieces, r.out.Written()) && FreeKey(qs, p.index) by {
      PlacedDesc(r.pieces, qs, p, r.out.Written(), end);
      if p.index < end {
        ApartFreeKey(qs, p.index, end);
      }
    }
    assert Total(placed.pieces) == Total(qs) + |p.data| by {
      InsertCounts(qs, p);
    }
    GapGrowth(size, Total(qs), |p.data|);
    DrainMoves(placed);
  }

  lemma PlanFreeKey(r: Reassembler, s: seq<byte>, data: seq<byte>, index: nat, eof: bool)
    requires Faithful(r, s) && Proper(s, data, index, eof)
    ensures var o := Plan(r, data, index, eof); o.Fresh? ==> FreeKey(r.pieces, o.begin)
  {
    var o := Plan(r, data, index, eof);
    if o.Fresh? {
      PlanFaithful(r, s, data, index, eof);
      var t := Trim(r, data, index);
      DedupIsSound(r.pieces, t.0, t.1, eof);
      if o.data == [] {
        if r.pieces != [] {
          TailFreeKey(r.pieces, s, o.begin);
        }
      } else {
        ApartFreeKey(r.pieces, o.begin, o.begin + |o.data|);
      }
    }
  }

  // Some part of a push that is stored cuts a piece while some room seems free.
  ghost predicate ShearsPush(r: Reassembler, data: seq<byte>, index: nat, eof: bool)
    requires r.out.Valid()
    decreases |data|
  {
    match Plan(r, data, index, eof)
    case Duplicate => false
    case Fresh(d, b, e) => Shears(r, d, b)
    case Split(l, t) =>
      ShearsPush(r, l.data, l.index, l.eof) || ShearsPush(Push(r, l.data, l.index, l.eof), t.data, t.index, t.eof)
  }

  lemma {:induction false} PushTallies(r: Reassembler, s: seq<byte>, data: seq<byte>, index: nat, eof: bool)
    requires Tallied(r, s) && Proper(s, data, index, eof)
    ensures Tallies(r, Push(r, data, index, eof), s, ShearsPush(r, data, index, eof))
    decreases |data|
  {
    PlanFaithful(r, s, data, index, eof);
    match Plan(r, data, index, eof)
    case Duplicate =>
    case Fresh(d, b, e) =>
      PlanFreeKey(r, s, data, index, eof);
      StoreExactIff(r, s, d, b, e);
    case Split(l, t) =>
      PushTallies(r, s, l.data, l.index, l.eof);
      PushTallies(Push(r, l.data, l.index, l.eof), s, t.data, t.index, t.eof);
  }

  // A push keeps the count of unassembled bytes right exactly when none of its
  // parts cuts a piece while some room seems free.
  lemma PushExactIff(r: Reassembler, s: seq<byte>, data: seq<byte>, index: nat, eof: bool)
    requires Faithful(r, s) && Proper(s, data, index, eof) && |s| + 2 * r.out.capacity < TWO_64
    requires Exact(r) && Total(r.pieces) + |r.out.Buffer()| <= r.out.capacity
    ensures Exact(Push(r, data, index, eof)) <==> !ShearsPush(r, data, index, eof)
  {
    var r' := Push(r, data, index, eof);
    ExactIsTallied(r, s);
    assert GapOf(r') > 0 <==> ShearsPush(r, data, index, eof) by {
      PushTallies(r, s, data, index, eof);
    }
    assert Total(r'.pieces) <= |s| by {
      PushFaithful(r, s, data, index, eof);
      HeldIsPart(r', s);
    }
    NoGap(r'.size, Total(r'.pieces));
  }

  // ---------------------------------------------------------------- whole runs

  // Every arrival carries bytes of `s`, in or out of the window of its time.
  ghost predicate Genuine(s: seq<byte>, events: seq<Event>) {
    events != [] ==>
      && (events[0].Arrive? ==> Proper(s, events[0].data, events[0].index, events[0].eof))
      && Genuine(s, events[1..])
  }

  // Some arrival cuts a piece while some room seems free.
  ghost predicate EverShears(r: Reassembler, events: seq<Event>)
    requires r.out.Valid()
    decreases |events|
  {
    events != [] &&
    ((events[0].Arrive? && ShearsPush(r, events[0].data, events[0].index, events[0].eof))
     || EverShears(Step(r, events[0]), events[1..]))
  }

  lemma {:induction false} RunTallies(r: Reassembler, s: seq<byte>, events: seq<Event>)
    requires Tallied(r, s) && Genuine(s, events)
    ensures Tallies(r, Run(r, events), s, EverShears(r, events))
    decreases |events|
  {
    if events != [] {
      match events[0] {
        case Arrive(data, index, eof) => PushTallies(r, s, data, index, eof);
        case Take(n) => assert |r.out.Pop(n).Buffer()| <= |r.out.Buffer()|;
      }
      RunTallies(Step(r, events[0]), s, events[1..]);
    }
  }

  // Whatever arrives of a stream, in any order and however far beyond the window,
  // and whatever is read between: the count of unassembled bytes is right at the
  // end exactly when no arrival cut a piece while some room seemed free.  What is
  // stored and buffered exceeds the capacity by no more than the count is short.
  lemma RunExactIff(capacity: nat, s: seq<byte>, events: seq<Event>)
    requires Genuine(s, events) && |s| + 2 * capacity < TWO_64
    ensures var r0 := EmptyReassembler(capacity);
            var r := Run(r0, events);
            && (Exact(r) <==> !EverShears(r0, events))
            && Total(r.pieces) + |r.out.Buffer()| <= capacity + GapOf(r)
  {
    var r0 := EmptyReassembler(capacity);
    var r := Run(r0, events);
    ExactIsTallied(r0, s);
    RunTallies(r0, s, events);
    HeldIsPart(r, s);
    NoGap(r.size, Total(r.pieces));
  }

  // ------------------------------------------------------------------- example

  lemma OverrunsByTwo(a: byte)
    ensures Push(EmptyReassembler(5), [a, a, a], 4, false) == Reassembler(EmptyStream(5), [Piece(false, [a, a, a], 4)], 3)
  {
    var r0, d, p := EmptyReassembler(5), [a, a, a], Piece(false, [a, a, a], 4);
    assert Plan(r0, d, 4, false) == Fresh(d, 4, false);
    assert MakeSpace(5, 0, [], 0, d, 4) == Space([], 0, d);
    assert Placed(r0.out, [], 0, p) == Reassembler(r0.out, [p], 3);
    assert [p][1..] == [];
  }

  // Capacity 5: bytes at 4 that overrun the window, then three bytes at 1.  Two
  // bytes and three bytes are stored, but the count says three.
  lemma CountGoesWrong(a: byte)
    ensures var r := Push(Push(EmptyReassembler(5), [a, a, a], 4, false), [a, a, a], 1, false);
            r.pieces == [Piece(false, [a, a], 4), Piece(false, [a, a, a], 1)] && r.size == 3 && Total(r.pieces) == 5
  {
    OverrunsByTwo(a);
    var d := [a, a, a];
    var p, q, cut := Piece(false, d, 4), Piece(false, d, 1), Piece(false, [a, a], 4);
    var r1 := Reassembler(EmptyStream(5), [p], 3);
    assert [p][1..] == [] && d[..2] == [a, a];
    assert Compare(p, d, 1, false) == Fresh(d, 1, false);
    assert Dedup([p], d, 1, false) == Dedup([p][1..], d, 1, false) == Fresh(d, 1, false);
    assert MakeSpace(5, 0, [p], 3, d, 1) == Space([cut], 0, d);
    assert [cut][1..] == [] && [cut, q][1..] == [q] && [q][1..] == [];
    assert Insert([cut], q) == [cut, q];
    var r2 := Reassembler(r1.out, [cut, q], 3);
    assert Placed(r1.out, [cut], 0, q) == r2;
    assert !HasKey([q], 0) && !HasKey([cut, q], 0);
    assert Store(r1, d, 1, false) == Drain(r2) == r2;
    assert Push(r1, d, 1, false) == r2;
    assert Total([cut, q]) == 2 + Total([q]);
  }
}

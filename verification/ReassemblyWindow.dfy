/**
 Pushes that respect the window: the reassembler is exactly "the contiguous
 prefix of the set of bytes seen", its accounting is exact, and the end of the
 stream is recognised exactly.
 */
module ReassemblyWindow {
  import opened Numbers
  import opened ByteStreams
  import opened Reassembly
  import opened ReassemblyLaws

  // The reassembler has byte `j` of the stream.
  ghost predicate Known(r: Reassembler, j: nat) {
    j < r.out.Written() || Covered(r.pieces, j)
  }

  // Some piece carries the end mark.
  ghost predicate AnyEof(ps: seq<Piece>) {
    ps != [] && (ps[0].eof || AnyEof(ps[1..]))
  }

  // Pieces with the end mark end at `n`.
  ghost predicate EofAt(ps: seq<Piece>, n: nat) {
    ps != [] ==> (ps[0].eof ==> ps[0].End() == n) && EofAt(ps[1..], n)
  }

  // Storage inside the window and counted exactly.
  ghost predicate Counted(r: Reassembler, low: nat) {
    && r.out.Valid() && r.out.capacity < TWO_64
    && Desc(r.pieces, low, r.out.Edge()) && r.size == Total(r.pieces)
  }

  // An end mark is held, or has been acted on.
  ghost predicate Flagged(r: Reassembler) {
    r.out.ended || AnyEof(r.pieces)
  }

  // End marks are where the stream `s` ends.
  ghost predicate EofSound(r: Reassembler, s: seq<byte>) {
    (r.out.ended ==> r.out.bytes == s) && EofAt(r.pieces, |s|)
  }

  // Between pushes: nothing stored can go out yet.
  ghost predicate Settled(r: Reassembler, s: seq<byte>) {
    Counted(r, r.out.Written() + 1) && Faithful(r, s) && EofSound(r, s)
  }

  // While draining: the next byte of the output may still be stored.
  ghost predicate Settling(r: Reassembler, s: seq<byte>) {
    Counted(r, r.out.Written()) && Draining(r, s) && EofSound(r, s)
  }

  // ---------------------------------------------------- the map, in one window

  lemma {:induction false} TotalBound(ps: seq<Piece>, low: nat, high: nat)
    requires Desc(ps, low, high) && low <= high
    ensures Total(ps) <= high - low
  {
    if ps != [] {
      TotalBound(ps[1..], low, ps[0].index);
    }
  }

  // No bytes are stored under the key `index`.
  ghost predicate FreeKey(ps: seq<Piece>, index: nat) {
    HasKey(ps, index) ==> At(ps, index).data == []
  }

  lemma {:induction false} InsertCounts(ps: seq<Piece>, p: Piece)
    requires FreeKey(ps, p.index)
    ensures Total(Insert(ps, p)) == Total(ps) + |p.data|
    ensures forall j: nat :: Covered(Insert(ps, p), j) <==> Covered(ps, j) || p.index <= j < p.End()
  {
    if ps != [] {
      if ps[0].index > p.index {
        InsertCounts(ps[1..], p);
      } else if ps[0].index < p.index {
        assert ([p] + ps)[1..] == ps;
      }
    }
  }

  lemma {:induction false} InsertEof(ps: seq<Piece>, p: Piece, n: nat)
    requires HasKey(ps, p.index) && At(ps, p.index).eof ==> p.eof
    requires EofAt(ps, n) && (p.eof ==> p.End() == n)
    ensures AnyEof(Insert(ps, p)) <==> AnyEof(ps) || p.eof
    ensures EofAt(Insert(ps, p), n)
  {
    if ps != [] {
      if ps[0].index > p.index {
        InsertEof(ps[1..], p, n);
      } else if ps[0].index < p.index {
        assert ([p] + ps)[1..] == ps;
      }
    }
  }

  lemma {:induction false} WithoutCounts(ps: seq<Piece>, key: nat)
    requires HasKey(ps, key)
    ensures Total(ps) == Total(Without(ps, key)) + |At(ps, key).data|
    ensures forall j: nat :: Covered(ps, j) <==> Covered(Without(ps, key), j) || At(ps, key).index <= j < At(ps, key).End()
  {
    if ps[0].index != key {
      WithoutCounts(ps[1..], key);
    }
  }

  lemma {:induction false} WithoutEof(ps: seq<Piece>, key: nat, n: nat)
    requires HasKey(ps, key) && EofAt(ps, n)
    ensures AnyEof(ps) <==> AnyEof(Without(ps, key)) || At(ps, key).eof
    ensures EofAt(Without(ps, key), n) && (At(ps, key).eof ==> At(ps, key).End() == n)
  {
    if ps[0].index != key {
      WithoutEof(ps[1..], key, n);
    }
  }

  // ------------------------------------------------------------------- drain

  // Nothing is gained or lost and no end mark is forgotten.
  ghost predicate Same(r: Reassembler, r': Reassembler) {
    && (forall j: nat :: Known(r', j) <==> Known(r, j))
    && (Flagged(r') <==> Flagged(r))
  }

  lemma DrainOneSettling(r: Reassembler, s: seq<byte>)
    requires Settling(r, s) && !Drained(r)
    ensures Settling(DrainOne(r), s) && Same(r, DrainOne(r))
  {
    var key := r.out.Written();
    var p := At(r.pieces, key);
    WithoutDesc(r.pieces, key, r.out.Edge());
    WithoutCounts(r.pieces, key);
    WithoutEof(r.pieces, key, |s|);
    DrainOneFaithful(r, s);
    assert p.data[..|p.data|] == p.data;
  }

  lemma {:induction false} DrainSettles(r: Reassembler, s: seq<byte>)
    requires Settling(r, s) && r.out.Edge() > 0
    ensures Settled(Drain(r), s) && Same(r, Drain(r))
    decreases |r.pieces|, r.out.Remaining()
  {
    DrainFaithful(r, s);
    if Drained(r) {
      WithoutDesc(r.pieces, r.out.Written(), r.out.Edge());
    } else {
      DrainOneSettling(r, s);
      DrainSettles(DrainOne(r), s);
    }
  }

  // ------------------------------------------------------------------- store

  lemma ApartFreeKey(ps: seq<Piece>, begin: nat, end: nat)
    requires Apart(ps, begin, end) && begin < end
    ensures FreeKey(ps, begin)
  {
  }

  lemma TailFreeKey(ps: seq<Piece>, s: seq<byte>, index: nat)
    requires AllWithin(s, ps) && index >= |s|
    ensures FreeKey(ps, index)
  {
  }

  lemma ApartNotCovered(ps: seq<Piece>, begin: nat, end: nat, j: nat)
    requires Apart(ps, begin, end) && begin <= j < end
    ensures !Covered(ps, j)
  {
  }

  // `r'` knows `n` more bytes from `index` on, and the end mark if `mark`.
  ghost predicate Gains(r: Reassembler, r': Reassembler, index: nat, n: nat, mark: bool) {
    && (forall j: nat :: Known(r', j) <==> Known(r, j) || index <= j < index + n)
    && (Flagged(r') <==> Flagged(r) || mark)
  }

  // Bytes of `s` that nothing held overlaps, inside the window.
  ghost predicate Storable(r: Reassembler, s: seq<byte>, d: seq<byte>, b: nat, e: bool) {
    && r.out.Written() <= b < r.out.Edge() && b + |d| <= r.out.Edge()
    && Within(s, d, b) && (e ==> b + |d| == |s|)
    && Apart(r.pieces, b, b + |d|) && FreeKey(r.pieces, b)
    && (d == [] ==> e || r.pieces == [])
  }

  lemma PlacedSettling(r: Reassembler, s: seq<byte>, p: Piece)
    requires Settled(r, s) && Storable(r, s, p.data, p.index, p.eof)
    ensures Draining(Placed(r.out, r.pieces, r.size, p), s)
    ensures EofAt(Insert(r.pieces, p), |s|) && (AnyEof(Insert(r.pieces, p)) <==> AnyEof(r.pieces) || p.eof)
  {
    TrimmedSelf(r.pieces);
    PlacedFaithful(r, s, r.pieces, r.size, p, p.End());
    if HasKey(r.pieces, p.index) {
      WithoutEof(r.pieces, p.index, |s|);
      KeyOfAt(r.pieces, p.index);
    }
    InsertEof(r.pieces, p, |s|);
  }

  lemma SpareIsRest(capacity: nat, size: u64, buffered: nat)
    requires size + buffered <= capacity < TWO_64
    ensures SpareRoom(capacity, size, buffered) == capacity - size - buffered
  {
  }

  // There is always room, so nothing is evicted.
  lemma RoomInWindow(r: Reassembler, s: seq<byte>, p: Piece)
    requires Settled(r, s) && Storable(r, s, p.data, p.index, p.eof)
    ensures |p.data| <= r.EmptySize() && r.size + |p.data| < TWO_64
    ensures Counted(Placed(r.out, r.pieces, r.size, p), r.out.Written())
  {
    var low, edge := r.out.Written(), r.out.Edge();
    assert Desc(Insert(r.pieces, p), low, edge) by {
      DescLower(r.pieces, low + 1, low, edge);
      InsertDesc(r.pieces, p, low, edge);
    }
    assert Total(Insert(r.pieces, p)) == r.size + |p.data| by {
      InsertCounts(r.pieces, p);
    }
    TotalBound(Insert(r.pieces, p), low, edge);
    SpareIsRest(r.out.capacity, r.size, |r.out.Buffer()|);
  }

  lemma KeyOfAt(ps: seq<Piece>, key: nat)
    requires HasKey(ps, key)
    ensures At(ps, key).index == key
  {
  }

  lemma StoreSettles(r: Reassembler, s: seq<byte>, d: seq<byte>, b: nat, e: bool)
    requires Settled(r, s) && Storable(r, s, d, b, e)
    ensures Settled(Store(r, d, b, e), s) && Gains(r, Store(r, d, b, e), b, |d|, e)
  {
    var p := Piece(e, d, b);
    RoomInWindow(r, s, p);
    PlacedSettling(r, s, p);
    InsertCounts(r.pieces, p);
    DrainSettles(Placed(r.out, r.pieces, r.size, p), s);
  }

  // -------------------------------------------------------------------- push

  // A push of bytes of `s` that ends inside the window.
  ghost predicate Windowed(r: Reassembler, s: seq<byte>, data: seq<byte>, index: nat, eof: bool) {
    && Within(s, data, index) && (eof ==> index + |data| == |s|)
    && index < r.out.Edge() && index + |data| <= r.out.Edge()
  }

  // A push inside the window, or one that starts beyond it and is ignored.
  ghost predicate InOrBeyond(r: Reassembler, s: seq<byte>, data: seq<byte>, index: nat, eof: bool) {
    index >= r.out.Edge() || Windowed(r, s, data, index, eof)
  }

  // The last byte of the push is new, or there is none.
  ghost predicate NewTail(r: Reassembler, data: seq<byte>, index: nat) {
    data == [] || !Known(r, index + |data| - 1)
  }

  lemma PlanSettles(r: Reassembler, s: seq<byte>, data: seq<byte>, index: nat, eof: bool)
    requires Settled(r, s) && Windowed(r, s, data, index, eof)
    ensures match Plan(r, data, index, eof)
            case Duplicate =>
              && (forall j | index <= j < index + |data| :: Known(r, j))
              && (eof ==> data != [])
            case Fresh(d, b, e) =>
              && Storable(r, s, d, b, e) && index <= b && b + |d| <= index + |data|
              && (forall j | index <= j < index + |data| && !(b <= j < b + |d|) :: Known(r, j))
              && e == (eof && NewTail(r, data, index))
            case Split(l, t) =>
              && index <= l.index && l.End() <= t.index && t.End() <= index + |data|
              && Windowed(r, s, l.data, l.index, l.eof) && Windowed(r, s, t.data, t.index, t.eof)
              && l.data != [] && t.data != [] && !l.eof && t.eof == (eof && t.End() == index + |data|)
              && (forall j | index <= j < index + |data| && !(l.index <= j < l.End()) && !(t.index <= j < t.End()) :: Known(r, j))
  {
    var o := Plan(r, data, index, eof);
    if index < r.out.Written() && r.out.Written() - index >= |data| {
      return;
    }
    PlanFaithful(r, s, data, index, eof);
    var (data', begin) := Trim(r, data, index);
    DedupIsSound(r.pieces, data', begin, eof);
    if o.Fresh? {
      if o.data == [] {
        if o.eof {
          TailFreeKey(r.pieces, s, o.begin);
        }
      } else {
        ApartFreeKey(r.pieces, o.begin, o.begin + |o.data|);
        ApartNotCovered(r.pieces, o.begin, o.begin + |o.data|, o.begin + |o.data| - 1);
      }
    }
  }

  // Both halves of a split, one after the other, gain what the whole gains.
  lemma SplitGains(r: Reassembler, r1: Reassembler, r2: Reassembler, data: seq<byte>, index: nat, eof: bool, l: Piece, t: Piece)
    requires index <= l.index && l.End() <= t.index && t.End() <= index + |data| && t.data != []
    requires t.eof == (eof && t.End() == index + |data|)
    requires forall j | index <= j < index + |data| && !(l.index <= j < l.End()) && !(t.index <= j < t.End()) :: Known(r, j)
    requires Gains(r, r1, l.index, |l.data|, false)
    requires Gains(r1, r2, t.index, |t.data|, t.eof && NewTail(r1, t.data, t.index))
    ensures Gains(r, r2, index, |data|, eof && NewTail(r, data, index))
  {
    assert Known(r1, t.End() - 1) <==> Known(r, t.End() - 1);
    if t.End() < index + |data| {
      assert Known(r, index + |data| - 1);
    }
  }

  // One push inside the window adds exactly its bytes to what is known, writes
  // out exactly the known prefix, and records the end mark exactly when its
  // last byte is new.
  lemma {:induction false} PushSettles(r: Reassembler, s: seq<byte>, data: seq<byte>, index: nat, eof: bool)
    requires Settled(r, s) && Windowed(r, s, data, index, eof)
    ensures Settled(Push(r, data, index, eof), s)
    ensures Gains(r, Push(r, data, index, eof), index, |data|, eof && NewTail(r, data, index))
    decreases |data|
  {
    PlanSettles(r, s, data, index, eof);
    match Plan(r, data, index, eof)
    case Duplicate =>
    case Fresh(d, b, e) =>
      StoreSettles(r, s, d, b, e);
    case Split(l, t) =>
      var r1 := Push(r, l.data, l.index, l.eof);
      PushSettles(r, s, l.data, l.index, l.eof);
      PushSettles(r1, s, t.data, t.index, t.eof);
      SplitGains(r, r1, Push(r1, t.data, t.index, t.eof), data, index, eof, l, t);
  }

  // Storing what a push brings would make the reassembler evict something.
  ghost predicate Evicts(r: Reassembler, data: seq<byte>, index: nat, eof: bool)
    requires r.out.Valid()
    decreases |data|
  {
    match Plan(r, data, index, eof)
    case Duplicate => false
    case Fresh(d, b, e) => |d| > r.EmptySize()
    case Split(l, t) => Evicts(r, l.data, l.index, l.eof) || Evicts(Push(r, l.data, l.index, l.eof), t.data, t.index, t.eof)
  }

  lemma {:induction false} WindowedNeverEvicts(r: Reassembler, s: seq<byte>, data: seq<byte>, index: nat, eof: bool)
    requires Settled(r, s) && Windowed(r, s, data, index, eof)
    ensures !Evicts(r, data, index, eof)
    decreases |data|
  {
    PlanSettles(r, s, data, index, eof);
    match Plan(r, data, index, eof)
    case Duplicate =>
    case Fresh(d, b, e) => RoomInWindow(r, s, Piece(e, d, b));
    case Split(l, t) =>
      PushSettles(r, s, l.data, l.index, l.eof);
      WindowedNeverEvicts(r, s, l.data, l.index, l.eof);
      WindowedNeverEvicts(Push(r, l.data, l.index, l.eof), s, t.data, t.index, t.eof);
  }
}

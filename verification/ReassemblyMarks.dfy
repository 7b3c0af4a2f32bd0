/**
 Pushes that overrun the window and the end of the stream: when the end mark
 moves off the last byte, so that the input ends early.
 */
module ReassemblyMarks {
  import opened Numbers
  import opened ByteStreams
  import opened Reassembly
  import opened ReassemblyLaws
  import opened ReassemblyWindow

  // ------------------------------------------------------------------ the marks

  // Every piece that carries the end mark and some bytes starts at `limit` or above.
  ghost predicate MarksFrom(ps: seq<Piece>, limit: nat) {
    ps != [] ==> (ps[0].eof && ps[0].data != [] ==> limit <= ps[0].index) && MarksFrom(ps[1..], limit)
  }

  lemma {:induction false} MarksFromLess(ps: seq<Piece>, limit: nat, limit': nat)
    requires MarksFrom(ps, limit) && limit' <= limit
    ensures MarksFrom(ps, limit')
  {
    if ps != [] {
      MarksFromLess(ps[1..], limit, limit');
    }
  }

  lemma {:induction false} MarksFromZero(ps: seq<Piece>)
    ensures MarksFrom(ps, 0)
  {
    if ps != [] {
      MarksFromZero(ps[1..]);
    }
  }

  // Below the last byte nothing is marked.
  lemma {:induction false} LowUnmarked(ps: seq<Piece>, low: nat, high: nat, n: nat)
    requires Desc(ps, low, high) && high < n && EofAt(ps, n)
    ensures !AnyEof(ps) && MarksFrom(ps, n)
  {
    if ps != [] {
      LowUnmarked(ps[1..], low, ps[0].index, n);
    }
  }

  lemma {:induction false} InsertSound(ps: seq<Piece>, p: Piece, n: nat)
    requires EofAt(ps, n) && (p.eof ==> p.End() == n)
    ensures EofAt(Insert(ps, p), n)
  {
    if ps != [] {
      if ps[0].index > p.index {
        InsertSound(ps[1..], p, n);
      } else if ps[0].index < p.index {
        assert ([p] + ps)[1..] == ps;
      }
    }
  }

  lemma {:induction false} InsertMarks(ps: seq<Piece>, p: Piece, limit: nat)
    requires MarksFrom(ps, limit) && (p.eof && p.data != [] ==> limit <= p.index)
    ensures MarksFrom(Insert(ps, p), limit)
  {
    if ps != [] {
      if ps[0].index > p.index {
        InsertMarks(ps[1..], p, limit);
      } else if ps[0].index < p.index {
        assert ([p] + ps)[1..] == ps;
      }
    }
  }

  lemma {:induction false} WithoutMarks(ps: seq<Piece>, key: nat, limit: nat)
    requires MarksFrom(ps, limit) && HasKey(ps, key)
    ensures MarksFrom(Without(ps, key), limit)
    ensures At(ps, key).eof && At(ps, key).data != [] ==> limit <= key
  {
    if ps[0].index != key {
      WithoutMarks(ps[1..], key, limit);
    }
  }

  // The end mark is where it belongs.
  ghost predicate Sound(r: Reassembler, s: seq<byte>, limit: nat) {
    EofSound(r, s) && MarksFrom(r.pieces, limit)
  }

  // The end mark has moved: the highest piece carries it and ends too early, or
  // the output has ended too early.  What it has moved to lies above `limit`.
  ghost predicate Strays(r: Reassembler, s: seq<byte>, limit: nat) {
    if r.pieces == [] then r.out.ended && limit <= r.out.Written() < |s|
    else
      && !r.out.ended && r.pieces[0].eof && limit <= r.pieces[0].index && r.pieces[0].End() < |s|
      && EofAt(r.pieces[1..], |s|)
  }

  // ------------------------------------------------------------------ draining

  lemma DrainOneSound(r: Reassembler, s: seq<byte>, limit: nat)
    requires Draining(r, s) && Sound(r, s, limit) && !Drained(r)
    ensures Sound(DrainOne(r), s, limit)
  {
    var key, room := r.out.Written(), r.out.Remaining();
    var p, rest := At(r.pieces, key), Without(r.pieces, key);
    DrainOneDesc(r);
    DrainOneFaithful(r, s);
    WithoutEof(r.pieces, key, |s|);
    WithoutMarks(r.pieces, key, limit);
    if room < |p.data| {
      var q := Piece(p.eof, p.data[room..], p.index + room);
      WithoutWithin(r.pieces, key, s);
      InsertSound(rest, q, |s|);
      InsertMarks(rest, q, limit);
    }
  }

  lemma DrainOneStraysLast(r: Reassembler, s: seq<byte>, limit: nat)
    requires Draining(r, s) && Strays(r, s, limit) && !Drained(r) && r.pieces[0].index == r.out.Written()
    ensures Strays(DrainOne(r), s, limit)
  {
    var m, room := r.pieces[0], r.out.Remaining();
    assert Desc(r.pieces[1..], r.out.Written(), m.index);
    assert r.pieces[1..] == [];
    DrainOneDesc(r);
    if room < |m.data| {
      var q := Piece(m.eof, m.data[room..], m.index + room);
      assert Insert([], q) == [q];
    }
  }

  lemma DrainOneStraysLow(r: Reassembler, s: seq<byte>, limit: nat)
    requires Draining(r, s) && Strays(r, s, limit) && !Drained(r) && r.pieces[0].index != r.out.Written()
    ensures Strays(DrainOne(r), s, limit)
  {
    var key, room := r.out.Written(), r.out.Remaining();
    var m, tail := r.pieces[0], r.pieces[1..];
    var p, rest := At(tail, key), Without(tail, key);
    assert At(r.pieces, key) == p && Without(r.pieces, key) == [m] + rest;
    assert ([m] + rest)[1..] == rest;
    WithoutDesc(tail, key, m.index);
    WithoutEof(tail, key, |s|);
    if room < |p.data| {
      var q := Piece(p.eof, p.data[room..], p.index + room);
      assert Insert([m] + rest, q) == [m] + Insert(rest, q);
      InsertSound(rest, q, |s|);
      assert ([m] + Insert(rest, q))[1..] == Insert(rest, q);
    }
  }

  lemma {:induction false} DrainMarks(r: Reassembler, s: seq<byte>, limit: nat, strays: bool)
    requires Draining(r, s) && if strays then Strays(r, s, limit) else Sound(r, s, limit)
    ensures if strays then Strays(Drain(r), s, limit) else Sound(Drain(r), s, limit)
    decreases |r.pieces|, r.out.Remaining()
  {
    if !Drained(r) {
      DrainOneFaithful(r, s);
      if !strays {
        DrainOneSound(r, s, limit);
      } else if r.pieces[0].index == r.out.Written() {
        DrainOneStraysLast(r, s, limit);
      } else {
        DrainOneStraysLow(r, s, limit);
      }
      DrainMarks(DrainOne(r), s, limit, strays);
    }
  }

  // --------------------------------------------------------------- making room

  // The loop that pops the highest pieces until `need` bytes fit ends with the
  // highest piece cut and still carrying the end mark.  `cut` says that the
  // highest piece has been cut already.
  ghost predicate CutsMark(capacity: nat, buffered: nat, ps: seq<Piece>, size: u64, need: nat, begin: nat, cut: bool)
    decreases Total(ps) + |ps|
  {
    var spare := SpareRoom(capacity, size, buffered);
    if spare >= need then cut && ps != [] && ps[0].eof
    else if ps == [] || ps[0].index < begin then false
    else if |ps[0].data| + spare > need then
      CutsMark(capacity, buffered, [Shear(ps[0], spare, need)] + ps[1..], (size - need) % TWO_64, need, begin, true)
    else
      CutsMark(capacity, buffered, ps[1..], (size - |ps[0].data|) % TWO_64, need, begin, false)
  }

  // The highest piece carries the end mark, has bytes and ends before `n`.
  ghost predicate Misplaced(ps: seq<Piece>, n: nat, begin: nat, limit: nat) {
    && ps != [] && ps[0].eof && ps[0].data != [] && ps[0].End() < n && begin <= ps[0].index && limit <= ps[0].index
    && EofAt(ps[1..], n)
  }

  // The marks of `ps` once its highest piece may have been cut.
  ghost predicate Cutting(ps: seq<Piece>, n: nat, begin: nat, limit: nat, cut: bool) {
    && MarksFrom(ps, limit)
    && if !cut then EofAt(ps, n)
       else ps != [] && ps[0].data != [] && begin <= ps[0].index && (ps[0].eof ==> ps[0].End() < n) && EofAt(ps[1..], n)
  }

  lemma ShearCutting(ps: seq<Piece>, n: nat, begin: nat, limit: nat, cut: bool, spare: nat, need: nat)
    requires Cutting(ps, n, begin, limit, cut) && ps != [] && begin <= ps[0].index && spare < need < |ps[0].data| + spare
    ensures Cutting([Shear(ps[0], spare, need)] + ps[1..], n, begin, limit, true)
  {
    assert ([Shear(ps[0], spare, need)] + ps[1..])[1..] == ps[1..];
  }

  lemma {:induction false} EvictMarks(capacity: nat, buffered: nat, ps: seq<Piece>, size: u64, data: seq<byte>, begin: nat,
                                      n: nat, limit: nat, cut: bool)
    requires Cutting(ps, n, begin, limit, cut)
    ensures var space := Evict(capacity, buffered, ps, size, data, begin);
            if CutsMark(capacity, buffered, ps, size, |data|, begin, cut)
            then Misplaced(space.pieces, n, begin, limit) && space.data == data
            else EofAt(space.pieces, n) && MarksFrom(space.pieces, limit)
    decreases Total(ps) + |ps|
  {
    var spare := SpareRoom(capacity, size, buffered);
    if spare < |data| && ps != [] && ps[0].index >= begin {
      if |ps[0].data| + spare > |data| {
        ShearCutting(ps, n, begin, limit, cut, spare, |data|);
        EvictMarks(capacity, buffered, [Shear(ps[0], spare, |data|)] + ps[1..], (size - |data|) % TWO_64, data, begin, n, limit, true);
      } else {
        EvictMarks(capacity, buffered, ps[1..], (size - |ps[0].data|) % TWO_64, data, begin, n, limit, false);
      }
    }
  }

  // Storing these bytes moves the end mark: they do not fit, the highest piece is
  // not below them, and either they carry the mark themselves, or the piece that
  // carries it is cut to make room for them after another has been dropped.
  ghost predicate MovesMark(r: Reassembler, d: seq<byte>, b: nat, e: bool)
    requires r.out.Valid()
  {
    var ps, spare := r.pieces, r.EmptySize();
    && |d| > spare && (ps == [] || ps[0].index >= b)
    && (e || (ps != [] && |ps[0].data| + spare <= |d|
              && CutsMark(r.out.capacity, |r.out.Buffer()|, ps[1..], (r.size - |ps[0].data|) % TWO_64, |d|, b, false)))
  }

  lemma MakeSpaceMarks(r: Reassembler, s: seq<byte>, d: seq<byte>, b: nat, limit: nat)
    requires r.out.Valid() && Sound(r, s, limit)
    ensures var space := MakeSpace(r.out.capacity, |r.out.Buffer()|, r.pieces, r.size, d, b);
            if MovesMark(r, d, b, false)
            then space.Space? && Misplaced(space.pieces, |s|, b, limit) && space.data == d
            else space.Space? ==> EofAt(space.pieces, |s|) && MarksFrom(space.pieces, limit)
  {
    var ps, spare := r.pieces, r.EmptySize();
    if spare < |d| && ps != [] && ps[0].index >= b {
      if |ps[0].data| + spare > |d| {
        var cut := Shear(ps[0], spare, |d|).(eof := false);
        assert ([cut] + ps[1..])[1..] == ps[1..];
      } else {
        EvictMarks(r.out.capacity, |r.out.Buffer()|, ps[1..], (r.size - |ps[0].data|) % TWO_64, d, b, |s|, limit, false);
      }
    }
  }

  // ------------------------------------------------------------------- storing

  // New bytes of `s`, with its end mark only if they are its last.
  ghost predicate NewBytes(r: Reassembler, s: seq<byte>, d: seq<byte>, b: nat, e: bool) {
    && Faithful(r, s) && Within(s, d, b) && (e ==> b + |d| == |s|)
    && r.out.Written() <= b && Apart(r.pieces, b, b + |d|)
  }

  // What the marks are before draining decides what they are after it.
  lemma PlacedMarks(r: Reassembler, s: seq<byte>, qs: seq<Piece>, size: u64, p: Piece, end: nat, limit: nat, strays: bool)
    requires Draining(r, s) && Trimmed(qs, r.pieces) && p.index >= r.out.Written() && Within(s, p.data, p.index)
    requires p.End() <= end && Apart(r.pieces, p.index, end)
    requires var placed := Placed(r.out, qs, size, p); if strays then Strays(placed, s, limit) else Sound(placed, s, limit)
    ensures var r' := Drain(Placed(r.out, qs, size, p)); if strays then Strays(r', s, limit) else Sound(r', s, limit)
  {
    PlacedFaithful(r, s, qs, size, p, end);
    DrainMarks(Placed(r.out, qs, size, p), s, limit, strays);
  }

  lemma StoreFits(r: Reassembler, s: seq<byte>, d: seq<byte>, b: nat, limit: nat)
    requires NewBytes(r, s, d, b, true) && Sound(r, s, limit) && limit == 0 && |d| <= r.EmptySize()
    ensures Sound(Store(r, d, b, true), s, limit)
  {
    var p := Piece(true, d, b);
    TrimmedSelf(r.pieces);
    InsertSound(r.pieces, p, |s|);
    InsertMarks(r.pieces, p, limit);
    PlacedMarks(r, s, r.pieces, r.size, p, b + |d|, limit, false);
  }

  lemma StoreMoves(r: Reassembler, s: seq<byte>, d: seq<byte>, b: nat, limit: nat)
    requires NewBytes(r, s, d, b, false) && Sound(r, s, limit) && MovesMark(r, d, b, false)
    ensures Strays(Store(r, d, b, false), s, limit)
  {
    var space := MakeSpace(r.out.capacity, |r.out.Buffer()|, r.pieces, r.size, d, b);
    MakeSpaceMarks(r, s, d, b, limit);
    MakeSpaceTrims(r.out.capacity, |r.out.Buffer()|, r.pieces, r.size, d, b);
    var qs, p := space.pieces, Piece(false, d, b);
    TrimmedApart(qs, r.pieces, b, b + |d|);
    PutBelow(qs, p, |s|);
    PlacedMarks(r, s, qs, space.size, p, b + |d|, limit, true);
  }

  lemma PutBelow(qs: seq<Piece>, p: Piece, n: nat)
    requires qs != [] && p.index < qs[0].index && !p.eof && EofAt(qs[1..], n)
    ensures var ps := Insert(qs, p); ps != [] && ps[0] == qs[0] && EofAt(ps[1..], n)
  {
    InsertSound(qs[1..], p, n);
    assert Insert(qs, p)[1..] == Insert(qs[1..], p);
  }

  // Room made without misplacing the mark keeps it in place.
  lemma SettleSpace(r: Reassembler, s: seq<byte>, d: seq<byte>, b: nat, limit: nat, space: Space)
    requires NewBytes(r, s, d, b, false) && (r.out.ended ==> r.out.bytes == s)
    requires space == MakeSpace(r.out.capacity, |r.out.Buffer()|, r.pieces, r.size, d, b) && space.Space?
    requires EofAt(space.pieces, |s|) && MarksFrom(space.pieces, limit)
    ensures Sound(Store(r, d, b, false), s, limit)
  {
    MakeSpaceTrims(r.out.capacity, |r.out.Buffer()|, r.pieces, r.size, d, b);
    SettleKept(r, s, d, b, limit, space.pieces, space.size, space.data);
  }

  lemma SettleKept(r: Reassembler, s: seq<byte>, d: seq<byte>, b: nat, limit: nat, qs: seq<Piece>, size: u64, kept: seq<byte>)
    requires NewBytes(r, s, d, b, false) && (r.out.ended ==> r.out.bytes == s)
    requires Trimmed(qs, r.pieces) && kept <= d && EofAt(qs, |s|) && MarksFrom(qs, limit)
    ensures Sound(Drain(Placed(r.out, qs, size, Piece(false, kept, b))), s, limit)
  {
    var p := Piece(false, kept, b);
    assert Within(s, kept, b) by {
      WithinHalves(s, d, b, |kept|);
    }
    InsertSound(qs, p, |s|);
    InsertMarks(qs, p, limit);
    PlacedMarks(r, s, qs, size, p, b + |d|, limit, false);
  }

  lemma StoreKeeps(r: Reassembler, s: seq<byte>, d: seq<byte>, b: nat, limit: nat)
    requires NewBytes(r, s, d, b, false) && Sound(r, s, limit) && !MovesMark(r, d, b, false)
    ensures Sound(Store(r, d, b, false), s, limit)
  {
    var space := MakeSpace(r.out.capacity, |r.out.Buffer()|, r.pieces, r.size, d, b);
    MakeSpaceMarks(r, s, d, b, limit);
    if space.Space? {
      SettleSpace(r, s, d, b, limit, space);
    }
  }

  // Nothing but empty pieces from `begin` on.
  ghost predicate BareFrom(ps: seq<Piece>, begin: nat) {
    ps != [] ==> (ps[0].index >= begin ==> ps[0].data == []) && BareFrom(ps[1..], begin)
  }

  lemma {:induction false} TailIsBare(ps: seq<Piece>, s: seq<byte>, begin: nat)
    requires AllWithin(s, ps) && Apart(ps, begin, |s|) && begin < |s|
    ensures BareFrom(ps, begin)
  {
    if ps != [] {
      TailIsBare(ps[1..], s, begin);
    }
  }

  // Dropping empty pieces makes no room, so the new bytes are cut to what fits.
  lemma {:induction false} EvictTruncates(capacity: nat, buffered: nat, ps: seq<Piece>, size: u64, data: seq<byte>, begin: nat)
    requires BareFrom(ps, begin) && SpareRoom(capacity, size, buffered) < |data|
    ensures var space := Evict(capacity, buffered, ps, size, data, begin);
            && space.data == data[..SpareRoom(capacity, size, buffered)]
            && (space.pieces == [] || space.pieces[0].index < begin)
    decreases |ps|
  {
    if ps != [] && ps[0].index >= begin {
      assert (size - |ps[0].data|) % TWO_64 == size;
      EvictTruncates(capacity, buffered, ps[1..], size, data, begin);
    }
  }

  lemma LastSpace(r: Reassembler, s: seq<byte>, d: seq<byte>, b: nat)
    requires NewBytes(r, s, d, b, true) && EofSound(r, s) && MovesMark(r, d, b, true)
    ensures var space := MakeSpace(r.out.capacity, |r.out.Buffer()|, r.pieces, r.size, d, b);
            && space.Space? && space.data == d[..r.EmptySize()] && EofAt(space.pieces, |s|)
            && (space.pieces == [] || space.pieces[0].index < b)
  {
    var ps := r.pieces;
    TailIsBare(ps, s, b);
    if ps != [] {
      assert (r.size - |ps[0].data|) % TWO_64 == r.size;
      MarksFromZero(ps[1..]);
      EvictMarks(r.out.capacity, |r.out.Buffer()|, ps[1..], r.size, d, b, |s|, 0, false);
      EvictTruncates(r.out.capacity, |r.out.Buffer()|, ps[1..], r.size, d, b);
    }
  }

  lemma StoreLast(r: Reassembler, s: seq<byte>, d: seq<byte>, b: nat)
    requires NewBytes(r, s, d, b, true) && EofSound(r, s) && MovesMark(r, d, b, true)
    ensures Strays(Store(r, d, b, true), s, 0)
  {
    var space := MakeSpace(r.out.capacity, |r.out.Buffer()|, r.pieces, r.size, d, b);
    LastSpace(r, s, d, b);
    MakeSpaceTrims(r.out.capacity, |r.out.Buffer()|, r.pieces, r.size, d, b);
    var qs, p := space.pieces, Piece(true, space.data, b);
    assert Insert(qs, p) == [p] + qs && ([p] + qs)[1..] == qs;
    WithinHalves(s, d, b, |space.data|);
    PlacedMarks(r, s, qs, space.size, p, b + |d|, 0, true);
  }

  // Storing new bytes moves the end mark off the last byte exactly when `MovesMark`.
  lemma StoreMarksIff(r: Reassembler, s: seq<byte>, d: seq<byte>, b: nat, e: bool, limit: nat)
    requires NewBytes(r, s, d, b, e) && Sound(r, s, limit) && (e ==> limit == 0)
    ensures if MovesMark(r, d, b, e) then Strays(Store(r, d, b, e), s, limit) else Sound(Store(r, d, b, e), s, limit)
  {
    if e {
      if |d| <= r.EmptySize() {
        StoreFits(r, s, d, b, limit);
      } else if MovesMark(r, d, b, e) {
        StoreLast(r, s, d, b);
      }
    } else if MovesMark(r, d, b, e) {
      StoreMoves(r, s, d, b, limit);
    } else {
      StoreKeeps(r, s, d, b, limit);
    }
  }

  // The last bytes with their end mark: the mark stays where the stream ends
  // exactly when they fit, or when they are dropped whole because a piece below
  // them is the highest.  Otherwise they are cut and the mark moves down.
  lemma EofSoundIff(r: Reassembler, s: seq<byte>, d: seq<byte>, b: nat)
    requires NewBytes(r, s, d, b, true) && EofSound(r, s)
    ensures EofSound(Store(r, d, b, true), s) <==>
              |d| <= r.EmptySize() || (r.pieces != [] && r.pieces[0].index < b)
  {
    MarksFromZero(r.pieces);
    StoreMarksIff(r, s, d, b, true, 0);
  }

  // New bytes below a mark that has moved bring it back exactly when they do not
  // fit: the piece that carries it loses the mark or is dropped.
  lemma StrayStoreIff(r: Reassembler, s: seq<byte>, d: seq<byte>, b: nat, limit: nat)
    requires NewBytes(r, s, d, b, false) && Strays(r, s, limit) && d != [] && b + |d| <= limit
    ensures if |d| <= r.EmptySize() then Strays(Store(r, d, b, false), s, limit) else Sound(Store(r, d, b, false), s, limit)
  {
    var ps := r.pieces;
    if |d| <= r.EmptySize() {
      TrimmedSelf(ps);
      PutBelow(ps, Piece(false, d, b), |s|);
      PlacedMarks(r, s, ps, r.size, Piece(false, d, b), b + |d|, limit, true);
    } else {
      MendSpace(r, s, d, b, limit);
      SettleSpace(r, s, d, b, limit, MakeSpace(r.out.capacity, |r.out.Buffer()|, ps, r.size, d, b));
    }
  }

  lemma MendSpace(r: Reassembler, s: seq<byte>, d: seq<byte>, b: nat, limit: nat)
    requires NewBytes(r, s, d, b, false) && Strays(r, s, limit) && b + |d| <= limit && |d| > r.EmptySize()
    ensures var space := MakeSpace(r.out.capacity, |r.out.Buffer()|, r.pieces, r.size, d, b);
            space.Space? && EofAt(space.pieces, |s|) && MarksFrom(space.pieces, limit)
  {
    LowUnmarked(r.pieces[1..], r.out.Written(), r.pieces[0].index, |s|);
    MendRoom(r.out.capacity, |r.out.Buffer()|, r.pieces, r.size, d, b, |s|);
    MarksFromLess(MakeSpace(r.out.capacity, |r.out.Buffer()|, r.pieces, r.size, d, b).pieces, |s|, limit);
  }

  lemma MendRoom(capacity: nat, buffered: nat, ps: seq<Piece>, size: u64, data: seq<byte>, begin: nat, n: nat)
    requires ps != [] && ps[0].index >= begin && EofAt(ps[1..], n) && MarksFrom(ps[1..], n)
    requires SpareRoom(capacity, size, buffered) < |data|
    ensures var space := MakeSpace(capacity, buffered, ps, size, data, begin);
            space.Space? && EofAt(space.pieces, n) && MarksFrom(space.pieces, n)
  {
    var spare := SpareRoom(capacity, size, buffered);
    if |ps[0].data| + spare > |data| {
      CutMend(ps, spare, |data|, n);
    } else {
      DropMend(capacity, buffered, ps[1..], (size - |ps[0].data|) % TWO_64, data, begin, n);
    }
  }

  lemma CutMend(ps: seq<Piece>, spare: nat, need: nat, n: nat)
    requires ps != [] && spare < need < |ps[0].data| + spare && EofAt(ps[1..], n) && MarksFrom(ps[1..], n)
    ensures var qs := [Shear(ps[0], spare, need).(eof := false)] + ps[1..]; EofAt(qs, n) && MarksFrom(qs, n)
  {
    var qs := [Shear(ps[0], spare, need).(eof := false)] + ps[1..];
    assert qs[1..] == ps[1..];
  }

  lemma DropMend(capacity: nat, buffered: nat, ps: seq<Piece>, size: u64, data: seq<byte>, begin: nat, n: nat)
    requires EofAt(ps, n) && MarksFrom(ps, n)
    ensures var space := Evict(capacity, buffered, ps, size, data, begin); EofAt(space.pieces, n) && MarksFrom(space.pieces, n)
  {
    EvictMarks(capacity, buffered, ps, size, data, begin, n, n, false);
  }

  // ------------------------------------------------------------------- pushing

  // A push leaves the end mark off the last byte.  `was` says whether it was off
  // to begin with: of the two parts of a split, the second can bring back a mark
  // that the first has moved.
  ghost predicate Misplaces(r: Reassembler, was: bool, data: seq<byte>, index: nat, eof: bool)
    requires r.out.Valid()
    decreases |data|
  {
    match Plan(r, data, index, eof)
    case Duplicate => was
    case Fresh(d, b, e) => if was then |d| <= r.EmptySize() else MovesMark(r, d, b, e)
    case Split(l, t) =>
      Misplaces(Push(r, l.data, l.index, l.eof), Misplaces(r, was, l.data, l.index, l.eof), t.data, t.index, t.eof)
  }

  // A split leaves its second part below every piece that carries the end mark.
  lemma {:induction false} SplitBelowMarks(ps: seq<Piece>, s: seq<byte>, data: seq<byte>, begin: nat, eof: bool, low: nat, high: nat)
    requires Desc(ps, low, high) && EofAt(ps, |s|) && Within(s, data, begin) && Dedup(ps, data, begin, eof).Split?
    ensures MarksFrom(ps, Dedup(ps, data, begin, eof).right.End())
    decreases |ps|
  {
    CompareIsSound(ps, data, begin, eof);
    var p, t := ps[0], Dedup(ps, data, begin, eof).right;
    match Compare(p, data, begin, eof)
    case Fresh(d', b', e') =>
      DedupIsSound(ps[1..], d', b', e');
      WithinSlice(s, data, begin, b', b' + |d'|);
      SplitBelowMarks(ps[1..], s, d', b', e', low, p.index);
    case Split(_, _) =>
      LowUnmarked(ps[1..], low, p.index, |s|);
      MarksFromLess(ps[1..], |s|, t.End());
  }

  // Bytes of `s`, with its end mark only if they are its last.
  ghost predicate Exactly(s: seq<byte>, data: seq<byte>, index: nat, eof: bool) {
    Within(s, data, index) && (eof ==> index + |data| == |s|)
  }

  lemma PlanMarks(r: Reassembler, s: seq<byte>, data: seq<byte>, index: nat, eof: bool)
    requires Faithful(r, s) && Exactly(s, data, index, eof)
    ensures match Plan(r, data, index, eof)
            case Duplicate => true
            case Fresh(d, b, e) =>
              && NewBytes(r, s, d, b, e) && (e ==> eof) && b + |d| <= index + |data|
              && (data != [] ==> d != [])
            case Split(l, t) =>
              && Exactly(s, l.data, l.index, false) && Exactly(s, t.data, t.index, t.eof) && !l.eof && (t.eof ==> eof)
              && l.data != [] && t.data != [] && l.End() <= t.index && t.End() <= index + |data|
  {
    PlanFaithful(r, s, data, index, eof);
    if !Plan(r, data, index, eof).Duplicate? {
      var c := Trim(r, data, index);
      DedupIsSound(r.pieces, c.0, c.1, eof);
    }
  }

  lemma PlanBelowMarks(r: Reassembler, s: seq<byte>, data: seq<byte>, index: nat, eof: bool)
    requires Faithful(r, s) && Within(s, data, index) && EofSound(r, s)
    ensures var o := Plan(r, data, index, eof); o.Split? ==> MarksFrom(r.pieces, o.right.End())
  {
    var o := Plan(r, data, index, eof);
    if o.Split? {
      var c := Trim(r, data, index);
      WithinHalves(s, data, index, c.1 - index);
      SplitBelowMarks(r.pieces, s, c.0, c.1, eof, r.out.Written(), Top(r.pieces, 0));
    }
  }

  // The end mark is on the last byte, or has moved to somewhere above what is pushed.
  ghost predicate Standing(r: Reassembler, s: seq<byte>, limit: nat, strays: bool) {
    if strays then Strays(r, s, limit) else Sound(r, s, limit)
  }

  lemma StandingLess(r: Reassembler, s: seq<byte>, limit: nat, limit': nat, strays: bool)
    requires Standing(r, s, limit, strays) && limit' <= limit
    ensures Standing(r, s, limit', strays)
  {
    if !strays {
      MarksFromLess(r.pieces, limit, limit');
    }
  }

  lemma FreshMarks(r: Reassembler, s: seq<byte>, was: bool, d: seq<byte>, b: nat, e: bool, limit: nat)
    requires NewBytes(r, s, d, b, e) && (e ==> limit == 0 && !was) && Standing(r, s, limit, was)
    requires was ==> d != [] && b + |d| <= limit
    ensures Standing(Store(r, d, b, e), s, limit, if was then |d| <= r.EmptySize() else MovesMark(r, d, b, e))
  {
    if was {
      StrayStoreIff(r, s, d, b, limit);
    } else {
      StoreMarksIff(r, s, d, b, e, limit);
    }
  }

  lemma {:induction false} PushMarks(r: Reassembler, s: seq<byte>, was: bool, data: seq<byte>, index: nat, eof: bool, limit: nat)
    requires Faithful(r, s) && Exactly(s, data, index, eof) && Standing(r, s, limit, was)
    requires eof ==> limit == 0 && !was
    requires was ==> data != [] && index + |data| <= limit
    ensures Standing(Push(r, data, index, eof), s, limit, Misplaces(r, was, data, index, eof))
    decreases |data|
  {
    PlanMarks(r, s, data, index, eof);
    match Plan(r, data, index, eof)
    case Duplicate =>
    case Fresh(d, b, e) =>
      FreshMarks(r, s, was, d, b, e, limit);
    case Split(l, t) =>
      var r1, strays := Push(r, l.data, l.index, l.eof), Misplaces(r, was, l.data, l.index, l.eof);
      var limit' := if limit < t.End() then t.End() else limit;
      if !was {
        PlanBelowMarks(r, s, data, index, eof);
      }
      PushMarks(r, s, was, l.data, l.index, l.eof, limit');
      PushFaithful(r, s, l.data, l.index, l.eof);
      if strays {
        PushMarks(r1, s, true, t.data, t.index, t.eof, limit');
        StandingLess(Push(r1, t.data, t.index, t.eof), s, limit', limit, Misplaces(r1, true, t.data, t.index, t.eof));
      } else {
        StandingLess(r1, s, limit', limit, false);
        PushMarks(r1, s, false, t.data, t.index, t.eof, limit);
      }
  }

  // A push of bytes of the stream, in or out of the window, leaves the end mark
  // where the stream ends exactly when it does not misplace it.
  lemma PushEofSoundIff(r: Reassembler, s: seq<byte>, data: seq<byte>, index: nat, eof: bool)
    requires Faithful(r, s) && EofSound(r, s) && Exactly(s, data, index, eof)
    ensures EofSound(Push(r, data, index, eof), s) <==> !Misplaces(r, false, data, index, eof)
  {
    MarksFromZero(r.pieces);
    PushMarks(r, s, false, data, index, eof, 0);
  }

  // ------------------------------------------------------------------- example

  // Capacity 2 and three bytes in one push: the input ends one byte early.
  lemma EndsEarly(x: byte, y: byte, z: byte)
    ensures var r := Push(EmptyReassembler(2), [x, y, z], 0, true);
            r.out.ended && r.out.bytes == [x, y]
  {
    var r0 := EmptyReassembler(2);
    var p := Piece(true, [x, y], 0);
    assert [x, y, z][..2] == [x, y];
    assert MakeSpace(2, 0, [], 0, [x, y, z], 0) == Space([], 0, [x, y]);
    var r1 := Placed(r0.out, [], 0, p);
    assert r1 == Reassembler(r0.out, [p], 2);
    var r2 := DrainOne(r1);
    assert [p][1..] == [] && [x, y][..2] == [x, y];
    assert r2.out.bytes == [x, y] && r2.out.ended && r2.pieces == [];
    assert Drain(r1) == r2;
  }
}

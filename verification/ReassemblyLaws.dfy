/** What every push keeps, whatever the window, and whatever the bytes. */
module ReassemblyLaws {
  import opened Numbers
  import opened ByteStreams
  import opened Reassembly

  // Strictly descending and disjoint, all inside [low, high).
  ghost predicate Desc(ps: seq<Piece>, low: nat, high: nat) {
    ps != [] ==>
      low <= ps[0].index < high && ps[0].End() <= high && Desc(ps[1..], low, ps[0].index)
  }

  // The same with no upper bound.
  ghost predicate Descending(ps: seq<Piece>, low: nat) {
    ps != [] ==> Desc(ps, low, ps[0].End() + 1)
  }

  // Byte `j` is stored.
  ghost predicate Covered(ps: seq<Piece>, j: nat) {
    ps != [] && (ps[0].index <= j < ps[0].End() || Covered(ps[1..], j))
  }

  // No piece touches [begin, end); an empty piece may sit at either border.
  ghost predicate Apart(ps: seq<Piece>, begin: nat, end: nat) {
    ps != [] ==> (ps[0].End() <= begin || end <= ps[0].index) && Apart(ps[1..], begin, end)
  }

  // The bytes at `index` are bytes of the stream `s`, if there are any.
  ghost predicate Within(s: seq<byte>, data: seq<byte>, index: nat) {
    data != [] ==> index + |data| <= |s| && data == s[index..index + |data|]
  }

  ghost predicate AllWithin(s: seq<byte>, ps: seq<Piece>) {
    ps != [] ==> Within(s, ps[0].data, ps[0].index) && AllWithin(s, ps[1..])
  }

  // ------------------------------------------------------ removing duplicates

  // What `Dedup` keeps is a slice of the new bytes; what it drops is stored
  // already; the end-of-stream mark survives only with the last byte.
  ghost predicate DedupSound(ps: seq<Piece>, data: seq<byte>, begin: nat, eof: bool, o: Overlap) {
    match o
    case Duplicate => DuplicateSound(ps, data, begin, eof)
    case Fresh(d, b, e) => FreshSound(ps, data, begin, eof, d, b, e)
    case Split(l, r) => SplitSound(ps, data, begin, eof, l, r)
  }

  ghost predicate DuplicateSound(ps: seq<Piece>, data: seq<byte>, begin: nat, eof: bool) {
    && (forall j | begin <= j < begin + |data| :: Covered(ps, j))
    && (data == [] ==> !eof && ps != [])
  }

  ghost predicate FreshSound(ps: seq<Piece>, data: seq<byte>, begin: nat, eof: bool, d: seq<byte>, b: nat, e: bool) {
    var end := begin + |data|;
    && begin <= b && b + |d| <= end && d == data[b - begin..b - begin + |d|]
    && (data != [] ==> d != [] && Apart(ps, b, b + |d|))
    && (data == [] ==> ps == [] || e)
    && (forall j | begin <= j < end && !(b <= j < b + |d|) :: Covered(ps, j))
    && e == (eof && b + |d| == end)
  }

  ghost predicate SplitSound(ps: seq<Piece>, data: seq<byte>, begin: nat, eof: bool, l: Piece, r: Piece) {
    var end := begin + |data|;
    && begin <= l.index && l.End() <= r.index && r.End() <= end
    && l.data != [] && r.data != [] && !l.eof
    && l.data == data[l.index - begin..l.End() - begin]
    && r.data == data[r.index - begin..r.End() - begin]
    && (forall j | begin <= j < end && !(l.index <= j < l.End()) && !(r.index <= j < r.End()) :: Covered(ps, j))
    && r.eof == (eof && r.End() == end)
  }

  lemma SliceOfSlice(data: seq<byte>, from: nat, len: nat, lo: nat, hi: nat)
    requires from + len <= |data| && lo <= hi <= len
    ensures data[from..from + len][lo..hi] == data[from + lo..from + hi]
  {
    var inner := data[from..from + len];
    forall k | 0 <= k < hi - lo ensures inner[lo..hi][k] == data[from + lo..from + hi][k] {
      assert inner[lo + k] == data[from + lo + k];
    }
  }

  // Comparing with the piece `p` cuts `data` at `begin` down to `data'` at `begin'`.
  ghost predicate Cuts(p: Piece, data: seq<byte>, begin: nat, eof: bool, data': seq<byte>, begin': nat, eof': bool) {
    var end, end' := begin + |data|, begin' + |data'|;
    && data' != [] && begin <= begin' && end' <= end
    && data' == data[begin' - begin..begin' - begin + |data'|]
    && eof' == (eof && end' == end)
    && (p.End() <= begin' || end' <= p.index)
    && (begin == begin' || (p.index <= begin && begin' <= p.End()))
    && (end' == end || (p.index <= end' && end <= p.End()))
  }

  lemma LiftFresh(ps: seq<Piece>, data: seq<byte>, begin: nat, eof: bool,
                  data': seq<byte>, begin': nat, eof': bool, d: seq<byte>, b: nat, e: bool)
    requires ps != [] && Cuts(ps[0], data, begin, eof, data', begin', eof')
    requires FreshSound(ps[1..], data', begin', eof', d, b, e)
    ensures FreshSound(ps, data, begin, eof, d, b, e)
  {
    SliceOfSlice(data, begin' - begin, |data'|, b - begin', b - begin' + |d|);
  }

  lemma LiftSplit(ps: seq<Piece>, data: seq<byte>, begin: nat, eof: bool,
                  data': seq<byte>, begin': nat, eof': bool, l: Piece, r: Piece)
    requires ps != [] && Cuts(ps[0], data, begin, eof, data', begin', eof')
    requires SplitSound(ps[1..], data', begin', eof', l, r)
    ensures SplitSound(ps, data, begin, eof, l, r)
  {
    LiftSlice(data, begin, data', begin', l);
    LiftSlice(data, begin, data', begin', r);
  }

  // A part of a part, by its place in the whole.
  lemma LiftSlice(data: seq<byte>, begin: nat, data': seq<byte>, begin': nat, p: Piece)
    requires begin <= begin' && begin' + |data'| <= begin + |data|
    requires data' == data[begin' - begin..begin' - begin + |data'|]
    requires begin' <= p.index && p.End() <= begin' + |data'| && p.data == data'[p.index - begin'..p.End() - begin']
    ensures p.data == data[p.index - begin..p.End() - begin]
  {
    SliceOfSlice(data, begin' - begin, |data'|, p.index - begin', p.End() - begin');
  }

  lemma DedupLift(ps: seq<Piece>, data: seq<byte>, begin: nat, eof: bool,
                  data': seq<byte>, begin': nat, eof': bool, o: Overlap)
    requires ps != [] && Cuts(ps[0], data, begin, eof, data', begin', eof')
    requires DedupSound(ps[1..], data', begin', eof', o)
    ensures DedupSound(ps, data, begin, eof, o)
  {
    match o
    case Duplicate =>
    case Fresh(d, b, e) => LiftFresh(ps, data, begin, eof, data', begin', eof', d, b, e);
    case Split(l, r) => LiftSplit(ps, data, begin, eof, data', begin', eof', l, r);
  }

  lemma CompareIsSound(ps: seq<Piece>, data: seq<byte>, begin: nat, eof: bool)
    requires ps != [] && data != []
    ensures var o := Compare(ps[0], data, begin, eof);
            if o.Fresh? then Cuts(ps[0], data, begin, eof, o.data, o.begin, o.eof) else DedupSound(ps, data, begin, eof, o)
  {
  }

  lemma {:induction false} DedupIsSound(ps: seq<Piece>, data: seq<byte>, begin: nat, eof: bool)
    ensures DedupSound(ps, data, begin, eof, Dedup(ps, data, begin, eof))
    decreases |ps|
  {
    if ps != [] && data != [] {
      CompareIsSound(ps, data, begin, eof);
      var o := Compare(ps[0], data, begin, eof);
      if o.Fresh? {
        DedupIsSound(ps[1..], o.data, o.begin, o.eof);
        DedupLift(ps, data, begin, eof, o.data, o.begin, o.eof, Dedup(ps, data, begin, eof));
      }
    }
  }

  // ---------------------------------------------------------- the ordered map

  lemma {:induction false} InsertDesc(ps: seq<Piece>, p: Piece, low: nat, high: nat)
    requires Desc(ps, low, high) && low <= p.index < high && p.End() <= high && Apart(ps, p.index, p.End())
    ensures Desc(Insert(ps, p), low, high)
  {
    if ps != [] {
      if ps[0].index > p.index {
        InsertDesc(ps[1..], p, low, ps[0].index);
      } else if ps[0].index < p.index {
        assert ([p] + ps)[1..] == ps;
      }
    }
  }

  lemma {:induction false} InsertWithin(ps: seq<Piece>, p: Piece, s: seq<byte>)
    requires AllWithin(s, ps) && Within(s, p.data, p.index)
    ensures AllWithin(s, Insert(ps, p))
  {
    if ps != [] {
      if ps[0].index > p.index {
        InsertWithin(ps[1..], p, s);
      } else if ps[0].index < p.index {
        assert ([p] + ps)[1..] == ps;
      }
    }
  }

  // Everything else lies beyond the lowest piece.
  lemma {:induction false} WithoutDesc(ps: seq<Piece>, low: nat, high: nat)
    requires Desc(ps, low, high)
    ensures if HasKey(ps, low)
            then At(ps, low).index == low && At(ps, low).End() <= high && Desc(Without(ps, low), At(ps, low).End(), high)
            else Desc(ps, low + 1, high)
  {
    if ps != [] && ps[0].index != low {
      WithoutDesc(ps[1..], low, ps[0].index);
    } else if ps != [] && ps[1..] != [] {
      assert false;
    }
  }

  lemma {:induction false} WithoutWithin(ps: seq<Piece>, key: nat, s: seq<byte>)
    requires AllWithin(s, ps) && HasKey(ps, key)
    ensures Within(s, At(ps, key).data, At(ps, key).index) && AllWithin(s, Without(ps, key))
  {
    if ps[0].index != key {
      WithoutWithin(ps[1..], key, s);
    }
  }

  // ------------------------------------------------------------ making room

  // `qs` is `ps` without some of its pieces, and with some of them cut short.
  ghost predicate Trimmed(qs: seq<Piece>, ps: seq<Piece>) {
    qs != [] ==>
      && |qs| <= |ps|
      && if |qs| < |ps| then Trimmed(qs, ps[1..])
         else qs[0].index == ps[0].index && qs[0].data <= ps[0].data && Trimmed(qs[1..], ps[1..])
  }

  lemma {:induction false} TrimmedSelf(ps: seq<Piece>)
    ensures Trimmed(ps, ps)
  {
    if ps != [] {
      TrimmedSelf(ps[1..]);
    }
  }

  lemma {:induction false} TrimmedDesc(qs: seq<Piece>, ps: seq<Piece>, low: nat, high: nat)
    requires Trimmed(qs, ps) && Desc(ps, low, high)
    ensures Desc(qs, low, high)
    decreases |ps|, high
  {
    if qs != [] {
      if |qs| < |ps| {
        TrimmedDesc(qs, ps[1..], low, ps[0].index);
        DescWiden(qs, low, ps[0].index, high);
      } else {
        TrimmedDesc(qs[1..], ps[1..], low, ps[0].index);
      }
    }
  }

  lemma DescWiden(ps: seq<Piece>, low: nat, high: nat, high': nat)
    requires Desc(ps, low, high) && high <= high'
    ensures Desc(ps, low, high')
  {
  }

  lemma {:induction false} TrimmedApart(qs: seq<Piece>, ps: seq<Piece>, begin: nat, end: nat)
    requires Trimmed(qs, ps) && Apart(ps, begin, end)
    ensures Apart(qs, begin, end)
  {
    if qs != [] {
      if |qs| < |ps| {
        TrimmedApart(qs, ps[1..], begin, end);
      } else {
        TrimmedApart(qs[1..], ps[1..], begin, end);
      }
    }
  }

  lemma WithinSlice(s: seq<byte>, data: seq<byte>, index: nat, lo: nat, hi: nat)
    requires Within(s, data, index) && index <= lo <= hi <= index + |data|
    ensures Within(s, data[lo - index..hi - index], lo)
  {
    if lo < hi {
      SliceOfSlice(s, index, |data|, lo - index, hi - index);
    }
  }

  lemma WithinHalves(s: seq<byte>, data: seq<byte>, index: nat, cut: nat)
    requires Within(s, data, index) && cut <= |data|
    ensures Within(s, data[..cut], index) && Within(s, data[cut..], index + cut)
  {
    WithinSlice(s, data, index, index, index + cut);
    WithinSlice(s, data, index, index + cut, index + |data|);
    assert data[0..cut] == data[..cut] && data[cut..|data|] == data[cut..];
  }

  lemma {:induction false} TrimmedWithin(qs: seq<Piece>, ps: seq<Piece>, s: seq<byte>)
    requires Trimmed(qs, ps) && AllWithin(s, ps)
    ensures AllWithin(s, qs)
  {
    if qs != [] {
      if |qs| < |ps| {
        TrimmedWithin(qs, ps[1..], s);
      } else {
        WithinHalves(s, ps[0].data, ps[0].index, |qs[0].data|);
        assert ps[0].data[..|qs[0].data|] == qs[0].data;
        TrimmedWithin(qs[1..], ps[1..], s);
      }
    }
  }

  lemma {:induction false} TrimmedTwice(rs: seq<Piece>, qs: seq<Piece>, ps: seq<Piece>)
    requires Trimmed(rs, qs) && Trimmed(qs, ps)
    ensures Trimmed(rs, ps)
    decreases |qs| + |ps|
  {
    if rs != [] {
      if |qs| < |ps| {
        TrimmedTwice(rs, qs, ps[1..]);
      } else if |rs| < |qs| {
        TrimmedTwice(rs, qs[1..], ps[1..]);
      } else {
        TrimmedTwice(rs[1..], qs[1..], ps[1..]);
      }
    }
  }

  lemma {:induction false} EvictTrims(capacity: nat, buffered: nat, ps: seq<Piece>, size: u64, data: seq<byte>, begin: nat)
    ensures var s := Evict(capacity, buffered, ps, size, data, begin); Trimmed(s.pieces, ps) && s.data <= data
    decreases Total(ps) + |ps|
  {
    var spare := SpareRoom(capacity, size, buffered);
    TrimmedSelf(ps);
    if spare < |data| && ps != [] && ps[0].index >= begin {
      TrimmedSelf(ps[1..]);
      var result := Evict(capacity, buffered, ps, size, data, begin).pieces;
      if |ps[0].data| + spare > |data| {
        var qs := [Shear(ps[0], spare, |data|)] + ps[1..];
        EvictTrims(capacity, buffered, qs, (size - |data|) % TWO_64, data, begin);
        TrimmedTwice(result, qs, ps);
      } else {
        EvictTrims(capacity, buffered, ps[1..], (size - |ps[0].data|) % TWO_64, data, begin);
        TrimmedTwice(result, ps[1..], ps);
      }
    }
  }

  lemma MakeSpaceTrims(capacity: nat, buffered: nat, ps: seq<Piece>, size: u64, data: seq<byte>, begin: nat)
    ensures var s := MakeSpace(capacity, buffered, ps, size, data, begin);
            s.Space? ==> Trimmed(s.pieces, ps) && s.data <= data
  {
    var spare := SpareRoom(capacity, size, buffered);
    TrimmedSelf(ps);
    if spare < |data| && ps != [] && ps[0].index >= begin {
      TrimmedSelf(ps[1..]);
      if |ps[0].data| + spare <= |data| {
        EvictTrims(capacity, buffered, ps[1..], (size - |ps[0].data|) % TWO_64, data, begin);
        TrimmedTwice(MakeSpace(capacity, buffered, ps, size, data, begin).pieces, ps[1..], ps);
      }
    }
  }

  // -------------------------------------------------------------- one stream

  // Well-formed storage and output, all of it bytes of the stream `s`.
  ghost predicate Draining(r: Reassembler, s: seq<byte>) {
    && r.out.Valid() && r.out.bytes <= s
    && Descending(r.pieces, r.out.Written()) && AllWithin(s, r.pieces)
  }

  // The same between pushes.  Key 0 is never left stored, so the 64-bit
  // `end - 1` of a stored piece never wraps.
  ghost predicate Faithful(r: Reassembler, s: seq<byte>) {
    Draining(r, s) && !HasKey(r.pieces, 0)
  }

  // The pushes a sender of `s` can cause: bytes of `s`, and end marks not
  // before its end.
  ghost predicate Proper(s: seq<byte>, data: seq<byte>, index: nat, eof: bool) {
    && Within(s, data, index)
    && (eof ==> index + |data| >= |s|)
  }

  lemma WriteExtends(out: Stream, s: seq<byte>, data: seq<byte>)
    requires out.Valid() && out.bytes <= s && Within(s, data, out.Written()) && |data| <= out.Remaining()
    ensures out.Write(data).bytes == out.bytes + data <= s
  {
    assert data[..|data|] == data;
    if data != [] {
      assert s == s[..|out.bytes|] + data + s[|out.bytes| + |data|..];
    }
  }

  // The top of the pieces, or `low` when there are none.
  function Top(ps: seq<Piece>, low: nat): nat {
    if ps == [] then low else ps[0].End() + 1
  }

  // What is left of a piece that goes out in part takes its place at the bottom.
  lemma PutBack(rest: seq<Piece>, p: Piece, cut: nat, high: nat)
    requires Desc(rest, p.End(), high) && cut < |p.data| && p.End() <= high
    ensures var q := Piece(p.eof, p.data[cut..], p.index + cut);
            Desc(Insert(rest, q), q.index, high) && !HasKey(rest, q.index)
  {
    var q := Piece(p.eof, p.data[cut..], p.index + cut);
    DescLower(rest, p.End(), q.index, high);
    ApartBelow(rest, q.End(), high, q.index);
    InsertDesc(rest, q, q.index, high);
    NoLowKey(rest, p.End(), high, q.index);
  }

  // The shape of one round of draining.
  lemma DrainOneDesc(r: Reassembler)
    requires r.out.Valid() && Descending(r.pieces, r.out.Written()) && !Drained(r)
    ensures At(r.pieces, r.out.Written()).index == r.out.Written()
    ensures Descending(DrainOne(r).pieces, DrainOne(r).out.Written())
    ensures var p, room := At(r.pieces, r.out.Written()), r.out.Remaining();
            && DrainOne(r).out.Written() == r.out.Written() + Min(room, |p.data|)
            && (room < |p.data| ==> !HasKey(Without(r.pieces, r.out.Written()), p.index + room))
  {
    var key, room, high := r.out.Written(), r.out.Remaining(), r.pieces[0].End() + 1;
    WithoutDesc(r.pieces, key, high);
    if room < |At(r.pieces, key).data| {
      PutBack(Without(r.pieces, key), At(r.pieces, key), room, high);
    }
  }

  // A piece that goes out in part leaves the rest of itself.
  lemma PutBackWithin(rest: seq<Piece>, p: Piece, room: nat, s: seq<byte>)
    requires AllWithin(s, rest) && Within(s, p.data, p.index) && room <= |p.data|
    ensures AllWithin(s, Insert(rest, Piece(p.eof, p.data[room..], p.index + room)))
    ensures Within(s, p.data[..room], p.index)
  {
    WithinHalves(s, p.data, p.index, room);
    InsertWithin(rest, Piece(p.eof, p.data[room..], p.index + room), s);
  }

  lemma DrainOneFaithful(r: Reassembler, s: seq<byte>)
    requires Draining(r, s) && !Drained(r)
    ensures Draining(DrainOne(r), s) && r.out.bytes <= DrainOne(r).out.bytes
  {
    var key, room := r.out.Written(), r.out.Remaining();
    var p, rest := At(r.pieces, key), Without(r.pieces, key);
    DrainOneDesc(r);
    WithoutWithin(r.pieces, key, s);
    if room >= |p.data| {
      WriteExtends(r.out, s, p.data);
    } else {
      PutBackWithin(rest, p, room, s);
      WriteExtends(r.out, s, p.data[..room]);
    }
  }

  lemma DescLower(ps: seq<Piece>, low: nat, low': nat, high: nat)
    requires Desc(ps, low, high) && low' <= low
    ensures Desc(ps, low', high)
  {
  }

  lemma ApartBelow(ps: seq<Piece>, low: nat, high: nat, begin: nat)
    requires Desc(ps, low, high)
    ensures Apart(ps, begin, low)
  {
  }

  lemma {:induction false} DrainFaithful(r: Reassembler, s: seq<byte>)
    requires Draining(r, s) && r.out.Edge() > 0
    ensures Faithful(Drain(r), s) && r.out.bytes <= Drain(r).out.bytes
    decreases |r.pieces|, r.out.Remaining()
  {
    if Drained(r) {
      if r.out.Written() > 0 {
        NoLowKey(r.pieces, r.out.Written(), Top(r.pieces, r.out.Written()), 0);
      }
    } else {
      DrainOneFaithful(r, s);
      DrainFaithful(DrainOne(r), s);
    }
  }

  lemma NoLowKey(ps: seq<Piece>, low: nat, high: nat, key: nat)
    requires Desc(ps, low, high) && key < low
    ensures !HasKey(ps, key)
  {
  }

  // A piece put where nothing was keeps the order, whatever was given up for it.
  lemma PlacedDesc(ps: seq<Piece>, qs: seq<Piece>, p: Piece, low: nat, end: nat)
    requires Descending(ps, low) && Trimmed(qs, ps)
    requires low <= p.index && p.End() <= end && Apart(ps, p.index, end)
    ensures Descending(Insert(qs, p), low) && Apart(qs, p.index, end)
  {
    var high := Max(Top(ps, low), p.End() + 1);
    TrimmedDesc(qs, ps, low, high);
    TrimmedApart(qs, ps, p.index, end);
    ApartShrinks(qs, p.index, end, p.End());
    InsertDesc(qs, p, low, high);
  }

  lemma PlacedFaithful(r: Reassembler, s: seq<byte>, qs: seq<Piece>, size: u64, p: Piece, end: nat)
    requires Draining(r, s) && Trimmed(qs, r.pieces)
    requires p.index >= r.out.Written() && Within(s, p.data, p.index)
    requires p.End() <= end && Apart(r.pieces, p.index, end)
    ensures Draining(Placed(r.out, qs, size, p), s)
  {
    PlacedDesc(r.pieces, qs, p, r.out.Written(), end);
    TrimmedWithin(qs, r.pieces, s);
    InsertWithin(qs, p, s);
  }

  lemma StoreFaithful(r: Reassembler, s: seq<byte>, d: seq<byte>, b: nat, e: bool)
    requires Faithful(r, s) && r.out.Edge() > 0
    requires b >= r.out.Written() && Within(s, d, b) && Apart(r.pieces, b, b + |d|)
    ensures Faithful(Store(r, d, b, e), s) && r.out.bytes <= Store(r, d, b, e).out.bytes
  {
    var space := MakeSpace(r.out.capacity, |r.out.Buffer()|, r.pieces, r.size, d, b);
    MakeSpaceTrims(r.out.capacity, |r.out.Buffer()|, r.pieces, r.size, d, b);
    if space.Space? {
      WithinHalves(s, d, b, |space.data|);
      assert d[..|space.data|] == space.data;
      PlacedFaithful(r, s, space.pieces, space.size, Piece(e, space.data, b), b + |d|);
      DrainFaithful(Placed(r.out, space.pieces, space.size, Piece(e, space.data, b)), s);
    }
  }

  lemma ApartShrinks(ps: seq<Piece>, begin: nat, end: nat, end': nat)
    requires Apart(ps, begin, end) && end' <= end
    ensures Apart(ps, begin, end')
  {
  }

  // An end mark with no bytes lies beyond everything held.
  lemma TailApart(ps: seq<Piece>, s: seq<byte>, index: nat)
    requires AllWithin(s, ps) && index >= |s|
    ensures Apart(ps, index, index)
  {
  }

  lemma FreshFaithful(ps: seq<Piece>, s: seq<byte>, data: seq<byte>, begin: nat, eof: bool, d: seq<byte>, b: nat, e: bool)
    requires AllWithin(s, ps) && Proper(s, data, begin, eof) && FreshSound(ps, data, begin, eof, d, b, e)
    ensures begin <= b && Within(s, d, b) && Apart(ps, b, b + |d|)
  {
    WithinSlice(s, data, begin, b, b + |d|);
    if data == [] && ps != [] {
      TailApart(ps, s, b);
    }
  }

  lemma SplitFaithful(ps: seq<Piece>, s: seq<byte>, data: seq<byte>, begin: nat, eof: bool, l: Piece, r: Piece)
    requires Proper(s, data, begin, eof) && SplitSound(ps, data, begin, eof, l, r)
    ensures Proper(s, l.data, l.index, l.eof) && Proper(s, r.data, r.index, r.eof)
  {
    WithinSlice(s, data, begin, l.index, l.End());
    WithinSlice(s, data, begin, r.index, r.End());
  }

  // The bytes `Plan` compares with the pieces, and where they begin.
  function Trim(r: Reassembler, data: seq<byte>, index: nat): (t: (seq<byte>, nat))
    requires r.out.Valid() && r.out.Written() - index <= |data|
  {
    if index >= r.out.Written() then (data, index) else (data[r.out.Written() - index..], r.out.Written())
  }

  // What is left to push of bytes of `s` is bytes of `s`, clear of what is held.
  lemma PlanFaithful(r: Reassembler, s: seq<byte>, data: seq<byte>, index: nat, eof: bool)
    requires Faithful(r, s) && Proper(s, data, index, eof)
    ensures match Plan(r, data, index, eof)
            case Duplicate => true
            case Fresh(d, b, e) =>
              r.out.Edge() > 0 && r.out.Written() <= b && Within(s, d, b) && Apart(r.pieces, b, b + |d|)
            case Split(left, right) =>
              Proper(s, left.data, left.index, left.eof) && Proper(s, right.data, right.index, right.eof)
  {
    var o := Plan(r, data, index, eof);
    if !o.Duplicate? {
      var (data', begin) := Trim(r, data, index);
      if index < begin {
        WithinHalves(s, data, index, begin - index);
      }
      DedupIsSound(r.pieces, data', begin, eof);
      if o.Fresh? {
        FreshFaithful(r.pieces, s, data', begin, eof, o.data, o.begin, o.eof);
      } else {
        SplitFaithful(r.pieces, s, data', begin, eof, o.left, o.right);
      }
    }
  }

  // Every push of bytes of one stream, in or out of the window and however it
  // overlaps what is held, leaves the output a prefix of that stream.
  lemma {:induction false} PushFaithful(r: Reassembler, s: seq<byte>, data: seq<byte>, index: nat, eof: bool)
    requires Faithful(r, s) && Proper(s, data, index, eof)
    ensures Faithful(Push(r, data, index, eof), s)
    ensures r.out.bytes <= Push(r, data, index, eof).out.bytes
    decreases |data|
  {
    PlanFaithful(r, s, data, index, eof);
    match Plan(r, data, index, eof)
    case Duplicate =>
    case Fresh(d, b, e) =>
      StoreFaithful(r, s, d, b, e);
    case Split(left, right) =>
      PushFaithful(r, s, left.data, left.index, left.eof);
      PushFaithful(Push(r, left.data, left.index, left.eof), s, right.data, right.index, right.eof);
  }

  // --------------------------------------------- whatever is pushed, consistent or not

  // The output only grows, and stays ended or in error.
  ghost predicate OutGrows(out: Stream, out': Stream) {
    (out.ended ==> out'.ended) && out'.error == out.error && out.Written() <= out'.Written()
  }

  lemma {:induction false} DrainForward(r: Reassembler)
    requires r.out.Valid()
    ensures OutGrows(r.out, Drain(r).out)
    decreases |r.pieces|, r.out.Remaining()
  {
    if !Drained(r) {
      DrainForward(DrainOne(r));
    }
  }

  lemma StoreForward(r: Reassembler, data: seq<byte>, begin: nat, eof: bool)
    requires r.out.Valid()
    ensures OutGrows(r.out, Store(r, data, begin, eof).out)
  {
    match MakeSpace(r.out.capacity, |r.out.Buffer()|, r.pieces, r.size, data, begin)
    case NoSpace =>
    case Space(pieces, size, kept) =>
      DrainForward(Placed(r.out, pieces, size, Piece(eof, kept, begin)));
  }

  lemma {:induction false} PushForward(r: Reassembler, data: seq<byte>, index: nat, eof: bool)
    requires r.out.Valid()
    ensures OutGrows(r.out, Push(r, data, index, eof).out)
    decreases |data|
  {
    match Plan(r, data, index, eof)
    case Duplicate =>
    case Fresh(d, b, e) => StoreForward(r, d, b, e);
    case Split(left, right) =>
      PushForward(r, left.data, left.index, left.eof);
      PushForward(Push(r, left.data, left.index, left.eof), right.data, right.index, right.eof);
  }
}

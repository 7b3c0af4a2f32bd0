/**
 The stream reassembler on values: what one push does, for every input, in or
 out of the window.
 */
module Reassembly {
  import opened Numbers
  import opened ByteStreams

  datatype Piece = Piece(eof: bool, data: seq<byte>, index: nat) {
    function End(): nat {
      index + |data|
    }
  }

  // `pieces` is the map of stored substrings in the map's own order, from the
  // highest index to the lowest.  `size` is the stored count of their bytes, an
  // unsigned 64-bit number that wraps.
  datatype Reassembler = Reassembler(out: Stream, pieces: seq<Piece>, size: u64) {
    function EmptySize(): (n: nat)
      requires out.Valid()
    {
      SpareRoom(out.capacity, size, |out.Buffer()|)
    }
  }

  function SpareRoom(capacity: nat, size: u64, buffered: nat): (n: nat) {
    var used := (size + buffered) % TWO_64;
    if capacity >= used then capacity - used else 0
  }

  function EmptyReassembler(capacity: nat): (r: Reassembler)
    ensures r.out.Valid()
  {
    Reassembler(EmptyStream(capacity), [], 0)
  }

  // ---------------------------------------------------------------- one push

  // The outcome of comparing new bytes with the stored pieces.
  datatype Overlap =
    | Duplicate
    | Fresh(data: seq<byte>, begin: nat, eof: bool)
    | Split(left: Piece, right: Piece)

  // Comparing new bytes with one stored piece: nothing in common, the piece
  // covers all of them, their start, their end, or their middle.
  function Compare(p: Piece, data: seq<byte>, begin: nat, eof: bool): (o: Overlap)
    requires data != []
    ensures o.Fresh? ==> 0 < |o.data| <= |data|
    ensures o.Split? ==> |o.left.data| < |data| && |o.right.data| < |data|
  {
    var end := begin + |data|;
    if end <= p.index || p.End() <= begin then
      Fresh(data, begin, eof)
    else if p.index <= begin && p.End() >= end then
      Duplicate
    else if p.index <= begin then
      Fresh(data[p.End() - begin..], p.End(), eof)
    else if end <= p.End() then
      Fresh(data[..p.index - begin], begin, false)
    else
      Split(Piece(false, data[..p.index - begin], begin), Piece(eof, data[p.End() - begin..], p.End()))
  }

  // The loop that removes what is already stored, over the pieces left to visit.
  function Dedup(pieces: seq<Piece>, data: seq<byte>, begin: nat, eof: bool): (o: Overlap)
    ensures o.Split? ==> |o.left.data| < |data| && |o.right.data| < |data|
  {
    if pieces == [] then Fresh(data, begin, eof)
    else if data == [] then if eof then Fresh(data, begin, eof) else Duplicate
    else
      match Compare(pieces[0], data, begin, eof)
      case Fresh(d, b, e) => Dedup(pieces[1..], d, b, e)
      case o => o
  }

  // `map[key] = piece`
  function Insert(pieces: seq<Piece>, p: Piece): (r: seq<Piece>) {
    if pieces == [] then [p]
    else if pieces[0].index > p.index then [pieces[0]] + Insert(pieces[1..], p)
    else if pieces[0].index == p.index then [p] + pieces[1..]
    else [p] + pieces
  }

  // `map.find(key) != map.end()`
  predicate HasKey(pieces: seq<Piece>, key: nat) {
    pieces != [] && (pieces[0].index == key || HasKey(pieces[1..], key))
  }

  // `map[key]`
  function At(pieces: seq<Piece>, key: nat): (p: Piece)
    requires HasKey(pieces, key)
  {
    if pieces[0].index == key then pieces[0] else At(pieces[1..], key)
  }

  // `map.erase(key)`
  function Without(pieces: seq<Piece>, key: nat): (r: seq<Piece>)
    requires HasKey(pieces, key)
    ensures |r| == |pieces| - 1
  {
    if pieces[0].index == key then pieces[1..] else [pieces[0]] + Without(pieces[1..], key)
  }

  function Total(pieces: seq<Piece>): (n: nat) {
    if pieces == [] then 0 else |pieces[0].data| + Total(pieces[1..])
  }

  // What is left to store once room has been made.
  datatype Space = NoSpace | Space(pieces: seq<Piece>, size: u64, data: seq<byte>)

  // Cutting `n` bytes' worth of room out of the highest piece.
  function Shear(p: Piece, spare: nat, need: nat): (q: Piece)
    requires spare < need < |p.data| + spare
  {
    p.(data := p.data[..|p.data| + spare - need])
  }

  // The loop that pops the highest pieces until the new bytes fit.
  function Evict(capacity: nat, buffered: nat, pieces: seq<Piece>, size: u64, data: seq<byte>, begin: nat): (s: Space)
    ensures s.Space?
    decreases Total(pieces) + |pieces|
  {
    var spare := SpareRoom(capacity, size, buffered);
    if spare >= |data| then Space(pieces, size, data)
    else if pieces == [] || pieces[0].index < begin then Space(pieces, size, data[..spare])
    else if |pieces[0].data| + spare > |data| then
      Evict(capacity, buffered, [Shear(pieces[0], spare, |data|)] + pieces[1..], (size - |data|) % TWO_64, data, begin)
    else
      Evict(capacity, buffered, pieces[1..], (size - |pieces[0].data|) % TWO_64, data, begin)
  }

  // Making room for `data` at `begin`.
  function MakeSpace(capacity: nat, buffered: nat, pieces: seq<Piece>, size: u64, data: seq<byte>, begin: nat): (s: Space)
  {
    var spare := SpareRoom(capacity, size, buffered);
    if spare >= |data| then Space(pieces, size, data)
    else if pieces == [] then Space(pieces, size, data[..spare])
    else if pieces[0].index < begin then NoSpace
    else if |pieces[0].data| + spare > |data| then
      Space([Shear(pieces[0], spare, |data|).(eof := false)] + pieces[1..], (size - |data|) % TWO_64, data)
    else
      Evict(capacity, buffered, pieces[1..], (size - |pieces[0].data|) % TWO_64, data, begin)
  }

  // When the loop that moves in-order pieces to the output stops.
  predicate Drained(r: Reassembler)
    requires r.out.Valid()
  {
    !HasKey(r.pieces, r.out.Written()) || r.out.Remaining() == 0
  }

  // One round of that loop.
  function DrainOne(r: Reassembler): (r': Reassembler)
    requires r.out.Valid() && !Drained(r)
    ensures r'.out.Valid() && r'.out.read == r.out.read && r'.out.capacity == r.out.capacity
    ensures |r'.pieces| < |r.pieces| || (|r'.pieces| == |r.pieces| && r'.out.Remaining() < r.out.Remaining())
  {
    var key, room := r.out.Written(), r.out.Remaining();
    var p, rest := At(r.pieces, key), Without(r.pieces, key);
    if room >= |p.data| then
      var out := r.out.Write(p.data);
      Reassembler(if p.eof then out.End() else out, rest, (r.size - |p.data|) % TWO_64)
    else
      var q := Piece(p.eof, p.data[room..], p.index + room);
      InsertGrows(rest, q);
      Reassembler(r.out.Write(p.data[..room]), Insert(rest, q), (r.size - room) % TWO_64)
  }

  function Drain(r: Reassembler): (r': Reassembler)
    requires r.out.Valid()
    ensures r'.out.Valid() && r'.out.read == r.out.read && r'.out.capacity == r.out.capacity
    ensures Drained(r')
    decreases |r.pieces|, r.out.Remaining()
  {
    if Drained(r) then r else Drain(DrainOne(r))
  }

  lemma InsertGrows(pieces: seq<Piece>, p: Piece)
    ensures |pieces| <= |Insert(pieces, p)| <= |pieces| + 1
  {
  }

  // The pieces with `p` among them, before draining.
  function Placed(out: Stream, pieces: seq<Piece>, size: u64, p: Piece): (r: Reassembler) {
    Reassembler(out, Insert(pieces, p), (size + |p.data|) % TWO_64)
  }

  // Storing bytes that nothing stored overlaps, then draining.
  function Store(r: Reassembler, data: seq<byte>, begin: nat, eof: bool): (r': Reassembler)
    requires r.out.Valid()
    ensures r'.out.Valid() && r'.out.read == r.out.read && r'.out.capacity == r.out.capacity
  {
    match MakeSpace(r.out.capacity, |r.out.Buffer()|, r.pieces, r.size, data, begin)
    case NoSpace => r
    case Space(pieces, size, kept) =>
      Drain(Placed(r.out, pieces, size, Piece(eof, kept, begin)))
  }

  // What is left of a push once the bytes that are written already or stored
  // already have been removed.
  function Plan(r: Reassembler, data: seq<byte>, index: nat, eof: bool): (o: Overlap)
    requires r.out.Valid()
    ensures o.Split? ==> |o.left.data| < |data| && |o.right.data| < |data|
  {
    var written := r.out.Written();
    if index >= written + r.out.Remaining() then Duplicate
    else if index >= written then Dedup(r.pieces, data, index, eof)
    else if written - index >= |data| then Duplicate
    else Dedup(r.pieces, data[written - index..], written, eof)
  }

  // `push_substring`.  The recursion ends for every input because both halves
  // of a split are shorter than the whole.
  function Push(r: Reassembler, data: seq<byte>, index: nat, eof: bool): (r': Reassembler)
    requires r.out.Valid()
    ensures r'.out.Valid() && r'.out.read == r.out.read && r'.out.capacity == r.out.capacity
    decreases |data|
  {
    match Plan(r, data, index, eof)
    case Duplicate => r
    case Fresh(d, b, e) => Store(r, d, b, e)
    case Split(left, right) =>
      var r1 := Push(r, left.data, left.index, left.eof);
      Push(r1, right.data, right.index, right.eof)
  }
}

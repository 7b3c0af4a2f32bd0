/** The stream reassembler as an object that updates its map and its output. */
module StreamReassemblers {
  import opened Numbers
  import opened ByteStreams
  import opened Reassembly

  class StreamReassembler {
    const output: ByteStream
    const capacity: nat
    var substrs: seq<Piece>
    var substrsSize: u64

    ghost predicate Valid()
      reads this, output
    {
      output.Valid() && output.capacity == capacity
    }

    ghost function State(): (r: Reassembler)
      requires Valid()
      reads this, output
      ensures r.out.Valid()
    {
      Reassembler(output.State(), substrs, substrsSize)
    }

    constructor (capacity: nat)
      ensures Valid() && fresh(output) && State() == EmptyReassembler(capacity)
    {
      output := new ByteStream(capacity);
      this.capacity := capacity;
      substrs, substrsSize := [], 0;
    }

    method EmptySize() returns (n: nat)
      requires Valid()
      ensures n == State().EmptySize()
    {
      var used := (substrsSize + output.BufferSize()) % TWO_64;
      n := if capacity >= used then capacity - used else 0;
    }

    // One stored piece against the new bytes, by inclusive ends.
    method CompareWith(piece: Piece, data: seq<byte>, indexBegin: nat, eof: bool) returns (o: Overlap)
      requires data != []
      ensures o == Compare(piece, data, indexBegin, eof)
    {
      var indexEnd := indexBegin + |data| - 1;
      var currBegin := piece.index;
      var currEnd := |piece.data| + currBegin - 1;
      if indexEnd < currBegin || currEnd < indexBegin {
        return Fresh(data, indexBegin, eof);
      } else if currBegin <= indexBegin && currEnd >= indexEnd {
        return Duplicate;
      } else if currBegin <= indexBegin && currEnd < indexEnd {
        return Fresh(data[currEnd - indexBegin + 1..], currEnd + 1, eof);
      } else if currBegin > indexBegin && indexEnd <= currEnd {
        return Fresh(data[..currBegin - indexBegin], indexBegin, false);
      }
      var right := Piece(eof, data[currEnd - indexBegin + 1..], currEnd + 1);
      return Split(Piece(false, data[..currBegin - indexBegin], indexBegin), right);
    }

    // The scan over the stored pieces, from the highest down.
    method RemoveStored(data: seq<byte>, begin: nat, eof: bool) returns (o: Overlap)
      ensures o == Dedup(substrs, data, begin, eof)
    {
      var dataNoDup, indexBegin, eofNoDup := data, begin, eof;
      var i := 0;
      while i < |substrs|
        invariant 0 <= i <= |substrs|
        invariant dataNoDup == [] ==> eofNoDup == eof
        invariant Dedup(substrs, data, begin, eof) == Dedup(substrs[i..], dataNoDup, indexBegin, eofNoDup)
      {
        if |dataNoDup| == 0 && !eof {
          return Duplicate;
        }
        if |dataNoDup| == 0 && eof {
          break;
        }
        assert substrs[i..][0] == substrs[i] && substrs[i..][1..] == substrs[i + 1..];
        o := CompareWith(substrs[i], dataNoDup, indexBegin, eofNoDup);
        if !o.Fresh? {
          return;
        }
        dataNoDup, indexBegin, eofNoDup := o.data, o.begin, o.eof;
        i := i + 1;
      }
      o := Fresh(dataNoDup, indexBegin, eofNoDup);
    }

    // Makes `need - empty` bytes of room in the highest piece, or drops it.
    method PopOnce(need: nat, empty: nat)
      requires Valid() && substrs != [] && empty < need
      modifies this`substrs, this`substrsSize
      ensures Valid()
      ensures if |old(substrs)[0].data| + empty > need
              then substrs == [Shear(old(substrs)[0], empty, need)] + old(substrs)[1..]
                   && substrsSize == (old(substrsSize) - need) % TWO_64
              else substrs == old(substrs)[1..] && substrsSize == (old(substrsSize) - |old(substrs)[0].data|) % TWO_64
      ensures Total(substrs) + |substrs| < old(Total(substrs) + |substrs|)
    {
      if |substrs[0].data| + empty > need {
        substrs := [substrs[0].(data := substrs[0].data[..|substrs[0].data| + empty - need])] + substrs[1..];
        substrsSize := (substrsSize - need) % TWO_64;
      } else {
        substrsSize := (substrsSize - |substrs[0].data|) % TWO_64;
        substrs := substrs[1..];
      }
    }

    // Pops the highest pieces until `data` can be added.
    method PopHighest(data: seq<byte>, begin: nat) returns (kept: seq<byte>)
      requires Valid()
      modifies this`substrs, this`substrsSize
      ensures Valid()
      ensures Space(substrs, substrsSize, kept)
              == Evict(capacity, |output.buffer|, old(substrs), old(substrsSize), data, begin)
    {
      kept := data;
      var empty := EmptySize();
      while empty < |kept|
        invariant Valid() && kept == data && empty == State().EmptySize()
        invariant Evict(capacity, |output.buffer|, substrs, substrsSize, data, begin)
                  == Evict(capacity, |output.buffer|, old(substrs), old(substrsSize), data, begin)
        decreases Total(substrs) + |substrs|
      {
        if |substrs| == 0 || substrs[0].index < begin {
          kept := kept[..empty];
          break;
        }
        PopOnce(|kept|, empty);
        empty := EmptySize();
      }
    }

    // Makes room for `data` at `begin`, giving up stored bytes from the top.
    method FreeSpace(data: seq<byte>, begin: nat) returns (stored: bool, kept: seq<byte>)
      requires Valid()
      modifies this`substrs, this`substrsSize
      ensures Valid()
      ensures MakeSpace(capacity, |output.buffer|, old(substrs), old(substrsSize), data, begin)
              == if stored then Space(substrs, substrsSize, kept) else NoSpace
      ensures !stored ==> State() == old(State())
    {
      kept, stored := data, true;
      var empty := EmptySize();
      if |kept| <= empty {
        return;
      }
      if |substrs| == 0 {
        kept := kept[..empty];
        return;
      }
      if substrs[0].index < begin {
        stored := false;
        return;
      }
      if |substrs[0].data| + empty > |kept| {
        substrs := [substrs[0].(data := substrs[0].data[..|substrs[0].data| + empty - |kept|], eof := false)] + substrs[1..];
        substrsSize := (substrsSize - |kept|) % TWO_64;
        return;
      }
      substrsSize := (substrsSize - |substrs[0].data|) % TWO_64;
      substrs := substrs[1..];
      kept := PopHighest(data, begin);
    }

    // Moves the piece that is next in order to the output, or as much of it as fits.
    method WriteNext(room: nat)
      requires Valid() && !Drained(State()) && room == State().out.Remaining()
      modifies this`substrs, this`substrsSize, output
      ensures Valid() && State() == DrainOne(old(State()))
    {
      var sizeWrite := room;
      var seg := At(substrs, output.written);
      substrs := Without(substrs, output.written);
      if sizeWrite >= |seg.data| {
        var _ := output.Write(seg.data);
        if seg.eof {
          output.EndInput();
        }
        sizeWrite := |seg.data|;
      } else {
        var _ := output.Write(seg.data[..sizeWrite]);
        seg := seg.(index := seg.index + sizeWrite, data := seg.data[sizeWrite..]);
        substrs := Insert(substrs, seg);
      }
      substrsSize := (substrsSize - sizeWrite) % TWO_64;
    }

    method WriteInOrder()
      requires Valid()
      modifies this`substrs, this`substrsSize, output
      ensures Valid() && State() == Drain(old(State()))
    {
      while HasKey(substrs, output.written)
        invariant Valid() && Drain(State()) == Drain(old(State()))
        decreases |substrs|, State().out.Remaining()
      {
        var sizeWrite := output.RemainingCapacity();
        if sizeWrite == 0 {
          break;
        }
        WriteNext(sizeWrite);
      }
    }

    method StorePiece(data: seq<byte>, begin: nat, eof: bool)
      requires Valid()
      modifies this`substrs, this`substrsSize, output
      ensures Valid() && State() == Store(old(State()), data, begin, eof)
    {
      var stored, kept := FreeSpace(data, begin);
      if !stored {
        return;
      }
      substrs := Insert(substrs, Piece(eof, kept, begin));
      substrsSize := (substrsSize + |kept|) % TWO_64;
      WriteInOrder();
    }

    // What is left of a push without the bytes already written or stored.
    method RemoveKnown(data: seq<byte>, index: nat, eof: bool) returns (o: Overlap)
      requires Valid()
      ensures o == Plan(State(), data, index, eof)
    {
      var remaining := output.RemainingCapacity();
      if index >= output.written + remaining {
        return Duplicate;
      }
      var dataNoDup, indexBegin := data, index;
      if output.written > index {
        var startIndex := output.written - index;
        if startIndex >= |dataNoDup| {
          return Duplicate;
        }
        dataNoDup := dataNoDup[startIndex..];
        indexBegin := output.written;
      }
      o := RemoveStored(dataNoDup, indexBegin, eof);
    }

    method PushSubstring(data: seq<byte>, index: nat, eof: bool)
      requires Valid()
      modifies this`substrs, this`substrsSize, output
      ensures Valid() && State() == Push(old(State()), data, index, eof)
      decreases |data|
    {
      ghost var r := State();
      var o := RemoveKnown(data, index, eof);
      match o {
        case Duplicate =>
          return;
        case Split(left, right) =>
          PushSubstring(left.data, left.index, left.eof);
          ghost var r1 := State();
          assert r1 == Push(r, left.data, left.index, left.eof);
          PushSubstring(right.data, right.index, right.eof);
          assert State() == Push(r1, right.data, right.index, right.eof);
        case Fresh(rest, begin, mark) =>
          StorePiece(rest, begin, mark);
      }
    }

    function UnassembledBytes(): (n: u64)
      reads this
    {
      substrsSize
    }

    predicate Empty()
      reads this
    {
      |substrs| == 0
    }
  }
}

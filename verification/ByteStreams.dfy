/** The bounded in-order byte stream. */
module ByteStreams {
  import opened Numbers

  // What a byte stream is, abstractly: every byte ever accepted, in order, and
  // how many of them have been taken out at the other end.
  datatype Stream = Stream(capacity: nat, bytes: seq<byte>, read: nat, ended: bool, error: bool) {
    ghost predicate Valid() {
      read <= |bytes| && |bytes| - read <= capacity
    }

    function Written(): nat {
      |bytes|
    }

    // One past the last stream index there is room for.
    function Edge(): nat {
      read + capacity
    }

    function Remaining(): nat
      requires Valid()
    {
      capacity - (|bytes| - read)
    }

    function Buffer(): seq<byte>
      requires Valid()
    {
      bytes[read..]
    }

    predicate Eof() {
      ended && read >= |bytes|
    }

    function Write(data: seq<byte>): (s: Stream)
      requires Valid()
      ensures s.Valid()
    {
      this.(bytes := bytes + data[..Min(Remaining(), |data|)])
    }

    function Pop(len: nat): (s: Stream)
      requires Valid()
      ensures s.Valid()
    {
      this.(read := read + Min(len, |bytes| - read))
    }

    function End(): Stream {
      this.(ended := true)
    }

    function Fail(): Stream {
      this.(error := true)
    }
  }

  function EmptyStream(capacity: nat): (s: Stream)
    ensures s.Valid() && s.Buffer() == [] && s.Remaining() == capacity
  {
    Stream(capacity, [], 0, false, false)
  }

  // Nothing is lost, reordered or invented: whatever is written and then
  // popped, in any pieces, comes out as one contiguous run of the input.
  lemma PopsAreContiguous(s: Stream, a: nat, b: nat)
    requires s.Valid()
    ensures s.Pop(a).Pop(b) == s.Pop(a + b)
    ensures s.Buffer() == s.bytes[s.read..s.Pop(a).read] + s.Pop(a).Buffer()
  {
  }

  // Splitting a write does not change its effect.
  lemma WritesConcatenate(s: Stream, x: seq<byte>, y: seq<byte>)
    requires s.Valid()
    ensures s.Write(x).Write(y) == s.Write(x + y)
  {
    var n, m := Min(s.Remaining(), |x|), Min(s.Write(x).Remaining(), |y|);
    assert Min(s.Remaining(), |x + y|) == n + m;
    assert (x + y)[..n + m] == x[..n] + y[..m];
  }

  class ByteStream {
    const capacity: nat
    var buffer: seq<byte>
    var written: nat
    var bytesRead: nat
    var inputEnd: bool
    var error: bool
    ghost var history: seq<byte>

    ghost predicate Valid()
      reads this
    {
      && written == |history| && bytesRead <= written
      && buffer == history[bytesRead..]
      && |buffer| <= capacity
    }

    ghost function State(): (s: Stream)
      requires Valid()
      reads this
      ensures s.Valid() && s.Buffer() == buffer
    {
      Stream(capacity, history, bytesRead, inputEnd, error)
    }

    constructor (capacity: nat)
      ensures Valid() && State() == EmptyStream(capacity)
    {
      this.capacity := capacity;
      written, bytesRead, buffer, inputEnd, error := 0, 0, [], false, false;
      history := [];
    }

    method Write(data: seq<byte>) returns (accepted: nat)
      requires Valid()
      modifies this
      ensures Valid() && State() == old(State()).Write(data)
      ensures accepted == |history| - |old(history)|
    {
      accepted := RemainingCapacity();
      accepted := Min(accepted, |data|);
      buffer := buffer + data[..accepted];
      written := written + accepted;
      history := history + data[..accepted];
    }

    method PeekOutput(len: nat) returns (s: seq<byte>)
      requires Valid()
      ensures s == history[bytesRead..State().Pop(len).read]
    {
      s := buffer[..Min(len, |buffer|)];
    }

    method PopOutput(len: nat)
      requires Valid()
      modifies this
      ensures Valid() && State() == old(State()).Pop(len)
    {
      var taken := Min(len, |buffer|);
      buffer := buffer[taken..];
      bytesRead := bytesRead + taken;
    }

    method Read(len: nat) returns (s: seq<byte>)
      requires Valid()
      modifies this
      ensures Valid() && State() == old(State()).Pop(len)
      ensures s == history[old(bytesRead)..bytesRead]
    {
      s := PeekOutput(len);
      PopOutput(len);
    }

    method EndInput()
      requires Valid()
      modifies this
      ensures Valid() && State() == old(State()).End()
    {
      inputEnd := true;
    }

    method SetError()
      requires Valid()
      modifies this
      ensures Valid() && State() == old(State()).Fail()
    {
      error := true;
    }

    function BufferSize(): (n: nat)
      reads this
    {
      |buffer|
    }

    predicate Eof()
      reads this
      ensures Valid() ==> Eof() == State().Eof()
    {
      inputEnd && |buffer| == 0
    }

    method RemainingCapacity() returns (n: nat)
      requires Valid()
      ensures n == State().Remaining()
    {
      n := capacity - |buffer|;
    }
  }
}

/** Reading and writing integers in network byte order. */
module NetParsers {
  import opened Numbers

  datatype ParseResult = NoError | BadChecksum | PacketTooShort | WrongIpVersion | HeaderTooShort | TruncatedPacket

  // The number that bytes stand for, most significant first.
  function Number(bytes: seq<byte>): nat {
    if bytes == [] then 0 else Number(bytes[..|bytes| - 1]) * 256 + bytes[|bytes| - 1]
  }

  // `_unparse_int`: the low `width` bytes of a number, most significant first.
  function Bytes(value: nat, width: nat): (bytes: seq<byte>)
    ensures |bytes| == width
  {
    if width == 0 then [] else Bytes(value / 256, width - 1) + [value % 256]
  }

  // What is left to parse, and the first error so far.
  datatype Parser = Parser(rest: seq<byte>, error: ParseResult) {
    function CheckSize(n: nat): Parser {
      if n > |rest| then this.(error := PacketTooShort) else this
    }

    // `_parse_int`: the number read, 0 after an error.
    function Int(width: nat): (nat, Parser) {
      var p := CheckSize(width);
      if p.error != NoError then (0, p) else (Number(rest[..width]), p.(rest := rest[width..]))
    }

    function RemovePrefix(n: nat): Parser {
      var p := CheckSize(n);
      if p.error != NoError then p else p.(rest := rest[n..])
    }

    // Several numbers in a row.
    function Ints(widths: seq<nat>): (r: (seq<nat>, Parser))
      ensures |r.0| == |widths|
      decreases |widths|
    {
      if widths == [] then ([], this)
      else
        var (value, p) := Int(widths[0]);
        var (values, p') := p.Ints(widths[1..]);
        ([value] + values, p')
    }
  }

  // A number and how many bytes it takes.
  datatype Field = Field(value: nat, width: nat)

  function Encode(fields: seq<Field>, tail: seq<byte>): seq<byte> {
    if fields == [] then tail else Bytes(fields[0].value, fields[0].width) + Encode(fields[1..], tail)
  }

  // Every number fits its width.
  ghost predicate Fit(fields: seq<Field>) {
    forall i | 0 <= i < |fields| :: fields[i].value < Pow2(8 * fields[i].width)
  }

  function Widths(fields: seq<Field>): seq<nat> {
    seq(|fields|, i requires 0 <= i < |fields| => fields[i].width)
  }

  function Values(fields: seq<Field>): seq<nat> {
    seq(|fields|, i requires 0 <= i < |fields| => fields[i].value)
  }

  // ------------------------------------------------------------------ round trip

  lemma {:induction false} NumberOfBytes(value: nat, width: nat)
    requires value < Pow2(8 * width)
    ensures Number(Bytes(value, width)) == value
    decreases width
  {
    if width > 0 {
      var bytes := Bytes(value, width);
      Pow2Add(8, 8 * (width - 1));
      assert Pow2(8) == 256;
      assert Pow2(8 * width) == 256 * Pow2(8 * (width - 1));
      assert value / 256 < Pow2(8 * (width - 1));
      NumberOfBytes(value / 256, width - 1);
      assert bytes[..width - 1] == Bytes(value / 256, width - 1) && bytes[width - 1] == value % 256;
    }
  }

  lemma IntOfBytes(value: nat, width: nat, tail: seq<byte>)
    requires value < Pow2(8 * width)
    ensures Parser(Bytes(value, width) + tail, NoError).Int(width) == (value, Parser(tail, NoError))
  {
    NumberOfBytes(value, width);
    assert (Bytes(value, width) + tail)[..width] == Bytes(value, width);
    assert (Bytes(value, width) + tail)[width..] == tail;
  }

  // What is written field by field is read back field by field.
  lemma {:induction false} IntsOfEncode(fields: seq<Field>, tail: seq<byte>)
    requires Fit(fields)
    ensures Parser(Encode(fields, tail), NoError).Ints(Widths(fields)) == (Values(fields), Parser(tail, NoError))
    decreases |fields|
  {
    if fields != [] {
      var f := fields[0];
      IntOfBytes(f.value, f.width, Encode(fields[1..], tail));
      IntsOfEncode(fields[1..], tail);
      assert Widths(fields)[1..] == Widths(fields[1..]);
      assert [f.value] + Values(fields[1..]) == Values(fields);
    }
  }

  lemma {:induction false} EncodeSplits(fields: seq<Field>, tail: seq<byte>)
    ensures Encode(fields, tail) == Encode(fields, []) + tail
  {
    if fields != [] {
      EncodeSplits(fields[1..], tail);
    }
  }

  lemma EncodeAppends(fields: seq<Field>, x: seq<byte>, y: seq<byte>)
    ensures Encode(fields, x) + y == Encode(fields, x + y)
  {
    EncodeSplits(fields, x);
    EncodeSplits(fields, x + y);
  }

  lemma {:induction false} EncodeJoins(xs: seq<Field>, ys: seq<Field>, tail: seq<byte>)
    ensures Encode(xs + ys, tail) == Encode(xs, Encode(ys, tail))
  {
    if xs == [] {
      assert xs + ys == ys;
    } else {
      assert (xs + ys)[0] == xs[0] && (xs + ys)[1..] == xs[1..] + ys;
      EncodeJoins(xs[1..], ys, tail);
    }
  }

  function Size(fields: seq<Field>): nat {
    if fields == [] then 0 else fields[0].width + Size(fields[1..])
  }

  lemma {:induction false} EncodeSize(fields: seq<Field>, tail: seq<byte>)
    ensures |Encode(fields, tail)| == Size(fields) + |tail|
  {
    if fields != [] {
      EncodeSize(fields[1..], tail);
    }
  }

  lemma WordBytes(x: u16)
    ensures Bytes(x, 2) == [x / 256, x % 256]
  {
    assert Bytes(x / 256, 1) == Bytes(x / 256 / 256, 0) + [x / 256 % 256];
  }

  // A word, then the other fields.
  lemma EncodeWord(x: u16, fields: seq<Field>, tail: seq<byte>)
    ensures Encode([Field(x, 2)] + fields, tail) == [x / 256, x % 256] + Encode(fields, tail)
  {
    WordBytes(x);
    assert ([Field(x, 2)] + fields)[1..] == fields;
  }

  lemma WidthBounds()
    ensures Pow2(8) == TWO_8 && Pow2(16) == TWO_16 && Pow2(32) == TWO_32
  {
    assert Pow2(8) == 256;
    Pow2Add(8, 8);
    PowersOfTwo();
  }

  class NetParser {
    var buffer: seq<byte>
    var error: ParseResult

    ghost function State(): Parser
      reads this
    {
      Parser(buffer, error)
    }

    constructor (buffer: seq<byte>)
      ensures State() == Parser(buffer, NoError)
    {
      this.buffer, error := buffer, NoError;
    }

    method CheckSize(size: nat)
      modifies this`error
      ensures State() == old(State()).CheckSize(size)
    {
      if size > |buffer| {
        error := PacketTooShort;
      }
    }

    method ParseInt(width: nat) returns (ret: nat)
      modifies this
      ensures (ret, State()) == old(State()).Int(width)
    {
      CheckSize(width);
      if error != NoError {
        return 0;
      }
      ret := 0;
      var i := 0;
      while i < width
        invariant 0 <= i <= width <= |buffer| && ret == Number(buffer[..i])
      {
        assert buffer[..i + 1][..i] == buffer[..i];
        ret := ret * 256 + buffer[i];
        i := i + 1;
      }
      buffer := buffer[width..];
    }

    method RemovePrefix(n: nat)
      modifies this
      ensures State() == old(State()).RemovePrefix(n)
    {
      CheckSize(n);
      if error != NoError {
        return;
      }
      buffer := buffer[n..];
    }
  }

  // `value >> 8 * n`
  function DropBytes(value: nat, n: nat): nat {
    if n == 0 then value else DropBytes(value, n - 1) / 256
  }

  // The bytes of a number, pushed one by one.
  method UnparseInt(s: seq<byte>, value: nat, width: nat) returns (s': seq<byte>)
    ensures s' == s + Bytes(value, width)
  {
    s' := s;
    var i := 0;
    while i < width
      invariant 0 <= i <= width && s' == s + Bytes(DropBytes(value, width - i), i)
    {
      s' := s' + [DropBytes(value, width - i - 1) % 256];
      i := i + 1;
    }
  }
}

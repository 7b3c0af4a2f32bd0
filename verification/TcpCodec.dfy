/** TCP headers and segments as bytes. */
module TcpCodec {
  import opened Numbers
  import opened Options
  import opened TcpSegments
  import opened Checksums
  import opened NetParsers

  const TCP_LENGTH: nat := 20

  function Bit(b: bool, weight: nat): nat {
    if b then weight else 0
  }

  function Flags(h: TcpHeader): (f: byte) {
    Bit(h.urg, 32) + Bit(h.ack, 16) + Bit(h.psh, 8) + Bit(h.rst, 4) + Bit(h.syn, 2) + Bit(h.fin, 1)
  }

  // Bit `weight` of a byte is set.
  predicate Test(b: nat, weight: nat)
    requires weight > 0
  {
    b / weight % 2 == 1
  }

  lemma FlagsTest(h: TcpHeader)
    ensures Test(Flags(h), 32) == h.urg && Test(Flags(h), 16) == h.ack && Test(Flags(h), 8) == h.psh
    ensures Test(Flags(h), 4) == h.rst && Test(Flags(h), 2) == h.syn && Test(Flags(h), 1) == h.fin
  {
  }

  // The fields before the checksum, and from it on.
  function Front(h: TcpHeader): seq<Field> {
    [Field(h.sport, 2), Field(h.dport, 2), Field(h.seqno, 4), Field(h.ackno, 4),
     Field(h.doff * 16 % TWO_8, 1), Field(Flags(h), 1), Field(h.win, 2)]
  }

  function Fields(h: TcpHeader): seq<Field> {
    Front(h) + [Field(h.cksum, 2), Field(h.uptr, 2)]
  }

  const TCP_WIDTHS: seq<nat> := [2, 2, 4, 4, 1, 1, 2, 2, 2]

  function Zeros(n: nat): (z: seq<byte>)
    ensures |z| == n
  {
    seq(n, _ => 0)
  }

  // `TCPHeader::serialize`; a header length below the minimum is an error.
  function SerializeHeader(h: TcpHeader): Option<seq<byte>> {
    if h.doff < 5 then None else Some(Encode(Fields(h), Zeros(4 * h.doff - TCP_LENGTH)))
  }

  function HeaderOf(v: seq<nat>): TcpHeader
    requires |v| == |TCP_WIDTHS|
  {
    TcpHeader(v[0] % TWO_16, v[1] % TWO_16, v[2] % TWO_32, v[3] % TWO_32, v[4] % TWO_8 / 16,
              Test(v[5], 32), Test(v[5], 16), Test(v[5], 8), Test(v[5], 4), Test(v[5], 2), Test(v[5], 1),
              v[6] % TWO_16, v[7] % TWO_16, v[8] % TWO_16)
  }

  // `TCPHeader::parse`: the header and what is left.
  function ParseHeader(p: Parser): (TcpHeader, Parser) {
    var (values, p1) := p.Ints(TCP_WIDTHS);
    var h := HeaderOf(values);
    (h, if h.doff < 5 then p1 else p1.RemovePrefix(h.doff * 4 - TCP_LENGTH))
  }

  // `TCPSegment::serialize`, given the sum of the pseudo-header.
  function SerializeSegment(seg: TcpSegment, pseudo: u32): Option<seq<byte>> {
    match SerializeHeader(seg.header.(cksum := 0))
    case None => None
    case Some(zeroed) =>
      var cksum := Check(pseudo, false).Add(zeroed).Add(seg.payload).Value();
      match SerializeHeader(seg.header.(cksum := cksum))
      case None => None
      case Some(header) => Some(header + seg.payload)
  }

  // `TCPSegment::parse`; without an error, the segment.
  function ParseSegment(bytes: seq<byte>, pseudo: u32): (ParseResult, TcpSegment) {
    if Check(pseudo, false).Add(bytes).Value() != 0 then (BadChecksum, EmptySegment())
    else
      var (h, p) := ParseHeader(Parser(bytes, NoError));
      (p.error, TcpSegment(h, p.rest))
  }

  // ------------------------------------------------------------------ round trip

  lemma FieldsFit(h: TcpHeader)
    ensures Fit(Fields(h)) && Widths(Fields(h)) == TCP_WIDTHS
  {
    WidthBounds();
  }

  lemma HeaderOfFields(h: TcpHeader)
    requires h.doff <= 15
    ensures HeaderOf(Values(Fields(h))) == h
  {
    FlagsTest(h);
  }

  // A header that fits its length field is read back as it was written.
  lemma HeaderRoundTrip(h: TcpHeader, payload: seq<byte>)
    requires 5 <= h.doff <= 15
    ensures ParseHeader(Parser(SerializeHeader(h).value + payload, NoError)) == (h, Parser(payload, NoError))
  {
    var pad := Zeros(4 * h.doff - TCP_LENGTH);
    FieldsFit(h);
    IntsOfEncode(Fields(h), pad + payload);
    EncodeAppends(Fields(h), pad, payload);
    HeaderOfFields(h);
    assert (pad + payload)[|pad|..] == payload;
  }

  lemma FrontSize(h: TcpHeader)
    ensures |Encode(Front(h), [])| == 16
  {
    var f := Front(h);
    EncodeSize(f, []);
    assert f[1..][1..] == f[2..] && f[2..][1..] == f[3..] && f[3..][1..] == f[4..];
    assert f[4..][1..] == f[5..] && f[5..][1..] == f[6..] && f[6..][1..] == [];
    assert Size(f[6..]) == 2 && Size(f[4..]) == 4 && Size(f[2..]) == 12;
  }

  // Where the checksum is.
  lemma ChecksumPlace(h: TcpHeader, cksum: u16, tail: seq<byte>)
    ensures Encode(Fields(h.(cksum := cksum)), tail)
            == Encode(Front(h), []) + [cksum / 256, cksum % 256] + (Bytes(h.uptr, 2) + tail)
  {
    var rest := [Field(h.uptr, 2)];
    assert Fields(h.(cksum := cksum)) == Front(h) + ([Field(cksum, 2)] + rest);
    EncodeJoins(Front(h), [Field(cksum, 2)] + rest, tail);
    EncodeSplits(Front(h), Encode([Field(cksum, 2)] + rest, tail));
    EncodeWord(cksum, rest, tail);
    assert Encode(rest, tail) == Bytes(h.uptr, 2) + tail by {
      assert rest[1..] == [];
    }
  }

  // The bytes of a segment, with the checksum it gets.
  function ChecksumOf(seg: TcpSegment, pseudo: u32): u16
    requires seg.header.doff >= 5
  {
    Check(pseudo, false).Add(SerializeHeader(seg.header.(cksum := 0)).value).Add(seg.payload).Value()
  }

  lemma SegmentBytes(seg: TcpSegment, cksum: u16)
    requires seg.header.doff >= 5
    ensures var h := seg.header;
            SerializeHeader(h.(cksum := cksum)).value + seg.payload
            == Encode(Front(h), []) + [cksum / 256, cksum % 256]
               + (Bytes(h.uptr, 2) + (Zeros(4 * h.doff - TCP_LENGTH) + seg.payload))
  {
    var h, pad := seg.header, Zeros(4 * seg.header.doff - TCP_LENGTH);
    EncodeAppends(Fields(h.(cksum := cksum)), pad, seg.payload);
    ChecksumPlace(h, cksum, pad + seg.payload);
  }

  // The inserted checksum verifies to zero.
  lemma SegmentVerifies(seg: TcpSegment, pseudo: u32)
    requires 5 <= seg.header.doff && 4 * seg.header.doff + |seg.payload| <= 0xffff && pseudo <= 0x10_0000
    ensures SerializeSegment(seg, pseudo).Some?
    ensures Check(pseudo, false).Add(SerializeSegment(seg, pseudo).value).Value() == 0
  {
    var h, c := seg.header, ChecksumOf(seg, pseudo);
    var pre, post := Encode(Front(h), []), Bytes(h.uptr, 2) + (Zeros(4 * h.doff - TCP_LENGTH) + seg.payload);
    FrontSize(h);
    ChunksDoNotMatter(Check(pseudo, false), SerializeHeader(h.(cksum := 0)).value, seg.payload);
    SegmentBytes(seg, 0);
    SegmentBytes(seg, c);
    InsertedChecksumVerifies(pseudo, pre, post);
  }

  lemma SegmentSize(seg: TcpSegment, pseudo: u32)
    requires 5 <= seg.header.doff
    ensures SerializeSegment(seg, pseudo).Some? && |SerializeSegment(seg, pseudo).value| == 4 * seg.header.doff + |seg.payload|
  {
    FrontSize(seg.header);
    SegmentBytes(seg, ChecksumOf(seg, pseudo));
  }

  // A segment survives being written and read, up to the checksum.
  lemma SegmentRoundTrip(seg: TcpSegment, pseudo: u32)
    requires 5 <= seg.header.doff <= 15 && 4 * seg.header.doff + |seg.payload| <= 0xffff && pseudo <= 0x10_0000
    ensures SerializeSegment(seg, pseudo).Some?
    ensures ParseSegment(SerializeSegment(seg, pseudo).value, pseudo)
            == (NoError, seg.(header := seg.header.(cksum := ChecksumOf(seg, pseudo))))
  {
    SegmentVerifies(seg, pseudo);
    HeaderRoundTrip(seg.header.(cksum := ChecksumOf(seg, pseudo)), seg.payload);
  }
}

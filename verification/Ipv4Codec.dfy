/** IPv4 headers and datagrams as bytes. */
module Ipv4Codec {
  import opened Numbers
  import opened Options
  import opened IpDatagrams
  import opened Checksums
  import opened NetParsers
  import opened TcpCodec

  const IP_LENGTH: nat := 20

  function Fragment(h: Ipv4Header): (f: u16) {
    Bit(h.df, 0x4000) + Bit(h.mf, 0x2000) + h.offset % 0x2000
  }

  // The fields before the checksum, and after it.
  function IpFront(h: Ipv4Header): seq<Field> {
    [Field((h.ver * 16 + h.hlen % 16) % TWO_8, 1), Field(h.tos, 1), Field(h.len, 2), Field(h.id, 2),
     Field(Fragment(h), 2), Field(h.ttl, 1), Field(h.proto, 1)]
  }

  function IpBack(h: Ipv4Header): seq<Field> {
    [Field(h.src, 4), Field(h.dst, 4)]
  }

  function IpFields(h: Ipv4Header): seq<Field> {
    IpFront(h) + ([Field(h.cksum, 2)] + IpBack(h))
  }

  const IP_WIDTHS: seq<nat> := [1, 1, 2, 2, 2, 1, 1, 2, 4, 4]

  // `IPv4Header::serialize`; a wrong version or a header length below the
  // minimum is an error.
  function SerializeIpHeader(h: Ipv4Header): Option<seq<byte>> {
    if h.ver != 4 || 4 * h.hlen < IP_LENGTH then None
    else Some(Encode(IpFields(h), Zeros(4 * h.hlen - IP_LENGTH)))
  }

  function IpHeaderOf(v: seq<nat>): Ipv4Header
    requires |v| == |IP_WIDTHS|
  {
    Ipv4Header(v[0] % TWO_8 / 16, v[0] % 16, v[1] % TWO_8, v[2] % TWO_16, v[3] % TWO_16,
               Test(v[4], 0x4000), Test(v[4], 0x2000), v[4] % 0x2000,
               v[5] % TWO_8, v[6] % TWO_8, v[7] % TWO_16, v[8] % TWO_32, v[9] % TWO_32)
  }

  // `IPv4Header::parse`: the header, what is left and the verdict.  Input too
  // short for a header leaves the header as it was built.
  function ParseIpHeader(p: Parser): (Ipv4Header, Parser, ParseResult) {
    if |p.rest| < IP_LENGTH then (DefaultIpHeader(), p, PacketTooShort)
    else
      var (values, p1) := p.Ints(IP_WIDTHS);
      var h := IpHeaderOf(values);
      var (p2, result) := Judge(p.rest, h, p1);
      (h, p2, result)
  }

  // The verdict on header `h` of `bytes`; the options are skipped.
  function Judge(bytes: seq<byte>, h: Ipv4Header, p: Parser): (Parser, ParseResult) {
    if |bytes| < 4 * h.hlen then (p, PacketTooShort)
    else if h.ver != 4 then (p, WrongIpVersion)
    else if h.hlen < 5 then (p, HeaderTooShort)
    else if |bytes| != h.len then (p, TruncatedPacket)
    else
      var p1 := p.RemovePrefix(h.hlen * 4 - IP_LENGTH);
      if p1.error != NoError then (p1, p1.error)
      else if Check(0, false).Add(bytes[..4 * h.hlen]).Value() != 0 then (p1, BadChecksum)
      else (p1, NoError)
  }

  // `IPv4Datagram::serialize`; a payload that is not as long as the header says
  // is an error.
  function SerializeDatagram(d: InternetDatagram): Option<seq<byte>> {
    if |d.payload| != d.header.PayloadLength() then None
    else
      match SerializeIpHeader(d.header.(cksum := 0))
      case None => None
      case Some(zeroed) =>
        var cksum := Check(0, false).Add(zeroed).Value();
        match SerializeIpHeader(d.header.(cksum := cksum))
        case None => None
        case Some(header) => Some(header + d.payload)
  }

  // `IPv4Datagram::parse`: the verdict on the header is not looked at.
  function ParseDatagram(bytes: seq<byte>): (ParseResult, InternetDatagram) {
    var (h, p, _) := ParseIpHeader(Parser(bytes, NoError));
    (if |p.rest| != h.PayloadLength() then PacketTooShort else p.error, InternetDatagram(h, p.rest))
  }

  // ------------------------------------------------------------------ round trip

  // A header whose fields fit and that tells the length of the datagram.
  ghost predicate Regular(d: InternetDatagram) {
    && d.header.ver == 4 && 5 <= d.header.hlen <= 15 && d.header.offset < 0x2000
    && d.header.len == 4 * d.header.hlen + |d.payload|
  }

  lemma IpFieldsFit(h: Ipv4Header)
    ensures Fit(IpFields(h)) && Widths(IpFields(h)) == IP_WIDTHS
  {
    WidthBounds();
  }

  lemma FragmentTest(h: Ipv4Header)
    requires h.offset < 0x2000
    ensures Test(Fragment(h), 0x4000) == h.df && Test(Fragment(h), 0x2000) == h.mf && Fragment(h) % 0x2000 == h.offset
  {
  }

  lemma IpHeaderOfFields(h: Ipv4Header)
    requires h.ver == 4 && h.hlen <= 15 && h.offset < 0x2000
    ensures IpHeaderOf(Values(IpFields(h))) == h
  {
    FragmentTest(h);
  }

  lemma IpFrontSize(h: Ipv4Header)
    ensures |Encode(IpFront(h), [])| == 10
  {
    var f := IpFront(h);
    EncodeSize(f, []);
    assert f[1..][1..] == f[2..] && f[2..][1..] == f[3..] && f[3..][1..] == f[4..];
    assert f[4..][1..] == f[5..] && f[5..][1..] == f[6..] && f[6..][1..] == [];
    assert Size(f[6..]) == 1 && Size(f[4..]) == 4 && Size(f[2..]) == 8;
  }

  lemma IpChecksumPlace(h: Ipv4Header, cksum: u16, tail: seq<byte>)
    ensures Encode(IpFields(h.(cksum := cksum)), tail)
            == Encode(IpFront(h), []) + [cksum / 256, cksum % 256] + Encode(IpBack(h), tail)
  {
    var back := [Field(cksum, 2)] + IpBack(h);
    assert IpFields(h.(cksum := cksum)) == IpFront(h) + back;
    EncodeJoins(IpFront(h), back, tail);
    EncodeSplits(IpFront(h), Encode(back, tail));
    EncodeWord(cksum, IpBack(h), tail);
  }

  lemma IpBackSize(h: Ipv4Header, tail: seq<byte>)
    ensures |Encode(IpBack(h), tail)| == 8 + |tail|
  {
    EncodeSize(IpBack(h), tail);
    assert IpBack(h)[1..][1..] == [] && Size(IpBack(h)[1..]) == 4;
  }

  function IpChecksumOf(h: Ipv4Header): u16
    requires h.ver == 4 && h.hlen >= 5
  {
    Check(0, false).Add(SerializeIpHeader(h.(cksum := 0)).value).Value()
  }

  lemma IpHeaderVerifies(h: Ipv4Header)
    requires h.ver == 4 && 5 <= h.hlen
    ensures var bytes := SerializeIpHeader(h.(cksum := IpChecksumOf(h))).value;
            Check(0, false).Add(bytes).Value() == 0 && |bytes| == 4 * h.hlen
  {
    var pad := Zeros(4 * h.hlen - IP_LENGTH);
    IpFrontSize(h);
    IpBackSize(h, pad);
    IpChecksumPlace(h, 0, pad);
    IpChecksumPlace(h, IpChecksumOf(h), pad);
    InsertedChecksumVerifies(0, Encode(IpFront(h), []), Encode(IpBack(h), pad));
  }

  lemma IpHeaderSize(h: Ipv4Header)
    requires h.ver == 4 && 5 <= h.hlen
    ensures |SerializeIpHeader(h).value| == 4 * h.hlen
  {
    var pad := Zeros(4 * h.hlen - IP_LENGTH);
    IpFrontSize(h);
    IpBackSize(h, pad);
    IpChecksumPlace(h, h.cksum, pad);
  }

  // The fields of a header are read back as they were written.
  lemma IpHeaderReads(h: Ipv4Header, payload: seq<byte>)
    requires h.ver == 4 && 5 <= h.hlen <= 15 && h.offset < 0x2000
    ensures var bytes := SerializeIpHeader(h).value + payload;
            && |bytes| == 4 * h.hlen + |payload|
            && ParseIpHeader(Parser(bytes, NoError))
               == var (p, result) := Judge(bytes, h, Parser(Zeros(4 * h.hlen - IP_LENGTH) + payload, NoError)); (h, p, result)
  {
    var pad := Zeros(4 * h.hlen - IP_LENGTH);
    IpHeaderSize(h);
    IpFieldsFit(h);
    IntsOfEncode(IpFields(h), pad + payload);
    EncodeAppends(IpFields(h), pad, payload);
    IpHeaderOfFields(h);
  }

  // A regular header whose checksum verifies is accepted.
  lemma JudgesRegular(h: Ipv4Header, header: seq<byte>, pad: seq<byte>, payload: seq<byte>)
    requires Regular(InternetDatagram(h, payload))
    requires |header| == 4 * h.hlen && |pad| == 4 * h.hlen - IP_LENGTH && Check(0, false).Add(header).Value() == 0
    ensures Judge(header + payload, h, Parser(pad + payload, NoError)) == (Parser(payload, NoError), NoError)
  {
    assert (header + payload)[..4 * h.hlen] == header;
    assert (pad + payload)[|pad|..] == payload;
  }

  lemma IpHeaderRoundTrip(h: Ipv4Header, payload: seq<byte>)
    requires Regular(InternetDatagram(h, payload)) && h.cksum == IpChecksumOf(h)
    ensures ParseIpHeader(Parser(SerializeIpHeader(h).value + payload, NoError)) == (h, Parser(payload, NoError), NoError)
  {
    IpHeaderReads(h, payload);
    IpHeaderVerifies(h);
    JudgesRegular(h, SerializeIpHeader(h).value, Zeros(4 * h.hlen - IP_LENGTH), payload);
  }

  lemma RegularLength(d: InternetDatagram)
    requires Regular(d)
    ensures d.header.PayloadLength() == |d.payload|
  {
  }

  // A regular datagram survives being written and read, up to the checksum, and
  // the header verifies.
  lemma DatagramRoundTrip(d: InternetDatagram)
    requires Regular(d)
    ensures SerializeDatagram(d).Some?
    ensures ParseDatagram(SerializeDatagram(d).value)
            == (NoError, d.(header := d.header.(cksum := IpChecksumOf(d.header))))
  {
    var h := d.header.(cksum := IpChecksumOf(d.header));
    assert h.(cksum := 0) == d.header.(cksum := 0);
    RegularLength(d);
    RegularLength(d.(header := h));
    assert SerializeDatagram(d) == Some(SerializeIpHeader(h).value + d.payload);
    IpHeaderRoundTrip(h, d.payload);
  }

  // A datagram without options whose length overflows the length field by so
  // little that the payload alone still fits it.
  ghost predicate Overlong(d: InternetDatagram) {
    && d.header.ver == 4 && d.header.hlen == 5 && d.header.offset < 0x2000
    && |d.payload| <= 0xffff < IP_LENGTH + |d.payload| && d.header.len == IP_LENGTH + |d.payload| - TWO_16
  }

  lemma OverlongLength(d: InternetDatagram)
    requires Overlong(d)
    ensures d.header.PayloadLength() == |d.payload|
  {
  }

  lemma OverlongHeaderRoundTrip(h: Ipv4Header, payload: seq<byte>)
    requires Overlong(InternetDatagram(h, payload))
    ensures ParseIpHeader(Parser(SerializeIpHeader(h).value + payload, NoError))
            == (h, Parser(payload, NoError), TruncatedPacket)
  {
    IpHeaderReads(h, payload);
    assert Zeros(0) + payload == payload;
  }

  // Because the verdict on the header is not looked at, such a datagram survives
  // as well.
  lemma OverlongRoundTrip(d: InternetDatagram)
    requires Overlong(d)
    ensures SerializeDatagram(d).Some?
    ensures ParseDatagram(SerializeDatagram(d).value)
            == (NoError, d.(header := d.header.(cksum := IpChecksumOf(d.header))))
  {
    var h := d.header.(cksum := IpChecksumOf(d.header));
    OverlongLength(d);
    OverlongLength(d.(header := h));
    assert SerializeDatagram(d) == Some(SerializeIpHeader(h).value + d.payload);
    OverlongHeaderRoundTrip(h, d.payload);
  }
}

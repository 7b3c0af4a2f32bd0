/** TCP segments in IPv4 datagrams, between two endpoints. */
module TcpOverIp {
  import opened Numbers
  import opened Options
  import opened TcpSegments
  import opened IpDatagrams
  import Checksums
  import opened NetParsers
  import opened TcpCodec
  import opened Ipv4Codec

  datatype Address = Address(ip: u32, port: u16)

  datatype Adapter = Adapter(source: Address, destination: Address, listening: bool)

  // `pseudo_cksum`
  function PseudoSum(h: Ipv4Header): u32 {
    h.src / TWO_16 + h.src % TWO_16 + h.dst / TWO_16 + h.dst % TWO_16 + h.proto + h.PayloadLength()
  }

  // The twelve bytes that stand for the datagram in the checksum of a segment.
  function PseudoHeader(h: Ipv4Header): seq<byte> {
    Bytes(h.src, 4) + Bytes(h.dst, 4) + [0, h.proto] + Bytes(h.PayloadLength(), 2)
  }

  lemma AddressSum(x: u32)
    ensures Checksums.Sum(Bytes(x, 4), false) == x / TWO_16 + x % TWO_16 && !Checksums.Parity(Bytes(x, 4), false)
  {
    var hi, lo := x / TWO_16, x % TWO_16;
    assert Bytes(x, 4) == Bytes(hi, 2) + Bytes(lo, 2) by {
      assert Bytes(x, 4) == Bytes(x / 256, 3) + [x % 256];
      assert Bytes(x / 256, 3) == Bytes(x / 256 / 256, 2) + [x / 256 % 256];
      assert x / 256 / 256 == hi && x % 256 == lo % 256 && x / 256 % 256 == lo / 256;
      WordBytes(lo);
    }
    WordBytes(hi);
    WordBytes(lo);
    Checksums.SumJoin(Bytes(hi, 2), Bytes(lo, 2), false);
    Checksums.SumOfWord(hi / 256, hi % 256);
    Checksums.SumOfWord(lo / 256, lo % 256);
  }

  // The sum that the checksum of a segment starts from is the sum over those bytes.
  lemma PseudoSumIs(h: Ipv4Header)
    ensures PseudoSum(h) == Checksums.Sum(PseudoHeader(h), false)
  {
    var a, b, c, d := Bytes(h.src, 4), Bytes(h.dst, 4), [0, h.proto], Bytes(h.PayloadLength(), 2);
    var n := h.PayloadLength();
    AddressSum(h.src);
    AddressSum(h.dst);
    Checksums.SumOfWord(0, h.proto);
    WordBytes(n);
    Checksums.SumOfWord(n / 256, n % 256);
    Checksums.SumJoin(a, b, false);
    Checksums.SumJoin(a + b, c, false);
    Checksums.SumJoin(a + b + c, d, false);
  }

  // The segment with the ports filled in.
  function Addressed(a: Adapter, seg: TcpSegment): TcpSegment {
    seg.(header := seg.header.(sport := a.source.port, dport := a.destination.port))
  }

  function IpHeaderFor(a: Adapter, seg: TcpSegment): Ipv4Header {
    var h := DefaultIpHeader();
    h.(src := a.source.ip, dst := a.destination.ip, len := (h.hlen * 4 + seg.header.doff * 4 + |seg.payload|) % TWO_16)
  }

  // `wrap_tcp_in_ip`
  function WrapTcp(a: Adapter, seg: TcpSegment): Option<InternetDatagram> {
    var h := IpHeaderFor(a, seg);
    match SerializeSegment(Addressed(a, seg), PseudoSum(h))
    case None => None
    case Some(bytes) => Some(InternetDatagram(h, bytes))
  }

  // The datagram is between the right addresses and claims to carry TCP.
  predicate Concerns(a: Adapter, h: Ipv4Header) {
    (a.listening || (h.dst == a.source.ip && h.src == a.destination.ip)) && h.proto == PROTO_TCP
  }

  // What becomes of a segment that parses.
  function Take(a: Adapter, h: Ipv4Header, seg: TcpSegment): (Option<TcpSegment>, Adapter) {
    if seg.header.dport != a.source.port then (None, a)
    else if a.listening then
      if seg.header.syn && !seg.header.rst
      then (Some(seg), Adapter(Address(h.dst, a.source.port), Address(h.src, seg.header.sport), false))
      else (None, a)
    else if seg.header.sport != a.destination.port then (None, a)
    else (Some(seg), a)
  }

  // `unwrap_tcp_in_ip`: the segment if it is for this endpoint; a listening
  // endpoint takes over the addresses of the first SYN.
  function UnwrapTcp(a: Adapter, d: InternetDatagram): (Option<TcpSegment>, Adapter) {
    if !Concerns(a, d.header) then (None, a)
    else
      var (result, seg) := ParseSegment(d.payload, PseudoSum(d.header));
      if result != NoError then (None, a) else Take(a, d.header, seg)
  }

  // The two ends of one connection.
  ghost predicate Mirrored(a: Adapter, b: Adapter) {
    b.source == a.destination && b.destination == a.source && !b.listening
  }

  // `b` listens on the port that `a` sends to.
  ghost predicate Awaits(a: Adapter, b: Adapter) {
    b.listening && b.source.port == a.destination.port
  }

  // The whole way: into a datagram, into bytes, out of the bytes, out of the
  // datagram.
  function Transport(a: Adapter, b: Adapter, seg: TcpSegment): (Option<TcpSegment>, Adapter) {
    match WrapTcp(a, seg)
    case None => (None, b)
    case Some(d) =>
      match SerializeDatagram(d)
      case None => (None, b)
      case Some(bytes) =>
        var (result, d') := ParseDatagram(bytes);
        if result != NoError then (None, b) else UnwrapTcp(b, d')
  }

  // The header length fits its field, and the segment the length field of the
  // datagram.
  ghost predicate Fits(seg: TcpSegment) {
    5 <= seg.header.doff <= 15 && 4 * seg.header.doff + |seg.payload| <= 0xffff
  }

  lemma WrapShape(a: Adapter, seg: TcpSegment)
    requires 5 <= seg.header.doff
    ensures WrapTcp(a, seg).Some?
    ensures var d := WrapTcp(a, seg).value;
            d.header == IpHeaderFor(a, seg) && |d.payload| == 4 * seg.header.doff + |seg.payload|
  {
    SegmentSize(Addressed(a, seg), PseudoSum(IpHeaderFor(a, seg)));
  }

  // The length field counts modulo 2^16.
  lemma LengthOf(size: nat)
    requires size <= 0xffff
    ensures (20 + size) % TWO_16 == if 20 + size <= 0xffff then 20 + size else 20 + size - TWO_16
  {
  }

  // The segment that arrives.
  function Arriving(a: Adapter, seg: TcpSegment): TcpSegment
    requires 5 <= seg.header.doff
  {
    var out := Addressed(a, seg);
    out.(header := out.header.(cksum := ChecksumOf(out, PseudoSum(IpHeaderFor(a, seg)))))
  }

  // Between the two codecs only the header checksum of the datagram changes.
  lemma DatagramArrives(a: Adapter, seg: TcpSegment)
    requires Fits(seg)
    ensures WrapTcp(a, seg).Some? && SerializeDatagram(WrapTcp(a, seg).value).Some?
    ensures var d := WrapTcp(a, seg).value;
            ParseDatagram(SerializeDatagram(d).value)
            == (NoError, d.(header := d.header.(cksum := IpChecksumOf(d.header))))
  {
    var d := WrapTcp(a, seg).value;
    WrapShape(a, seg);
    LengthOf(|d.payload|);
    if 20 + |d.payload| <= 0xffff {
      DatagramRoundTrip(d);
    } else {
      OverlongRoundTrip(d);
    }
  }

  // The whole way, from what each part of it does.
  lemma TransportVia(a: Adapter, b: Adapter, seg: TcpSegment, d: InternetDatagram, bytes: seq<byte>, d': InternetDatagram, out: TcpSegment)
    requires WrapTcp(a, seg) == Some(d) && SerializeDatagram(d) == Some(bytes) && ParseDatagram(bytes) == (NoError, d')
    requires Concerns(b, d'.header) && ParseSegment(d'.payload, PseudoSum(d'.header)) == (NoError, out)
    ensures Transport(a, b, seg) == Take(b, d'.header, out)
  {
  }

  // Only the addresses of the datagram matter.
  lemma TakeByAddress(b: Adapter, h: Ipv4Header, h': Ipv4Header, seg: TcpSegment)
    requires h'.src == h.src && h'.dst == h.dst && h'.proto == h.proto && h'.PayloadLength() == h.PayloadLength()
    ensures Concerns(b, h') == Concerns(b, h) && Take(b, h', seg) == Take(b, h, seg) && PseudoSum(h') == PseudoSum(h)
  {
  }

  lemma PayloadParses(a: Adapter, seg: TcpSegment)
    requires Fits(seg)
    ensures WrapTcp(a, seg).Some? && WrapTcp(a, seg).value.header == IpHeaderFor(a, seg)
    ensures ParseSegment(WrapTcp(a, seg).value.payload, PseudoSum(IpHeaderFor(a, seg))) == (NoError, Arriving(a, seg))
  {
    SegmentRoundTrip(Addressed(a, seg), PseudoSum(IpHeaderFor(a, seg)));
  }

  // What the other endpoint gets to see.
  lemma TransportIsTake(a: Adapter, b: Adapter, seg: TcpSegment)
    requires Fits(seg) && Concerns(b, IpHeaderFor(a, seg))
    ensures Transport(a, b, seg) == Take(b, IpHeaderFor(a, seg), Arriving(a, seg))
  {
    DatagramArrives(a, seg);
    PayloadParses(a, seg);
    var h, out, d := IpHeaderFor(a, seg), Arriving(a, seg), WrapTcp(a, seg).value;
    var h' := h.(cksum := IpChecksumOf(h));
    TakeByAddress(b, h, h', out);
    TransportVia(a, b, seg, d, SerializeDatagram(d).value, d.(header := h'), out);
  }

  lemma TakeMirrored(a: Adapter, b: Adapter, seg: TcpSegment)
    requires 5 <= seg.header.doff && Mirrored(a, b)
    ensures Concerns(b, IpHeaderFor(a, seg))
    ensures Take(b, IpHeaderFor(a, seg), Arriving(a, seg)) == (Some(Arriving(a, seg)), b)
  {
  }

  lemma TakeAwaited(a: Adapter, b: Adapter, seg: TcpSegment)
    requires 5 <= seg.header.doff && Awaits(a, b) && seg.header.syn && !seg.header.rst
    ensures Concerns(b, IpHeaderFor(a, seg))
    ensures Take(b, IpHeaderFor(a, seg), Arriving(a, seg))
            == (Some(Arriving(a, seg)), Adapter(a.destination, a.source, false))
  {
  }

  // At the mirrored endpoint, and at a listening one if it is a SYN, the same
  // segment comes out, with the ports filled in and the checksum computed.
  lemma TransportRoundTrip(a: Adapter, b: Adapter, seg: TcpSegment)
    requires Fits(seg)
    ensures Mirrored(a, b) ==> Transport(a, b, seg) == (Some(Arriving(a, seg)), b)
    ensures Awaits(a, b) && seg.header.syn && !seg.header.rst ==>
              Transport(a, b, seg) == (Some(Arriving(a, seg)), Adapter(a.destination, a.source, false))
  {
    if Mirrored(a, b) {
      TakeMirrored(a, b, seg);
      TransportIsTake(a, b, seg);
    } else if Awaits(a, b) && seg.header.syn && !seg.header.rst {
      TakeAwaited(a, b, seg);
      TransportIsTake(a, b, seg);
    }
  }

  lemma TakeIff(a: Adapter, b: Adapter, seg: TcpSegment)
    requires 5 <= seg.header.doff && Concerns(b, IpHeaderFor(a, seg))
    ensures var (o, b') := Take(b, IpHeaderFor(a, seg), Arriving(a, seg));
            && (o.Some? <==> Mirrored(a, b) || (Awaits(a, b) && seg.header.syn && !seg.header.rst))
            && (o.None? ==> b' == b)
  {
  }

  lemma ConcernsIff(a: Adapter, b: Adapter, seg: TcpSegment)
    ensures Concerns(b, IpHeaderFor(a, seg)) <==> b.listening || (b.source.ip == a.destination.ip && b.destination.ip == a.source.ip)
  {
  }

  lemma Unconcerned(a: Adapter, b: Adapter, seg: TcpSegment)
    requires Fits(seg) && !Concerns(b, IpHeaderFor(a, seg))
    ensures Transport(a, b, seg) == (None, b)
  {
    DatagramArrives(a, seg);
    PayloadParses(a, seg);
    var h := IpHeaderFor(a, seg);
    TakeByAddress(b, h, h.(cksum := IpChecksumOf(h)), seg);
  }

  // Exactly the endpoint that is meant gets the segment: the mirrored one, or one
  // that listens on the port, and that only if it is a SYN.  Any other drops it and
  // stays as it is.
  lemma OnlyWhoIsMeant(a: Adapter, b: Adapter, seg: TcpSegment)
    requires Fits(seg)
    ensures Transport(a, b, seg).0.Some? <==>
              Mirrored(a, b) || (Awaits(a, b) && seg.header.syn && !seg.header.rst)
    ensures Transport(a, b, seg).0.None? ==> Transport(a, b, seg).1 == b
  {
    ConcernsIff(a, b, seg);
    if Concerns(b, IpHeaderFor(a, seg)) {
      TransportIsTake(a, b, seg);
      TakeIff(a, b, seg);
    } else {
      Unconcerned(a, b, seg);
    }
  }

  // What is taken from a datagram of any origin.
  lemma UnwrapIff(a: Adapter, d: InternetDatagram)
    ensures var (o, a') := UnwrapTcp(a, d);
            var (result, seg) := ParseSegment(d.payload, PseudoSum(d.header));
            && (o.Some? <==> && d.header.proto == PROTO_TCP && result == NoError && seg.header.dport == a.source.port
                             && if a.listening then seg.header.syn && !seg.header.rst
                                else d.header.dst == a.source.ip && d.header.src == a.destination.ip && seg.header.sport == a.destination.port)
            && (o.Some? ==> o.value == seg && !a'.listening)
            && (o.None? || !a.listening ==> a' == a)
  {
  }

  lemma TooLong(a: Adapter, seg: TcpSegment)
    requires 5 <= seg.header.doff && 4 * seg.header.doff + |seg.payload| > 0xffff
    ensures WrapTcp(a, seg).Some? && SerializeDatagram(WrapTcp(a, seg).value).None?
  {
    WrapShape(a, seg);
  }

  lemma ParsedLength(bytes: seq<byte>, pseudo: u32)
    ensures ParseSegment(bytes, pseudo).1.header.doff <= 15
  {
  }

  // Between mirrored endpoints a segment arrives exactly when it fits.
  lemma ArrivesIffFits(a: Adapter, b: Adapter, seg: TcpSegment)
    requires Mirrored(a, b)
    ensures Fits(seg) <==> seg.header.doff >= 5 && Transport(a, b, seg).0 == Some(Arriving(a, seg))
  {
    if Fits(seg) {
      TransportRoundTrip(a, b, seg);
    } else if seg.header.doff >= 5 {
      if 4 * seg.header.doff + |seg.payload| > 0xffff {
        TooLong(a, seg);
      } else {
        ShortHeader(a, b, seg);
      }
    }
  }

  // No header length above 15 comes out.
  lemma ShortHeader(a: Adapter, b: Adapter, seg: TcpSegment)
    ensures Transport(a, b, seg).0.Some? ==> Transport(a, b, seg).0.value.header.doff <= 15
  {
    match WrapTcp(a, seg)
    case None =>
    case Some(d) =>
      match SerializeDatagram(d) {
        case None =>
        case Some(bytes) =>
          var d' := ParseDatagram(bytes).1;
          ParsedLength(d'.payload, PseudoSum(d'.header));
      }
  }
}

/** Writing and reading IPv4 datagrams step by step, and TCP over them. */
module IpPackets {
  import opened Numbers
  import opened Options
  import opened TcpSegments
  import opened IpDatagrams
  import opened Checksums
  import opened NetParsers
  import opened TcpCodec
  import opened Ipv4Codec
  import opened TcpPackets
  import O = TcpOverIp

  // The ten numbers of a header.
  method ReadIpFields(p: NetParser) returns (values: seq<nat>)
    modifies p
    ensures (values, p.State()) == old(p.State()).Ints(IP_WIDTHS)
  {
    ghost var p0 := p.State();
    var first := p.ParseInt(1);
    ghost var p1 := p.State();
    var tos, len, id := ParseThree(p, 1, 2, 2);
    var fragment, ttl, proto := ParseThree(p, 2, 1, 1);
    var cksum, src, dst := ParseThree(p, 2, 4, 4);
    IntsOfThree(p1, [1, 2, 2], [2, 1, 1], [2, 4, 4], IP_WIDTHS[1..]);
    IntsCons(p0, 1, IP_WIDTHS[1..]);
    assert [1] + IP_WIDTHS[1..] == IP_WIDTHS;
    values := [first] + ([tos, len, id] + [fragment, ttl, proto] + [cksum, src, dst]);
  }

  // The checks on a header that has been read.
  method CheckHeader(bytes: seq<byte>, h: Ipv4Header, p: NetParser) returns (result: ParseResult)
    modifies p
    ensures (p.State(), result) == Judge(bytes, h, old(p.State()))
  {
    if |bytes| < 4 * h.hlen {
      return PacketTooShort;
    }
    if h.ver != 4 {
      return WrongIpVersion;
    }
    if h.hlen < 5 {
      return HeaderTooShort;
    }
    if |bytes| != h.len {
      return TruncatedPacket;
    }
    p.RemovePrefix(h.hlen * 4 - IP_LENGTH);
    if p.error != NoError {
      return p.error;
    }
    var check := new InternetChecksum(0);
    check.Add(bytes[..4 * h.hlen]);
    var value := check.Value();
    if value != 0 {
      return BadChecksum;
    }
    return NoError;
  }

  method ReadIpHeader(p: NetParser) returns (h: Ipv4Header, result: ParseResult)
    modifies p
    ensures (h, p.State(), result) == ParseIpHeader(old(p.State()))
  {
    var bytes := p.buffer;
    h := DefaultIpHeader();
    if |bytes| < IP_LENGTH {
      return h, PacketTooShort;
    }
    var values := ReadIpFields(p);
    h := IpHeaderOf(values);
    result := CheckHeader(bytes, h, p);
  }

  method WriteIpHeader(h: Ipv4Header) returns (bytes: Option<seq<byte>>)
    ensures bytes == SerializeIpHeader(h)
  {
    if h.ver != 4 || 4 * h.hlen < IP_LENGTH {
      return None;
    }
    var f := IpFields(h);
    var r := UnparseInt([], f[0].value, f[0].width);
    r := WriteThree(r, f[1], f[2], f[3]);
    r := WriteThree(r, f[4], f[5], f[6]);
    r := WriteThree(r, f[7], f[8], f[9]);
    EncodeNine(f[1..]);
    assert r == Encode(f, []);
    var pad := Zeros(4 * h.hlen - IP_LENGTH);
    EncodeSplits(f, pad);
    return Some(r + pad);
  }

  method WriteDatagram(d: InternetDatagram) returns (bytes: Option<seq<byte>>)
    ensures bytes == SerializeDatagram(d)
  {
    if |d.payload| != d.header.PayloadLength() {
      return None;
    }
    var zeroed := WriteIpHeader(d.header.(cksum := 0));
    if zeroed.None? {
      return None;
    }
    var check := new InternetChecksum(0);
    check.Add(zeroed.value);
    var cksum := check.Value();
    var header := WriteIpHeader(d.header.(cksum := cksum));
    return Some(header.value + d.payload);
  }

  method ReadDatagram(bytes: seq<byte>) returns (result: ParseResult, d: InternetDatagram)
    ensures (result, d) == ParseDatagram(bytes)
  {
    var p := new NetParser(bytes);
    var h, _ := ReadIpHeader(p);
    d := InternetDatagram(h, p.buffer);
    result := if |p.buffer| != h.PayloadLength() then PacketTooShort else p.error;
  }

  class TCPOverIPv4Adapter {
    var source: O.Address
    var destination: O.Address
    var listening: bool

    ghost function State(): O.Adapter
      reads this
    {
      O.Adapter(source, destination, listening)
    }

    constructor (source: O.Address, destination: O.Address, listening: bool)
      ensures State() == O.Adapter(source, destination, listening)
    {
      this.source, this.destination, this.listening := source, destination, listening;
    }

    // The ports of the segment are filled in on the way.
    method WrapTcpInIp(seg: TcpSegment) returns (d: Option<InternetDatagram>, out: TcpSegment)
      ensures d == O.WrapTcp(State(), seg) && out == O.Addressed(State(), seg)
    {
      out := seg.(header := seg.header.(sport := source.port, dport := destination.port));
      var h := DefaultIpHeader();
      h := h.(src := source.ip, dst := destination.ip);
      h := h.(len := (h.hlen * 4 + out.header.doff * 4 + |out.payload|) % TWO_16);
      var bytes := WriteSegment(out, O.PseudoSum(h));
      d := if bytes.Some? then Some(InternetDatagram(h, bytes.value)) else None;
    }

    // The segment is for this endpoint and from its peer; a listening endpoint
    // finds out who that is.
    method Admit(h: Ipv4Header, parsed: TcpSegment) returns (seg: Option<TcpSegment>)
      modifies this
      ensures (seg, State()) == O.Take(old(State()), h, parsed)
    {
      if parsed.header.dport != source.port {
        return None;
      }
      if listening {
        if parsed.header.syn && !parsed.header.rst {
          source := O.Address(h.dst, source.port);
          destination := O.Address(h.src, parsed.header.sport);
          listening := false;
        } else {
          return None;
        }
      }
      if parsed.header.sport != destination.port {
        return None;
      }
      return Some(parsed);
    }

    method UnwrapTcpInIp(d: InternetDatagram) returns (seg: Option<TcpSegment>)
      modifies this
      ensures (seg, State()) == O.UnwrapTcp(old(State()), d)
    {
      if !listening && d.header.dst != source.ip {
        return None;
      }
      if !listening && d.header.src != destination.ip {
        return None;
      }
      if d.header.proto != PROTO_TCP {
        return None;
      }
      var result, parsed := ReadSegment(d.payload, O.PseudoSum(d.header));
      if result != NoError {
        return None;
      }
      seg := Admit(d.header, parsed);
    }
  }
}

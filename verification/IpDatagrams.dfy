/** IPv4 datagrams as the interface, the router and the codec see them. */
module IpDatagrams {
  import opened Numbers

  const PROTO_TCP: byte := 6
  const DEFAULT_TTL: byte := 128

  datatype Ipv4Header = Ipv4Header(
    ver: byte, hlen: byte, tos: byte, len: u16, id: u16, df: bool, mf: bool, offset: u16,
    ttl: byte, proto: byte, cksum: u16, src: u32, dst: u32)
  {
    // `payload_length`: 16-bit arithmetic.
    function PayloadLength(): u16 {
      (len - 4 * hlen) % TWO_16
    }
  }

  function DefaultIpHeader(): Ipv4Header {
    Ipv4Header(4, 5, 0, 0, 0, true, false, 0, DEFAULT_TTL, PROTO_TCP, 0, 0, 0)
  }

  datatype InternetDatagram = InternetDatagram(header: Ipv4Header, payload: seq<byte>)
}

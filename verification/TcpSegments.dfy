/** TCP segments as the sender, the receiver and the codec see them. */
module TcpSegments {
  import opened Numbers

  datatype TcpHeader = TcpHeader(
    sport: u16, dport: u16, seqno: u32, ackno: u32, doff: byte,
    urg: bool, ack: bool, psh: bool, rst: bool, syn: bool, fin: bool,
    win: u16, cksum: u16, uptr: u16)

  function DefaultHeader(): TcpHeader {
    TcpHeader(0, 0, 0, 0, 5, false, false, false, false, false, false, 0, 0, 0)
  }

  datatype TcpSegment = TcpSegment(header: TcpHeader, payload: seq<byte>) {
    // `length_in_sequence_space`
    function Length(): nat {
      |payload| + (if header.syn then 1 else 0) + (if header.fin then 1 else 0)
    }
  }

  function EmptySegment(): TcpSegment {
    TcpSegment(DefaultHeader(), [])
  }
}

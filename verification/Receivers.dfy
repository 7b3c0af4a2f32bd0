/** The receiving half of an endpoint: sequence numbers in, stream indices out. */
module Receivers {
  import opened Numbers
  import opened Options
  import opened WrappingIntegers
  import opened ByteStreams
  import opened Reassembly
  import opened TcpSegments

  datatype Receiver = Receiver(reassembler: Reassembler, isn: u32, isnSet: bool) {
    function Out(): Stream {
      reassembler.out
    }

    // The absolute acknowledgment number, once there is one.
    function AckPoint(): nat {
      reassembler.out.Written() + (if reassembler.out.ended then 2 else 1)
    }

    function Ackno(): Option<u32> {
      if isnSet then Some(Wrap(AckPoint(), isn)) else None
    }

    function WindowSize(): nat
      requires reassembler.out.Valid()
    {
      reassembler.out.Remaining()
    }

    // The sequence number of the first payload byte.
    static function DataSeqno(seg: TcpSegment): u32 {
      if seg.header.syn then (seg.header.seqno + 1) % TWO_32 else seg.header.seqno
    }

    // The stream index a segment is taken to start at: 64-bit arithmetic, so
    // the number of the SYN itself gives the largest index.
    function Index(seg: TcpSegment): u64 {
      Low64(Unwrap(DataSeqno(seg), isn, Low64(reassembler.out.Written())) - 1)
    }

    function Learn(seg: TcpSegment): Receiver {
      if seg.header.syn then this.(isn := seg.header.seqno, isnSet := true) else this
    }

    // `segment_received`
    function Receive(seg: TcpSegment): (r: Receiver)
      requires reassembler.out.Valid()
      ensures r.reassembler.out.Valid()
    {
      var r := Learn(seg);
      if r.isnSet
      then r.(reassembler := Push(reassembler, seg.payload, r.Index(seg), seg.header.fin))
      else r
    }

    function Take(n: nat): (r: Receiver)
      requires reassembler.out.Valid()
    {
      this.(reassembler := reassembler.(out := reassembler.out.Pop(n)))
    }

    function Fail(): Receiver {
      this.(reassembler := reassembler.(out := reassembler.out.Fail()))
    }
  }

  function NewReceiver(capacity: nat): (r: Receiver)
    ensures r.reassembler.out.Valid()
  {
    Receiver(EmptyReassembler(capacity), 0, false)
  }

  // The advertised window reaches from the acknowledged number to one past the last
  // byte there is room for, and bytes from there on are not taken.
  lemma WindowReachesEdge(r: Receiver, data: seq<byte>, index: nat, eof: bool)
    requires r.reassembler.out.Valid()
    ensures r.Out().Written() + r.WindowSize() == r.Out().read + r.Out().capacity
    ensures r.AckPoint() + r.WindowSize() == r.Out().read + r.Out().capacity + (if r.Out().ended then 2 else 1)
    ensures index >= r.Out().Written() + r.WindowSize() ==> Push(r.reassembler, data, index, eof) == r.reassembler
  {
  }
}

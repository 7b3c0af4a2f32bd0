/** The receiver as an object around its reassembler. */
module TcpReceivers {
  import opened Numbers
  import opened Options
  import opened WrappingIntegers
  import opened ByteStreams
  import opened Reassembly
  import opened StreamReassemblers
  import opened TcpSegments
  import opened Receivers

  class TCPReceiver {
    const reassembler: StreamReassembler
    var isn: u32
    var isnSet: bool

    ghost predicate Valid()
      reads this, reassembler, reassembler.output
    {
      reassembler.Valid()
    }

    ghost function State(): (r: Receiver)
      requires Valid()
      reads this, reassembler, reassembler.output
      ensures r.reassembler.out.Valid()
    {
      Receiver(reassembler.State(), isn, isnSet)
    }

    constructor (capacity: nat)
      ensures Valid() && fresh(reassembler) && fresh(reassembler.output) && State() == NewReceiver(capacity)
    {
      reassembler := new StreamReassembler(capacity);
      isn, isnSet := 0, false;
    }

    // The stream index of a sequence number.
    method IndexOf(seqno: u32) returns (index: u64)
      requires Valid()
      ensures index == Low64(Unwrap(seqno, isn, Low64(State().Out().Written())) - 1)
    {
      var absolute: int, _ := UnwrapSearch(seqno, isn, Low64(reassembler.output.written));
      index := Low64(absolute - 1);
    }

    method SegmentReceived(seg: TcpSegment)
      requires Valid()
      modifies this, reassembler, reassembler.output
      ensures Valid() && State() == old(State()).Receive(seg)
    {
      var dataSeqno := seg.header.seqno;
      if seg.header.syn {
        isn := seg.header.seqno;
        isnSet := true;
        dataSeqno := (isn + 1) % TWO_32;
      }
      assert State() == old(State()).Learn(seg);
      if isnSet {
        var index := IndexOf(dataSeqno);
        assert index == State().Index(seg);
        reassembler.PushSubstring(seg.payload, index, seg.header.fin);
      }
    }

    method Ackno() returns (a: Option<u32>)
      requires Valid()
      ensures a == State().Ackno()
    {
      if !isnSet {
        a := None;
      } else if reassembler.output.inputEnd {
        a := Some(Wrap(reassembler.output.written + 2, isn));
      } else {
        a := Some(Wrap(reassembler.output.written + 1, isn));
      }
    }

    method WindowSize() returns (n: nat)
      requires Valid()
      ensures n == State().WindowSize()
    {
      n := reassembler.output.RemainingCapacity();
    }

    method UnassembledBytes() returns (n: nat)
      requires Valid()
      ensures n == State().reassembler.size
    {
      n := reassembler.UnassembledBytes();
    }
  }
}

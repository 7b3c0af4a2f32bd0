/**
 An endpoint on values: what `segment_received`, `tick`, `write`,
 `end_input_stream` and `connect` do to its receiver, its sender and the
 segments it has sent.
 */
module Connections {
  import opened Numbers
  import opened WrappingIntegers
  import opened ByteStreams
  import opened TcpSegments
  import opened Receivers
  import opened Senders
  import opened SenderTimers

  // `out` is every segment handed to the network so far; `idle` is the time
  // since the last segment was received in TIME-WAIT.
  datatype Conn = Conn(
    timeout: u16, receiver: Receiver, sender: Sender, out: seq<TcpSegment>, linger: bool, idle: nat)
  {
    ghost predicate Valid() {
      sender.stream.Valid() && receiver.reassembler.out.Valid()
    }

    // Both streams are finished and everything sent is acknowledged.
    predicate TimeWait() {
      receiver.Out().Eof() && Finished(sender)
    }

    predicate Reset() {
      sender.stream.error && receiver.Out().error
    }

    predicate Active() {
      !Reset() && !(TimeWait() && (linger ==> idle >= 10 * timeout))
    }

    predicate Established() {
      receiver.isnSet && sender.next > sender.InFlight()
    }

    function Fail(): Conn {
      this.(sender := sender.(stream := sender.stream.Fail()), receiver := receiver.Fail())
    }
  }

  function NewConn(sendCapacity: nat, receiveCapacity: nat, timeout: u16, isn: u32): (c: Conn)
    ensures c.Valid()
  {
    Conn(timeout, NewReceiver(receiveCapacity), NewSender(sendCapacity, timeout, isn), [], true, 0)
  }

  // The acknowledgment fields of an outgoing segment.
  function Stamp(r: Receiver, seg: TcpSegment): TcpSegment
    requires r.reassembler.out.Valid()
  {
    if r.isnSet
    then seg.(header := seg.header.(ack := true, ackno := Wrap(r.AckPoint(), r.isn), win := r.WindowSize() % TWO_16))
    else seg
  }

  function StampAll(r: Receiver, segs: seq<TcpSegment>): seq<TcpSegment>
    requires r.reassembler.out.Valid()
  {
    if segs == [] then [] else [Stamp(r, segs[0])] + StampAll(r, segs[1..])
  }

  // `send_all_segs`
  function SendAll(c: Conn): (c': Conn)
    requires c.Valid()
    ensures c'.Valid()
  {
    c.(out := c.out + StampAll(c.receiver, c.sender.segmentsOut), sender := c.sender.(segmentsOut := []))
  }

  // `send_rst_seg`: the segment stays in the sender's queue.
  function SendRst(c: Conn): (c': Conn)
    requires c.Valid()
    ensures c'.Valid()
  {
    var s := if c.sender.segmentsOut == [] then SendEmptySegment(c.sender) else c.sender;
    var seg := s.segmentsOut[0];
    c.(sender := s, out := c.out + [Stamp(c.receiver, seg.(header := seg.header.(rst := true)))])
  }

  // What an incoming segment does to the sender.
  function Hear(s: Sender, seg: TcpSegment): (s': Sender)
    requires s.stream.Valid()
    ensures s'.stream.Valid()
  {
    if seg.header.ack then
      var s1 := AckReceived(s, seg.header.ackno, seg.header.win);
      if s1.next != 0 then FillWindow(s1) else s1
    else s
  }

  // The sender's part in answering a segment that occupies sequence numbers: it
  // opens its own side if need be and has something to send.
  function Answer(s: Sender): (s': Sender)
    requires s.stream.Valid()
    ensures s'.stream.Valid()
  {
    var s1 := if s.next == 0 then FillWindow(s) else s;
    if s1.segmentsOut == [] then SendEmptySegment(s1) else s1
  }

  // The receiver and the sender have processed `seg`.
  function Absorb(c: Conn, seg: TcpSegment): (c': Conn)
    requires c.Valid()
    ensures c'.Valid()
  {
    var c1 := c.(receiver := c.receiver.Receive(seg), sender := Hear(c.sender, seg));
    c1.(idle := if c1.TimeWait() then 0 else c.idle,
        linger := c.linger && !(c1.receiver.Out().ended && !c1.sender.stream.ended))
  }

  // The answer to a segment that occupies no number and lies just before the
  // acknowledged ones.
  function KeepAlive(c: Conn, seg: TcpSegment): (c': Conn)
    requires c.Valid()
    ensures c'.Valid()
  {
    if c.receiver.isnSet && seg.Length() == 0 && seg.header.seqno == (Wrap(c.receiver.AckPoint(), c.receiver.isn) - 1) % TWO_32
    then SendAll(c.(sender := SendEmptySegment(c.sender)))
    else c
  }

  // What is sent after `seg` has been processed.
  function Reply(c: Conn, seg: TcpSegment): (c': Conn)
    requires c.Valid()
    ensures c'.Valid()
  {
    var c1 := if seg.Length() > 0 && c.receiver.isnSet then c.(sender := Answer(c.sender)) else c;
    KeepAlive(SendAll(c1), seg)
  }

  // `segment_received`
  function SegmentReceived(c: Conn, seg: TcpSegment): (c': Conn)
    requires c.Valid()
    ensures c'.Valid()
  {
    if !c.Active() then c
    else if seg.header.rst then c.Fail()
    else
      Reply(Absorb(c, seg), seg)
  }

  // The sender's timer and the time in TIME-WAIT move on.
  function Age(c: Conn, ms: nat): (c': Conn)
    requires c.Valid()
    ensures c'.Valid()
  {
    var c1 := c.(sender := Tick(c.sender, ms));
    if c1.TimeWait() then c1.(idle := c1.idle + ms) else c1
  }

  // After too many retransmissions the connection resets itself; otherwise it
  // sends what there is to send.
  function GiveUpOrSend(c: Conn): (c': Conn)
    requires c.Valid()
    ensures c'.Valid()
  {
    var c1 := if c.sender.retransmissions > MAX_RETX_ATTEMPTS then SendRst(c.Fail()) else c;
    if c1.Active() then SendAll(c1) else c1
  }

  // `tick`
  function Elapse(c: Conn, ms: nat): (c': Conn)
    requires c.Valid()
    ensures c'.Valid()
  {
    if c.Active() then GiveUpOrSend(Age(c, ms)) else c
  }

  // `write`
  function Write(c: Conn, data: seq<byte>): (c': Conn)
    requires c.Valid()
    ensures c'.Valid()
  {
    var c1 := c.(sender := c.sender.(stream := c.sender.stream.Write(data)));
    if c1.Established() then SendAll(c1.(sender := FillWindow(c1.sender))) else c1
  }

  // `end_input_stream`
  function EndInput(c: Conn): (c': Conn)
    requires c.Valid()
    ensures c'.Valid()
  {
    SendAll(c.(sender := FillWindow(c.sender.(stream := c.sender.stream.End()))))
  }

  // `connect`: one segment is passed on as it is.
  function Connect(c: Conn): (c': Conn)
    requires c.Valid() && FillWindow(c.sender).segmentsOut != []
    ensures c'.Valid()
  {
    var s := FillWindow(c.sender);
    c.(out := c.out + [s.segmentsOut[0]], sender := s.(segmentsOut := s.segmentsOut[1..]))
  }

  function Take(c: Conn, n: nat): (c': Conn)
    requires c.Valid()
    ensures c'.Valid()
  {
    c.(receiver := c.receiver.Take(n))
  }

  // Everything that can happen to an endpoint: calls of its interface, and the
  // application reading the inbound stream.
  datatype Call =
    | Arrive(segment: TcpSegment)
    | Pass(ms: nat)
    | Put(data: seq<byte>)
    | Close
    | Open
    | Get(n: nat)

  ghost predicate Permitted(c: Conn, call: Call) {
    match call
    case Put(_) => !c.sender.stream.ended
    case Open => c.sender.stream.Valid() && FillWindow(c.sender).segmentsOut != []
    case _ => true
  }

  function Do(c: Conn, call: Call): (c': Conn)
    requires c.Valid() && Permitted(c, call)
    ensures c'.Valid()
  {
    match call
    case Arrive(seg) => SegmentReceived(c, seg)
    case Pass(ms) => Elapse(c, ms)
    case Put(data) => Write(c, data)
    case Close => EndInput(c)
    case Open => Connect(c)
    case Get(n) => Take(c, n)
  }
}

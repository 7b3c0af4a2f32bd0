/**
 The sending half of an endpoint on values: what `fill_window`, `ack_received`
 and `tick` do to it.
 */
module Senders {
  import opened Numbers
  import opened WrappingIntegers
  import opened ByteStreams
  import opened TcpSegments

  const MAX_PAYLOAD_SIZE: nat := 1000

  // An entry of the map from absolute sequence numbers to unacknowledged segments.
  datatype Entry = Entry(seqno: nat, segment: TcpSegment) {
    function End(): nat {
      seqno + segment.Length()
    }
  }

  // `outstanding` is the map in ascending order of its keys; `timeout` is the
  // current retransmission timeout; `probe` is the zero-window segment.
  datatype Sender = Sender(
    isn: u32, stream: Stream, next: nat, outstanding: seq<Entry>, segmentsOut: seq<TcpSegment>,
    window: u16, ackno: u32,
    timeout: u32, timeLeft: u32, timerRunning: bool, retransmissions: nat,
    probe: TcpSegment, probing: bool, probeSeqno: nat)
  {
    function InFlight(): nat {
      Flight(outstanding)
    }
  }

  function NewSender(capacity: nat, timeout: u16, isn: u32): (s: Sender)
    ensures s.stream.Valid()
  {
    Sender(isn, EmptyStream(capacity), 0, [], [], 0, 0, timeout, timeout, false, 0, EmptySegment(), false, 0)
  }

  // `bytes_in_flight`
  function Flight(entries: seq<Entry>): nat {
    if entries == [] then 0 else entries[0].segment.Length() + Flight(entries[1..])
  }

  // `map[key] = segment`
  function Assign(entries: seq<Entry>, key: nat, segment: TcpSegment): seq<Entry> {
    if entries == [] then [Entry(key, segment)]
    else if entries[0].seqno < key then [entries[0]] + Assign(entries[1..], key, segment)
    else if entries[0].seqno == key then [Entry(key, segment)] + entries[1..]
    else [Entry(key, segment)] + entries
  }

  function StartTimer(s: Sender): Sender {
    if s.timerRunning then s else s.(timerRunning := true, timeLeft := s.timeout)
  }

  // Queue a segment, remember it and advance.
  function Send(s: Sender, seg: TcpSegment): (s': Sender) {
    StartTimer(s.(segmentsOut := s.segmentsOut + [seg],
                  outstanding := Assign(s.outstanding, s.next, seg),
                  next := s.next + seg.Length()))
  }

  // A segment with the next sequence number.
  function Segment(s: Sender, syn: bool, fin: bool, payload: seq<byte>): TcpSegment {
    TcpSegment(DefaultHeader().(seqno := Wrap(s.next, s.isn), syn := syn, fin := fin), payload)
  }

  // Send `n` buffered bytes in segments of at most `MAX_PAYLOAD_SIZE`, the last
  // one with a FIN if `fin`.
  function SendBytes(s: Sender, n: nat, fin: bool): (s': Sender)
    requires s.stream.Valid() && n <= |s.stream.Buffer()|
    ensures s'.stream.Valid()
    decreases n
  {
    if n == 0 then s
    else
      var k := Min(n, MAX_PAYLOAD_SIZE);
      var seg := Segment(s, false, fin && k == n, s.stream.Buffer()[..k]);
      SendBytes(Send(s.(stream := s.stream.Pop(k)), seg), n - k, fin)
  }

  // Fill an open window: as many buffered bytes as fit, then a FIN if the
  // stream is finished and there is still room.
  function FillOpen(s: Sender): (s': Sender)
    requires s.stream.Valid() && s.window > s.InFlight()
    ensures s'.stream.Valid()
  {
    var room, buffered := s.window - s.InFlight(), |s.stream.Buffer()|;
    if s.stream.Eof() && s.next < s.stream.Written() + 2 then Send(s, Segment(s, false, true, []))
    else SendBytes(s, Min(room, buffered), s.stream.ended && room > buffered)
  }

  // Put a probe beyond the closed window: `n` bytes, or a FIN.
  function Probe(s: Sender, n: nat, fin: bool): (s': Sender)
    requires s.stream.Valid() && n <= |s.stream.Buffer()|
    ensures s'.stream.Valid()
  {
    var header := s.probe.header.(seqno := Wrap(s.next, s.isn), fin := s.probe.header.fin || fin);
    var seg := TcpSegment(header, s.stream.Buffer()[..n]);
    StartTimer(s.(stream := s.stream.Pop(n), probe := seg, probing := true, probeSeqno := s.next,
                  segmentsOut := s.segmentsOut + [seg], next := s.next + seg.Length()))
  }

  // `fill_window`
  function FillWindow(s: Sender): (s': Sender)
    requires s.stream.Valid()
    ensures s'.stream.Valid()
  {
    if s.next == 0 then Send(s, Segment(s, true, false, []))
    else if s.window > s.InFlight() && !s.probing then FillOpen(s)
    else if s.window == 0 && s.next > s.InFlight() && !s.probing then
      if s.stream.Buffer() != [] then Probe(s, 1, false)
      else if s.stream.Eof() then Probe(s, 0, true)
      else s
    else s
  }

  // The absolute number an acknowledgment is read as, or none if it is beyond
  // what has been sent.
  function ReadAck(s: Sender, ackno: u32): (a: int)
    ensures a == -1 || a >= 0
  {
    var a := Unwrap(ackno, s.isn, Low64(s.next));
    if a > s.next then (if a < TWO_32 then -1 else a - TWO_32) else a
  }

  // The entries that an acknowledgment of everything below `a` does not cover.
  function Unacked(entries: seq<Entry>, a: nat): seq<Entry> {
    if entries == [] then []
    else if entries[0].End() <= a then Unacked(entries[1..], a)
    else [entries[0]] + Unacked(entries[1..], a)
  }

  // `x >> n`
  function ShiftRight(x: u32, n: nat): (y: u32) {
    if n == 0 then x else ShiftRight(x / 2, n - 1)
  }

  // Forget what an acknowledgment of everything below `a` covers, and stop the
  // timer when nothing is left.
  function Forget(s: Sender, a: nat): (s': Sender) {
    var probing := s.probing && a <= s.probeSeqno;
    var outstanding := Unacked(s.outstanding, a);
    s.(probing := probing, outstanding := outstanding,
       timerRunning := s.timerRunning && (outstanding != [] || probing))
  }

  // Take over the acknowledged number and window; a number not seen last time
  // undoes the back-off.
  function Adopt(s: Sender, ackno: u32, window: u16): (s': Sender) {
    var s1 := s.(window := window, ackno := ackno);
    if s.ackno == ackno then s1
    else
      var timeout := ShiftRight(s.timeout, s.retransmissions);
      s1.(timeout := timeout, retransmissions := 0, timeLeft := timeout)
  }

  // `ack_received`
  function AckReceived(s: Sender, ackno: u32, window: u16): (s': Sender) {
    var a := ReadAck(s, ackno);
    if a < 0 then s else Adopt(Forget(s, a), ackno, window)
  }

  // The timer has expired: the lowest unacknowledged segment is sent again, and
  // the timeout doubles unless the peer's window is what holds it up.
  function Expire(s: Sender): (s': Sender)
    requires s.outstanding != []
  {
    var backOff := s.window > 0 || (s.next > 0 && s.next == s.InFlight());
    var timeout := if backOff then (s.timeout * 2) % TWO_32 else s.timeout;
    s.(timeLeft := timeout, timeout := timeout,
       retransmissions := if backOff then s.retransmissions + 1 else s.retransmissions,
       segmentsOut := s.segmentsOut + [s.outstanding[0].segment])
  }

  // `tick`
  function Tick(s: Sender, ms: nat): (s': Sender) {
    var left := if s.timeLeft > ms then s.timeLeft - ms else 0;
    if s.probing then
      if left > 0 then s.(timeLeft := left)
      else s.(timeLeft := s.timeout, timerRunning := true, segmentsOut := s.segmentsOut + [s.probe])
    else if s.outstanding == [] || !s.timerRunning then s.(timerRunning := false)
    else if left > 0 then s.(timeLeft := left)
    else Expire(s)
  }

  function SendEmptySegment(s: Sender): (s': Sender) {
    s.(segmentsOut := s.segmentsOut + [Segment(s, false, false, [])])
  }

  // Everything has been sent and acknowledged, the FIN too.
  predicate Finished(s: Sender) {
    s.stream.Eof() && s.InFlight() == 0 && s.stream.Written() + 2 == s.next && !s.probing
  }
}

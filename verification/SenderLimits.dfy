/**
 Where the sender falls short: the window is taken from any accepted
 acknowledgment, and the FIN probe does not ask whether a FIN was sent before.
 */
module SenderLimits {
  import opened Numbers
  import opened WrappingIntegers
  import opened ByteStreams
  import opened TcpSegments
  import opened Senders
  import opened SenderLaws

  // A finished stream whose FIN has been sent meets a closed window with the
  // SYN acknowledged.
  predicate ProbesAgain(s: Sender) {
    && s.stream.Eof() && s.next == s.stream.Written() + 2
    && s.window == 0 && !s.probing && s.next > s.InFlight()
  }

  // `fill_window` uses at most one number for a FIN exactly when that is not so.
  lemma SingleFinIff(s: Sender)
    requires SenderOk(s) && s.next <= s.stream.Written() + 2
    ensures FillWindow(s).next <= s.stream.Written() + 2 <==> !ProbesAgain(s)
  {
    if s.next > 0 && s.window > s.InFlight() && !s.probing {
      FillOpenOk(s);
    }
  }

  // A sender with one byte to send, before anything is sent.
  function OneByte(b: byte): (s: Sender)
    ensures s.stream.Valid()
  {
    var s := NewSender(1, 1000, 0);
    s.(stream := s.stream.Write([b]).End())
  }

  lemma Reads(s: Sender, ackno: u32)
    requires s.isn == 0 && ackno <= s.next < 10
    ensures ReadAck(s, ackno) == ackno
  {
    assert Low64(s.next) == s.next && Wrap(ackno, 0) == ackno;
    RoundTripNear(ackno, 0, s.next);
  }

  // `s` holds the one segment `e`, or none, and nothing else is on its way.
  ghost predicate Quiet(s: Sender, bytes: seq<byte>, read: nat, next: nat, es: seq<Entry>) {
    && s.isn == 0 && s.stream == Stream(1, bytes, read, true, false) && s.next == next < 10
    && s.outstanding == es && !s.probing && !s.probe.header.syn
  }

  lemma AcksOne(s: Sender, bytes: seq<byte>, read: nat, next: nat, e: Entry, window: u16)
    requires Quiet(s, bytes, read, next, [e]) && e.End() <= next
    ensures Quiet(AckReceived(s, next, window), bytes, read, next, []) && AckReceived(s, next, window).window == window
  {
    Reads(s, next);
    assert [e][1..] == [] && Unacked([e][1..], next) == [] && Unacked([e], next) == [];
  }

  // The SYN goes out and is acknowledged, with room for one byte.
  function Opened(b: byte): (s: Sender)
    ensures Quiet(s, [b], 0, 1, []) && s.window == 1
  {
    var s := FillWindow(OneByte(b));
    assert Quiet(s, [b], 0, 1, [Entry(0, Segment(OneByte(b), true, false, []))]);
    AcksOne(s, [b], 0, 1, Entry(0, Segment(OneByte(b), true, false, [])), 1);
    AckReceived(s, 1, 1)
  }

  // The byte goes out and is acknowledged, with the window closed.
  function Closed(b: byte): (s: Sender)
    ensures Quiet(s, [b], 1, 2, []) && s.window == 0
  {
    var s, seg := Opened(b), Segment(Opened(b), false, false, [b]);
    assert s.stream.Buffer() == [b] && [b][..1] == [b];
    var s1 := Send(s.(stream := s.stream.Pop(1)), seg);
    assert FillWindow(s) == SendBytes(s, 1, false) == SendBytes(s1, 0, false) == s1;
    AcksOne(s1, [b], 1, 2, Entry(1, seg), 0);
    AckReceived(FillWindow(s), 2, 0)
  }

  // The FIN goes out as a probe and is acknowledged, with the window open.
  function FinAcked(b: byte): (s: Sender)
    ensures Quiet(s, [b], 1, 3, [])
  {
    var s := FillWindow(Closed(b));
    assert s.probing && s.probeSeqno == 2 && s.next == 3 && s.isn == 0;
    Reads(s, 3);
    AckReceived(s, 3, 1)
  }

  // The old acknowledgment with the closed window arrives once more.
  function Stale(b: byte): (s: Sender)
    ensures Quiet(s, [b], 1, 3, []) && s.window == 0
  {
    Reads(FinAcked(b), 2);
    AckReceived(FinAcked(b), 2, 0)
  }

  // A second FIN number is then used.
  lemma StaleWindowMakesSecondFin(b: byte)
    ensures ProbesAgain(Stale(b)) && FillWindow(Stale(b)).next == Stale(b).stream.Written() + 3
  {
    assert Flight([]) == 0;
  }
}

/** The retransmission timer and its back-off. */
module SenderTimers {
  import opened Numbers
  import opened ByteStreams
  import opened TcpSegments
  import opened Senders
  import opened SenderLaws

  const MAX_RETX_ATTEMPTS: nat := 8

  function Ticks(s: Sender, ms: seq<nat>): Sender
    decreases |ms|
  {
    if ms == [] then s else Ticks(Tick(s, ms[0]), ms[1..])
  }

  function Sum(ms: seq<nat>): nat {
    if ms == [] then 0 else ms[0] + Sum(ms[1..])
  }

  // What the timer guards: the probe if one is pending, else the lowest
  // unacknowledged segment.
  function Guarded(s: Sender): TcpSegment
    requires s.probing || s.outstanding != []
  {
    if s.probing then s.probe else s.outstanding[0].segment
  }

  lemma {:induction false} TicksAppend(s: Sender, ms: seq<nat>)
    requires SenderOk(s)
    ensures SenderOk(Ticks(s, ms)) && s.segmentsOut <= Ticks(s, ms).segmentsOut
    decreases |ms|
  {
    if ms != [] {
      TickKeeps(s, ms[0]);
      TicksAppend(Tick(s, ms[0]), ms[1..]);
    }
  }

  // With something unacknowledged, a run of ticks queues a copy of what the
  // timer guards exactly when the ticks add up to the time left.
  lemma {:induction false} ExpiryResends(s: Sender, ms: seq<nat>)
    requires SenderOk(s) && (s.probing || s.outstanding != []) && ms != []
    ensures Sum(ms) >= s.timeLeft ==> s.segmentsOut + [Guarded(s)] <= Ticks(s, ms).segmentsOut
    ensures Sum(ms) < s.timeLeft ==>
              Ticks(s, ms).segmentsOut == s.segmentsOut && Ticks(s, ms).timeLeft == s.timeLeft - Sum(ms)
    decreases |ms|
  {
    TickKeeps(s, ms[0]);
    var s1 := Tick(s, ms[0]);
    if s.timeLeft <= ms[0] {
      TicksAppend(s1, ms[1..]);
    } else if |ms| > 1 {
      ExpiryResends(s1, ms[1..]);
    } else {
      assert ms[1..] == [] && Sum(ms) == ms[0] && Ticks(s, ms) == s1;
    }
  }

  // The timer runs out within `ms`.
  ghost predicate Expires(s: Sender, ms: nat) {
    (s.probing || s.outstanding != []) && ms >= s.timeLeft
  }

  // What is unacknowledged is held up by the peer and not by its closed window:
  // no probe is pending, and the window is open or the SYN unacknowledged.
  ghost predicate Pressing(s: Sender) {
    s.outstanding != [] && !s.probing && (s.window > 0 || Base(s) == 0)
  }

  // A tick counts one more retransmission and doubles the timeout exactly when the
  // timer runs out on what the peer holds up.  The timer then starts anew, with
  // the new timeout; otherwise the time passed is taken off.
  lemma TickCountsIff(s: Sender, ms: nat)
    requires SenderOk(s)
    ensures var s', counts := Tick(s, ms), Expires(s, ms) && Pressing(s);
            && s'.retransmissions == s.retransmissions + (if counts then 1 else 0)
            && s'.timeout == (if counts then (2 * s.timeout) % TWO_32 else s.timeout)
            && (s.probing || s.outstanding != [] ==> s'.timeLeft == if Expires(s, ms) then s'.timeout else s.timeLeft - ms)
            && s'.segmentsOut == s.segmentsOut + (if Expires(s, ms) then [Guarded(s)] else [])
  {
    FlightIsSpan(s);
  }

  // Filling the window starts the timer with the timeout when it sends something
  // and the timer is not running, and leaves it alone otherwise.
  lemma TimerStarts(s: Sender)
    requires SenderOk(s)
    ensures FillWindow(s).timeLeft == if !s.timerRunning && FillWindow(s).next > s.next then s.timeout else s.timeLeft
  {
    if s.next > 0 && s.window > s.InFlight() && !s.probing {
      FillOpenOk(s);
      var room, buffered := s.window - s.InFlight(), |s.stream.Buffer()|;
      SendBytesTimer(s, Min(room, buffered), s.stream.ended && room > buffered);
    }
  }

  lemma {:induction false} SendBytesTimer(s: Sender, n: nat, fin: bool)
    requires s.stream.Valid() && n <= |s.stream.Buffer()|
    ensures SendBytes(s, n, fin).timeLeft == if !s.timerRunning && n > 0 then s.timeout else s.timeLeft
    decreases n
  {
    if n > 0 {
      var k := Min(n, MAX_PAYLOAD_SIZE);
      var seg := Segment(s, false, fin && k == n, s.stream.Buffer()[..k]);
      SendBytesTimer(Send(s.(stream := s.stream.Pop(k)), seg), n - k, fin);
    }
  }

  // An accepted acknowledgment is taken over: what it covers is forgotten, and
  // only that; the window is the one it brings; a new number ends the back-off, and
  // the last one again leaves the timer alone.
  lemma AckForgets(s: Sender, ackno: u32, window: u16, e: Entry)
    requires SenderOk(s) && ReadAck(s, ackno) >= 0
    ensures var s', a := AckReceived(s, ackno, window), ReadAck(s, ackno);
            && (e in s'.outstanding <==> e in s.outstanding && a < e.End())
            && (s'.probing <==> s.probing && a <= s.probeSeqno) && s'.window == window
            && (if ackno != s.ackno then s'.retransmissions == 0
                else s'.retransmissions == s.retransmissions && s'.timeout == s.timeout && s'.timeLeft == s.timeLeft)
  {
    if e in s.outstanding {
      DroppedOnlyWhenAcked(s.outstanding, ReadAck(s, ackno), e);
    } else if e in Unacked(s.outstanding, ReadAck(s, ackno)) {
      UnackedMembers(s.outstanding, ReadAck(s, ackno), e);
    }
  }

  lemma {:induction false} UnackedMembers(es: seq<Entry>, a: nat, e: Entry)
    requires e in Unacked(es, a)
    ensures e in es
  {
    if es[0].End() <= a || e != es[0] {
      UnackedMembers(es[1..], a, e);
    }
  }

  // The timeout is the configured one doubled once per retransmission.
  ghost predicate BackedOff(s: Sender, initial: u16) {
    s.timeout == initial * Pow2(s.retransmissions)
  }

  lemma DoublingFits(initial: u16, n: nat)
    requires n <= MAX_RETX_ATTEMPTS
    ensures initial * Pow2(n) * 2 == initial * Pow2(n + 1) < TWO_32
  {
    var p := Pow2(n);
    assert p <= 256 by {
      Pow2Grows(n, 8);
      assert Pow2(8) == 256;
    }
    assert initial * p <= 0x1_0000 * 256;
    assert initial * (2 * p) == initial * p * 2;
  }

  lemma ExpireBacksOff(s: Sender, initial: u16)
    requires BackedOff(s, initial) && s.retransmissions <= MAX_RETX_ATTEMPTS && s.outstanding != []
    ensures BackedOff(Expire(s), initial)
  {
    var n := s.retransmissions;
    DoublingFits(initial, n);
    assert (s.timeout * 2) % TWO_32 == s.timeout * 2 == initial * Pow2(n + 1);
  }

  // Up to the limit of attempts doubling never overflows 32 bits.
  lemma TickBacksOff(s: Sender, ms: nat, initial: u16)
    requires BackedOff(s, initial) && s.retransmissions <= MAX_RETX_ATTEMPTS
    ensures BackedOff(Tick(s, ms), initial) && s.retransmissions <= Tick(s, ms).retransmissions <= s.retransmissions + 1
  {
    if !s.probing && s.outstanding != [] && s.timerRunning {
      ExpireBacksOff(s, initial);
    }
  }

  lemma {:induction false} ShiftUndoesDoubling(x: nat, n: nat)
    requires x * Pow2(n) < TWO_32
    ensures ShiftRight(x * Pow2(n), n) == x
  {
    if n > 0 {
      assert x * Pow2(n) == 2 * (x * Pow2(n - 1));
      ShiftUndoesDoubling(x, n - 1);
    }
  }

  // An acknowledgment with a new number restores the initial timeout exactly.
  lemma AckRestores(s: Sender, ackno: u32, window: u16, initial: u16)
    requires BackedOff(s, initial)
    ensures BackedOff(AckReceived(s, ackno, window), initial)
    ensures ReadAck(s, ackno) >= 0 && ackno != s.ackno ==>
              AckReceived(s, ackno, window).timeout == initial == AckReceived(s, ackno, window).timeLeft
  {
    ShiftUndoesDoubling(initial, s.retransmissions);
  }

  lemma FillKeepsBackOff(s: Sender, initial: u16)
    requires SenderOk(s)
    ensures FillWindow(s).timeout == s.timeout && FillWindow(s).retransmissions == s.retransmissions
  {
    if s.next > 0 && s.window > s.InFlight() && !s.probing {
      var room, buffered := s.window - s.InFlight(), |s.stream.Buffer()|;
      SendBytesTimeout(s, Min(room, buffered), s.stream.ended && room > buffered);
    }
  }

  lemma {:induction false} SendBytesTimeout(s: Sender, n: nat, fin: bool)
    requires s.stream.Valid() && n <= |s.stream.Buffer()|
    ensures SendBytes(s, n, fin).timeout == s.timeout && SendBytes(s, n, fin).retransmissions == s.retransmissions
    decreases n
  {
    if n > 0 {
      var k := Min(n, MAX_PAYLOAD_SIZE);
      var seg := Segment(s, false, fin && k == n, s.stream.Buffer()[..k]);
      SendBytesTimeout(Send(s.(stream := s.stream.Pop(k)), seg), n - k, fin);
    }
  }
}

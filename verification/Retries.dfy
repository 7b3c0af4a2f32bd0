/** What an endpoint does as time passes: it sends again, backs off and gives up. */
module Retries {
  import opened Numbers
  import opened WrappingIntegers
  import opened ByteStreams
  import opened TcpSegments
  import opened Receivers
  import opened Senders
  import opened SenderLaws
  import opened SenderTimers
  import opened Connections
  import opened ConnectionLaws
  import opened Emissions
  import opened Outputs

  // Something is unacknowledged, so the timer runs.
  ghost predicate Guarding(s: Sender) {
    s.probing || s.outstanding != []
  }

  lemma GuardingIsUnfinished(s: Sender)
    requires SenderOk(s) && Guarding(s)
    ensures !Finished(s)
  {
    FlightIsSpan(s);
  }

  // ------------------------------------------------------------------- one tick

  lemma StampsOne(r: Receiver, seg: TcpSegment)
    requires r.reassembler.out.Valid()
    ensures StampAll(r, [seg]) == [Stamp(r, seg)]
  {
    assert [seg][1..] == [];
  }

  // `seg` has left, with a reset exactly if `rst`.
  ghost predicate Leaves(c: Conn, c': Conn, seg: TcpSegment, rst: bool) {
    && |c'.out| == |c.out| + 1 && c.out <= c'.out
    && SameData(seg, c'.out[|c.out|]) && c'.out[|c.out|].header.rst == rst
  }

  lemma GivesUp(c: Conn, seg: TcpSegment)
    requires c.Valid() && c.sender.segmentsOut == [seg] && c.sender.retransmissions > MAX_RETX_ATTEMPTS
    ensures Leaves(c, GiveUpOrSend(c), seg, true) && GiveUpOrSend(c).Reset()
    ensures GiveUpOrSend(c).sender.retransmissions == c.sender.retransmissions
  {
    assert SendRst(c.Fail()).Reset();
  }

  lemma SendsAgain(c: Conn, seg: TcpSegment)
    requires c.Valid() && c.sender.segmentsOut == [seg] && Bare(seg) && c.sender.retransmissions <= MAX_RETX_ATTEMPTS && c.Active()
    ensures var c' := GiveUpOrSend(c);
            Leaves(c, c', seg, false) && c' == c.(out := c'.out, sender := c.sender.(segmentsOut := []))
  {
    StampsOne(c.receiver, seg);
  }

  // Until the timer runs out nothing happens but that time passes.
  lemma QuietPass(c: Conn, ms: nat)
    requires Sane(c) && c.Active() && c.sender.segmentsOut == [] && Guarding(c.sender) && ms < c.sender.timeLeft
    ensures Elapse(c, ms) == c.(sender := c.sender.(timeLeft := c.sender.timeLeft - ms))
  {
    var s := c.sender.(timeLeft := c.sender.timeLeft - ms);
    assert Tick(c.sender, ms) == s;
    GuardingIsUnfinished(c.sender);
    var c1 := c.(sender := s);
    assert !c1.TimeWait() && Age(c, ms) == c1;
    assert StampAll(c.receiver, []) == [] && c.out + [] == c.out;
  }

  lemma GuardedIsBare(s: Sender)
    requires Plain(s) && Guarding(s)
    ensures Bare(Guarded(s))
  {
    if !s.probing {
      assert s.outstanding[0] in s.outstanding;
    }
  }

  // When the timer runs out a copy of what it guards leaves: as a reset if it is
  // the ninth in a row to count, and then the endpoint is inactive.
  lemma ExpiryLeaves(c: Conn, ms: nat)
    requires Sane(c) && c.Active() && c.sender.segmentsOut == [] && Expires(c.sender, ms)
    ensures var c', ninth := Elapse(c, ms), Pressing(c.sender) && c.sender.retransmissions == MAX_RETX_ATTEMPTS;
            && Leaves(c, c', Guarded(c.sender), ninth)
            && c'.Reset() == ninth && c'.Active() == !ninth && (!ninth ==> c'.sender.segmentsOut == [])
            && c'.sender.retransmissions == c.sender.retransmissions + (if Pressing(c.sender) then 1 else 0)
  {
    var s1, c1 := Tick(c.sender, ms), Age(c, ms);
    TickCountsIff(c.sender, ms);
    TickKeeps(c.sender, ms);
    GuardingIsUnfinished(s1);
    GuardedIsBare(c.sender);
    assert c1 == c.(sender := s1) && s1.segmentsOut == [Guarded(c.sender)];
    if s1.retransmissions > MAX_RETX_ATTEMPTS {
      GivesUp(c1, Guarded(c.sender));
    } else {
      SendsAgain(c1, Guarded(c.sender));
    }
  }

  // Without anything unacknowledged a tick sends nothing.
  lemma IdlePass(c: Conn, ms: nat)
    requires Sane(c) && c.Active() && c.sender.segmentsOut == [] && !Guarding(c.sender)
    ensures Elapse(c, ms).out == c.out && Elapse(c, ms).sender == c.sender
  {
    assert Tick(c.sender, ms) == c.sender;
    assert StampAll(c.receiver, []) == [] && c.out + [] == c.out;
  }

  // A tick that leaves the endpoint active leaves nothing queued; with nothing
  // queued before, so does any tick that does not reset the connection.
  lemma PassEmpties(c: Conn, ms: nat)
    requires Sane(c) && c.Active()
    ensures var c' := Elapse(c, ms);
            c'.Active() || (c.sender.segmentsOut == [] && !c'.Reset()) ==> c'.sender.segmentsOut == []
  {
    if c.sender.segmentsOut == [] {
      if !Guarding(c.sender) {
        IdlePass(c, ms);
      } else if ms < c.sender.timeLeft {
        QuietPass(c, ms);
      } else {
        ExpiryLeaves(c, ms);
      }
    } else {
      SendsOrStops(Age(c, ms));
    }
  }

  lemma SendsOrStops(c: Conn)
    requires c.Valid()
    ensures GiveUpOrSend(c).Active() ==> GiveUpOrSend(c).sender.segmentsOut == []
  {
  }

  // ----------------------------------------------------------------- many ticks

  ghost function Passes(c: Conn, ms: seq<nat>): (c': Conn)
    requires c.Valid()
    ensures c'.Valid()
    decreases |ms|
  {
    if ms == [] then c else Passes(Elapse(c, ms[0]), ms[1..])
  }

  lemma {:induction false} PassesSane(c: Conn, ms: seq<nat>)
    requires Sane(c)
    ensures Sane(Passes(c, ms)) && c.out <= Passes(c, ms).out
    decreases |ms|
  {
    if ms != [] {
      DoSane(c, Pass(ms[0]));
      PassesSane(Elapse(c, ms[0]), ms[1..]);
    }
  }

  lemma {:induction false} InactivePasses(c: Conn, ms: seq<nat>)
    requires c.Valid() && !c.Active()
    ensures Passes(c, ms) == c
    decreases |ms|
  {
    if ms != [] {
      InactivePasses(c, ms[1..]);
    }
  }

  // With something unacknowledged and nothing queued, a run of ticks makes a copy
  // of what the timer guards leave the endpoint exactly when the ticks add up to
  // the time left.
  lemma {:induction false} ResendsLeave(c: Conn, ms: seq<nat>)
    requires Sane(c) && c.Active() && c.sender.segmentsOut == [] && Guarding(c.sender) && ms != []
    ensures var c' := Passes(c, ms);
            if Sum(ms) >= c.sender.timeLeft
            then c.out < c'.out && SameData(Guarded(c.sender), c'.out[|c.out|])
            else c'.out == c.out && c'.sender == c.sender.(timeLeft := c.sender.timeLeft - Sum(ms))
    decreases |ms|
  {
    var c1 := Elapse(c, ms[0]);
    DoSane(c, Pass(ms[0]));
    if ms[0] >= c.sender.timeLeft {
      ExpiryLeaves(c, ms[0]);
      PassesSane(c1, ms[1..]);
      assert Passes(c, ms).out[|c.out|] == c1.out[|c.out|];
    } else {
      QuietPass(c, ms[0]);
      if |ms| > 1 {
        GuardingIsUnfinished(c1.sender);
        ResendsLeave(c1, ms[1..]);
      } else {
        assert ms[1..] == [] && Sum(ms) == ms[0];
      }
    }
  }

  // ------------------------------------------------------------------- backing off

  // How often a timer with `left` to go and doubling from `timeout` runs out.
  function Fires(left: nat, timeout: nat, ms: seq<nat>): nat
    decreases |ms|
  {
    if ms == [] then 0
    else if ms[0] < left then Fires(left - ms[0], timeout, ms[1..])
    else 1 + Fires(2 * timeout, 2 * timeout, ms[1..])
  }

  lemma ElapsedSender(c: Conn, ms: nat)
    requires c.Valid() && c.Active()
    ensures Alike(Tick(c.sender, ms), Elapse(c, ms).sender)
    ensures Tick(c.sender, ms).retransmissions <= MAX_RETX_ATTEMPTS ==> Elapse(c, ms).sender.stream == c.sender.stream
  {
    GiveUpOrSendAkin(Age(c, ms));
  }

  lemma StillUnacknowledged(c: Conn, ms: nat)
    requires Sane(c) && c.Active() && Guarding(c.sender)
    ensures var c' := Elapse(c, ms); Guarding(c'.sender) && (Pressing(c'.sender) <==> Pressing(c.sender))
  {
    TickKeeps(c.sender, ms);
    ElapsedSender(c, ms);
  }

  lemma DoublesExactly(s: Sender, initial: u16)
    requires BackedOff(s, initial) && s.retransmissions <= MAX_RETX_ATTEMPTS
    ensures (2 * s.timeout) % TWO_32 == 2 * s.timeout
  {
    DoublingFits(initial, s.retransmissions);
  }

  // One tick on what the peer holds up.
  lemma PressingPass(c: Conn, ms: nat)
    requires Sane(c) && c.Active() && Pressing(c.sender)
    ensures var c', fires := Elapse(c, ms), ms >= c.sender.timeLeft;
            && Sane(c') && Pressing(c'.sender)
            && c'.sender.retransmissions == c.sender.retransmissions + (if fires then 1 else 0)
            && c'.sender.timeout == (if fires then 2 * c.sender.timeout else c.sender.timeout)
            && c'.sender.timeLeft == (if fires then 2 * c.sender.timeout else c.sender.timeLeft - ms)
            && (c'.Active() <==> c'.sender.retransmissions <= MAX_RETX_ATTEMPTS)
  {
    DoSane(c, Pass(ms));
    TickCountsIff(c.sender, ms);
    ElapsedSender(c, ms);
    StillUnacknowledged(c, ms);
    DoublesExactly(c.sender, c.timeout);
    GuardingIsUnfinished(Elapse(c, ms).sender);
    if Tick(c.sender, ms).retransmissions <= MAX_RETX_ATTEMPTS {
      NotReset(c, ms);
    }
  }

  lemma NotReset(c: Conn, ms: nat)
    requires c.Valid() && c.Active() && Tick(c.sender, ms).retransmissions <= MAX_RETX_ATTEMPTS
    ensures !Elapse(c, ms).Reset()
  {
    assert Tick(c.sender, ms).stream == c.sender.stream;
  }

  // What a tick makes of the expiries to come.
  lemma FiresFirst(left: nat, timeout: nat, ms: seq<nat>, left': nat, timeout': nat)
    requires ms != []
    requires if ms[0] >= left then left' == timeout' == 2 * timeout else left' == left - ms[0] && timeout' == timeout
    ensures Fires(left, timeout, ms) == (if ms[0] >= left then 1 else 0) + Fires(left', timeout', ms[1..])
  {
  }

  lemma FiresStep(c: Conn, ms: seq<nat>)
    requires Sane(c) && c.Active() && Pressing(c.sender) && ms != []
    ensures var s' := Elapse(c, ms[0]).sender;
            c.sender.retransmissions + Fires(c.sender.timeLeft, c.sender.timeout, ms)
            == s'.retransmissions + Fires(s'.timeLeft, s'.timeout, ms[1..])
  {
    var s' := Elapse(c, ms[0]).sender;
    PressingPass(c, ms[0]);
    FiresFirst(c.sender.timeLeft, c.sender.timeout, ms, s'.timeLeft, s'.timeout);
  }

  // While the peer says nothing, every expiry counts, and the ninth in a row makes
  // the endpoint inactive.
  lemma {:induction false} ExpiriesCount(c: Conn, ms: seq<nat>)
    requires Sane(c) && c.Active() && Pressing(c.sender)
    ensures var n := c.sender.retransmissions + Fires(c.sender.timeLeft, c.sender.timeout, ms);
            && (Passes(c, ms).Active() <==> n < 9)
            && Passes(c, ms).sender.retransmissions == if n < 9 then n else 9
    decreases |ms|
  {
    if ms == [] {
      assert c.sender.retransmissions < 9;
    } else {
      var c1 := Elapse(c, ms[0]);
      assert Passes(c, ms) == Passes(c1, ms[1..]);
      FiresStep(c, ms);
      assert Sane(c1) && Pressing(c1.sender) && (c1.Active() <==> c1.sender.retransmissions < 9) && c1.sender.retransmissions <= 9 by {
        PressingPass(c, ms[0]);
      }
      if c1.Active() {
        ExpiriesCount(c1, ms[1..]);
      } else {
        InactivePasses(c1, ms[1..]);
      }
    }
  }

  // A closed window, or a probe, makes an endpoint wait for as long as it takes.
  lemma {:induction false} ClosedWindowIsPatient(c: Conn, ms: seq<nat>)
    requires Sane(c) && c.Active() && Guarding(c.sender) && !Pressing(c.sender)
    ensures Passes(c, ms).Active() && Passes(c, ms).sender.retransmissions == c.sender.retransmissions
    decreases |ms|
  {
    if ms != [] {
      var c1 := Elapse(c, ms[0]);
      DoSane(c, Pass(ms[0]));
      TickCountsIff(c.sender, ms[0]);
      ElapsedSender(c, ms[0]);
      StillUnacknowledged(c, ms[0]);
      GuardingIsUnfinished(c1.sender);
      NotReset(c, ms[0]);
      ClosedWindowIsPatient(c1, ms[1..]);
    }
  }

  // --------------------------------------------------------------------- how long

  // The time until the `k`-th expiry from now, ticks permitting.
  function Life(left: nat, timeout: nat, k: nat): nat
    requires k > 0
    decreases k
  {
    if k == 1 then left else left + Life(2 * timeout, 2 * timeout, k - 1)
  }

  lemma {:induction false} LifeIs(left: nat, timeout: nat, k: nat)
    requires k > 0
    ensures Life(left, timeout, k) == left + timeout * (Pow2(k) - 2)
    decreases k
  {
    var p := Pow2(k - 1);
    if k > 1 {
      LifeIs(2 * timeout, 2 * timeout, k - 1);
      assert 2 * timeout + 2 * timeout * (p - 2) == timeout * (2 * p - 2);
    }
  }

  lemma {:induction false} NoEarlier(left: nat, timeout: nat, ms: seq<nat>, k: nat)
    requires k > 0 && Sum(ms) < Life(left, timeout, k)
    ensures Fires(left, timeout, ms) < k
    decreases |ms|
  {
    if ms != [] {
      if ms[0] < left {
        NoEarlier(left - ms[0], timeout, ms[1..], k);
      } else {
        NoEarlier(2 * timeout, 2 * timeout, ms[1..], k - 1);
      }
    }
  }

  ghost predicate AtMost(ms: seq<nat>, d: nat) {
    ms != [] ==> ms[0] <= d && AtMost(ms[1..], d)
  }

  // What `k` expiries can be late by, with ticks of at most `d`.
  function Late(k: nat, d: nat): nat
    requires d > 0
  {
    if k == 0 then 0 else d - 1 + Late(k - 1, d)
  }

  lemma {:induction false} LateIs(k: nat, d: nat)
    requires d > 0
    ensures Late(k, d) == k * (d - 1)
  {
    if k > 0 {
      LateIs(k - 1, d);
      assert k * (d - 1) == (k - 1) * (d - 1) + (d - 1);
    }
  }

  lemma {:induction false} NoLater(left: nat, timeout: nat, ms: seq<nat>, k: nat, d: nat)
    requires k > 0 && left > 0 && timeout > 0 && d > 0 && AtMost(ms, d)
    requires Sum(ms) >= Life(left, timeout, k) + Late(k, d)
    ensures Fires(left, timeout, ms) >= k
    decreases |ms|
  {
    if ms[0] < left {
      NoLater(left - ms[0], timeout, ms[1..], k, d);
    } else if k > 1 {
      NoLater(2 * timeout, 2 * timeout, ms[1..], k - 1, d);
    }
  }

  // How long a peer that says nothing is put up with: never shorter than the
  // timeouts add up to, and longer only by what ticks of at most `d` can be late.
  lemma GivesUpInTime(c: Conn, ms: seq<nat>, d: nat)
    requires Sane(c) && c.Active() && Pressing(c.sender) && c.sender.timeLeft > 0 && c.sender.timeout > 0
    requires d > 0 && AtMost(ms, d)
    ensures c.sender.retransmissions < 9
    ensures var k := 9 - c.sender.retransmissions;
            var life := Life(c.sender.timeLeft, c.sender.timeout, k);
            && (Sum(ms) < life ==> Passes(c, ms).Active())
            && (Sum(ms) >= life + Late(k, d) ==> !Passes(c, ms).Active())
  {
    var left, timeout, k := c.sender.timeLeft, c.sender.timeout, 9 - c.sender.retransmissions;
    ExpiriesCount(c, ms);
    if Sum(ms) < Life(left, timeout, k) {
      NoEarlier(left, timeout, ms, k);
    }
    if Sum(ms) >= Life(left, timeout, k) + Late(k, d) {
      NoLater(left, timeout, ms, k, d);
    }
  }

  function Ones(n: nat): seq<nat> {
    if n == 0 then [] else [1] + Ones(n - 1)
  }

  lemma {:induction false} OnesAdd(n: nat)
    ensures Sum(Ones(n)) == n && AtMost(Ones(n), 1)
  {
    if n > 0 {
      OnesAdd(n - 1);
      assert Ones(n)[1..] == Ones(n - 1);
    }
  }

  lemma OpenIsPressing(sendCapacity: nat, receiveCapacity: nat, timeout: u16, isn: u32)
    ensures var c0 := NewConn(sendCapacity, receiveCapacity, timeout, isn);
            && Permitted(c0, Open)
            && var c := Do(c0, Open);
            && Sane(c) && c.Active() && Pressing(c.sender) && c.sender.retransmissions == 0
            && c.sender.timeLeft == timeout == c.sender.timeout
  {
    var c0 := NewConn(sendCapacity, receiveCapacity, timeout, isn);
    NewIsSane(sendCapacity, receiveCapacity, timeout, isn);
    var seg := Segment(c0.sender, true, false, []);
    assert FillWindow(c0.sender) == Send(c0.sender, seg) && FillWindow(c0.sender).segmentsOut == [seg];
    DoSane(c0, Open);
    GuardingIsUnfinished(Do(c0, Open).sender);
  }

  lemma NineLives(timeout: nat)
    ensures Life(timeout, timeout, 9) == 511 * timeout
  {
    LifeIs(timeout, timeout, 9);
    assert Pow2(8) == 256;
  }

  // With a clock that ticks every millisecond nothing is late.
  lemma UnitTicks(c: Conn, n: nat, k: nat, life: nat)
    requires Sane(c) && c.Active() && Pressing(c.sender) && c.sender.timeLeft > 0 && c.sender.timeout > 0
    requires k > 0 && k + c.sender.retransmissions == 9 && Life(c.sender.timeLeft, c.sender.timeout, k) == life
    ensures Passes(c, Ones(n)).Active() <==> n < life
  {
    OnesAdd(n);
    GivesUpInTime(c, Ones(n), 1);
    LateIs(k, 1);
  }

  // A peer that never answers: with a clock that ticks every millisecond, a new
  // connection is given up after exactly 511 times the configured timeout.
  lemma DeadPeer(sendCapacity: nat, receiveCapacity: nat, timeout: u16, isn: u32, n: nat)
    requires timeout > 0
    ensures var c0 := NewConn(sendCapacity, receiveCapacity, timeout, isn);
            Permitted(c0, Open) && (Passes(Do(c0, Open), Ones(n)).Active() <==> n < 511 * timeout)
  {
    OpenIsPressing(sendCapacity, receiveCapacity, timeout, isn);
    NineLives(timeout);
    UnitTicks(Do(NewConn(sendCapacity, receiveCapacity, timeout, isn), Open), n, 9, 511 * timeout);
  }
}

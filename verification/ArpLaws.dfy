/** What holds of a network interface after every history. */
module ArpLaws {
  import opened Numbers
  import opened IpDatagrams
  import opened NetworkInterfaces

  // -------------------------------------------------------------------- cache

  // What the interface last heard about an address, and how long ago.
  datatype Heard = Never | Heard(mac: mac, age: nat)

  // The frame is an ARP message from `ip` that the interface processes.
  predicate Announces(m: mac, f: Frame, ip: u32) {
    (f.dst == BROADCAST || f.dst == m) && f.body.Arp? && f.body.message.senderIp == ip
  }

  function Update(m: mac, e: Event, ip: u32, h: Heard): Heard {
    match e
    case Send(_, _) => h
    case Recv(f) => if Announces(m, f, ip) then Heard(f.body.message.senderMac, 0) else h
    case Pass(ms) => if h.Never? then Never else h.(age := h.age + ms)
  }

  // The latest ARP message from `ip`, from the history alone.
  function Latest(m: mac, es: seq<Event>, ip: u32): Heard {
    if es == [] then Never else Update(m, es[|es| - 1], ip, Latest(m, es[..|es| - 1], ip))
  }

  // The cache has `ip` exactly when it was heard of less than 30000 ms ago.
  ghost predicate Knows(i: Iface, ip: u32, h: Heard)
    requires Paired(i)
  {
    && (ip in i.cache <==> h.Heard? && h.age < MAX_CACHE_TIME)
    && (ip in i.cache ==> i.cache[ip] == h.mac && i.cacheAge[ip] == h.age)
  }

  lemma StepKnows(i: Iface, e: Event, ip: u32, h: Heard)
    requires Paired(i) && Knows(i, ip, h)
    ensures Knows(Step(i, e), ip, Update(i.mac, e, ip, h))
  {
    match e
    case Send(d, hop) => assert SendDatagram(i, d, hop).cache == i.cache;
    case Recv(f) => RecvCaches(i, f, ip);
    case Pass(ms) => TickCaches(i, ms, ip);
  }

  // The cache maps `ip` to an address exactly when the latest processed ARP
  // message from `ip` said so less than 30000 ms ago.
  lemma {:induction false} CacheIsLatest(m: mac, own: u32, es: seq<Event>, ip: u32)
    ensures Knows(Run(NewIface(m, own), es), ip, Latest(m, es, ip))
  {
    if es != [] {
      CacheIsLatest(m, own, es[..|es| - 1], ip);
      StepKnows(Run(NewIface(m, own), es[..|es| - 1]), es[|es| - 1], ip, Latest(m, es[..|es| - 1], ip));
    }
  }

  lemma TickCaches(i: Iface, ms: nat, ip: u32)
    requires Paired(i)
    ensures var i' := Tick(i, ms);
            && (ip in i'.cache <==> ip in i.cache && i.cacheAge[ip] + ms < MAX_CACHE_TIME)
            && (ip in i'.cache ==> i'.cache[ip] == i.cache[ip] && i'.cacheAge[ip] == i.cacheAge[ip] + ms)
  {
  }

  lemma RecvCaches(i: Iface, f: Frame, ip: u32)
    requires Paired(i)
    ensures var i' := RecvFrame(i, f);
            if Announces(i.mac, f, ip)
            then ip in i'.cache && i'.cache[ip] == f.body.message.senderMac && i'.cacheAge[ip] == 0
            else (ip in i'.cache <==> ip in i.cache)
                 && (ip in i.cache ==> i'.cache[ip] == i.cache[ip] && i'.cacheAge[ip] == i.cacheAge[ip])
  {
  }

  // ------------------------------------------------------------- conservation

  // How many of the frames carry datagram `d`.
  ghost function Carrying(out: seq<Frame>, d: InternetDatagram): nat {
    if out == [] then 0
    else Carrying(out[..|out| - 1], d) + (if out[|out| - 1].body == Ipv4(d) then 1 else 0)
  }

  lemma CarryingOne(out: seq<Frame>, f: Frame, d: InternetDatagram)
    ensures Carrying(out + [f], d) == Carrying(out, d) + (if f.body == Ipv4(d) then 1 else 0)
  {
    assert (out + [f])[..|out|] == out;
  }

  // The hops for which `d` waits.
  ghost function Waits(i: Iface, d: InternetDatagram): set<u32> {
    set ip | ip in i.waiting && i.waiting[ip] == d
  }

  // `d` is dropped when sent to `hop`: another datagram waits for that hop.
  ghost predicate Drops(i: Iface, hop: u32) {
    hop !in i.cache && hop in i.waiting
  }

  ghost function Submitted(es: seq<Event>, d: InternetDatagram): nat {
    if es == [] then 0
    else
      var e := es[|es| - 1];
      Submitted(es[..|es| - 1], d) + (if e.Send? && e.datagram == d then 1 else 0)
  }

  ghost function Dropped(i: Iface, es: seq<Event>, d: InternetDatagram): nat
    requires Paired(i)
  {
    if es == [] then 0
    else
      var e := es[|es| - 1];
      Dropped(i, es[..|es| - 1], d)
      + (if e.Send? && e.datagram == d && Drops(Run(i, es[..|es| - 1]), e.hop) then 1 else 0)
  }

  lemma WaitsMore(i: Iface, i': Iface, hop: u32, d: InternetDatagram, other: InternetDatagram)
    requires hop !in i.waiting && i'.waiting == i.waiting[hop := other]
    ensures |Waits(i', d)| == |Waits(i, d)| + (if other == d then 1 else 0)
  {
    assert Waits(i', d) == Waits(i, d) + (if other == d then {hop} else {});
  }

  lemma WaitsLess(i: Iface, i': Iface, hop: u32, d: InternetDatagram)
    requires hop in i.waiting && i'.waiting == i.waiting - {hop}
    ensures |Waits(i', d)| == |Waits(i, d)| - (if i.waiting[hop] == d then 1 else 0)
  {
    assert Waits(i, d) == Waits(i', d) + (if i.waiting[hop] == d then {hop} else {});
  }

  lemma SendConserves(i: Iface, s: InternetDatagram, hop: u32, d: InternetDatagram)
    requires Paired(i)
    ensures var i' := SendDatagram(i, s, hop);
            Carrying(i'.out, d) + |Waits(i', d)| + (if s == d && Drops(i, hop) then 1 else 0)
            == Carrying(i.out, d) + |Waits(i, d)| + (if s == d then 1 else 0)
  {
    var i' := SendDatagram(i, s, hop);
    if hop in i.cache {
      CarryingOne(i.out, Deliver(i, i.cache[hop], s), d);
      assert Waits(i', d) == Waits(i, d);
    } else if hop in i.waiting {
      CarryingOne(i.out, i.requests[hop], d);
      assert Waits(i', d) == Waits(i, d);
    } else {
      CarryingOne(i.out, RequestFor(i, hop), d);
      WaitsMore(i, i', hop, d, s);
    }
  }

  lemma ReleaseConserves(i: Iface, m: ArpMessage, d: InternetDatagram)
    requires Paired(i)
    ensures var i' := Release(i, m); Carrying(i'.out, d) + |Waits(i', d)| == Carrying(i.out, d) + |Waits(i, d)|
  {
    if m.senderIp in i.waiting {
      CarryingOne(i.out, Deliver(i, m.senderMac, i.waiting[m.senderIp]), d);
      WaitsLess(i, Release(i, m), m.senderIp, d);
    }
  }

  lemma AnswerConserves(i: Iface, m: ArpMessage, src: mac, d: InternetDatagram)
    requires Paired(i)
    ensures var i' := AnswerRequest(i, m, src); Carrying(i'.out, d) + |Waits(i', d)| == Carrying(i.out, d) + |Waits(i, d)|
  {
    var i' := AnswerRequest(i, m, src);
    assert Waits(i', d) == Waits(i, d);
    if m.targetIp == i.ip {
      CarryingOne(i.out, i'.out[|i.out|], d);
    }
  }

  lemma RecvConserves(i: Iface, f: Frame, d: InternetDatagram)
    requires Paired(i)
    ensures var i' := RecvFrame(i, f); Carrying(i'.out, d) + |Waits(i', d)| == Carrying(i.out, d) + |Waits(i, d)|
  {
    if Accepts(i, f) && f.body.Arp? {
      var m := f.body.message;
      var i1 := if m.opcode.Reply? then Release(i, m) else AnswerRequest(i, m, f.src);
      ReleaseConserves(i, m, d);
      AnswerConserves(i, m, f.src, d);
      assert Waits(RecvFrame(i, f), d) == Waits(i1, d);
    }
  }

  // Datagrams are conserved: however often `d` was submitted, each time it was
  // transmitted once, or is still waiting, or was dropped.
  lemma {:induction false} DatagramsAreConserved(m: mac, own: u32, es: seq<Event>, d: InternetDatagram)
    ensures var i0 := NewIface(m, own);
            Carrying(Run(i0, es).out, d) + |Waits(Run(i0, es), d)| + Dropped(i0, es, d) == Submitted(es, d)
  {
    var i0 := NewIface(m, own);
    if es == [] {
      assert Waits(i0, d) == {};
    } else {
      DatagramsAreConserved(m, own, es[..|es| - 1], d);
      var i := Run(i0, es[..|es| - 1]);
      match es[|es| - 1]
      case Send(s, hop) => SendConserves(i, s, hop, d);
      case Recv(f) => RecvConserves(i, f, d);
      case Pass(ms) => assert Waits(Tick(i, ms), d) == Waits(i, d);
    }
  }

  // ----------------------------------------------------------------- requests

  function Clock(es: seq<Event>): nat {
    if es == [] then 0
    else Clock(es[..|es| - 1]) + (if es[|es| - 1].Pass? then es[|es| - 1].ms else 0)
  }

  // The last event of the history put a request for `ip` on the wire.
  ghost predicate Asks(i: Iface, es: seq<Event>, ip: u32)
    requires Paired(i)
  {
    es != [] && Run(i, es).out == Run(i, es[..|es| - 1]).out + [RequestFor(i, ip)]
  }

  // `t` ms after a request for `ip`, nothing suggests that it was longer ago.
  ghost predicate Mindful(i: Iface, ip: u32, t: nat)
    requires Paired(i)
  {
    if ip in i.waiting then i.requestAge[ip] <= t
    else if ip in i.cache then i.cacheAge[ip] <= t
    else t >= MAX_REQ_TIME
  }

  // Event `e` makes the interface ask for `ip`.
  ghost predicate AsksNow(i: Iface, e: Event, ip: u32)
    requires Paired(i)
  {
    e.Send? && e.hop == ip && ip !in i.cache && (ip in i.waiting ==> i.requestAge[ip] >= MAX_REQ_TIME)
  }

  lemma AskingIsAsking(i: Iface, e: Event, ip: u32)
    requires Paired(i)
    ensures Step(i, e).out == i.out + [RequestFor(i, ip)] <==> AsksNow(i, e, ip)
  {
    if Step(i, e).out == i.out + [RequestFor(i, ip)] {
      assert Step(i, e).out[|i.out|] == RequestFor(i, ip);
    }
  }

  lemma SendMindful(i: Iface, d: InternetDatagram, hop: u32, ip: u32, t: nat)
    requires Paired(i) && (Mindful(i, ip, t) || AsksNow(i, Send(d, hop), ip))
    ensures Mindful(SendDatagram(i, d, hop), ip, t)
  {
  }

  lemma RecvMindful(i: Iface, f: Frame, ip: u32, t: nat)
    requires Paired(i) && Mindful(i, ip, t)
    ensures Mindful(RecvFrame(i, f), ip, t)
  {
    RecvCaches(i, f, ip);
  }

  lemma TickMindful(i: Iface, ms: nat, ip: u32, t: nat)
    requires Paired(i) && Mindful(i, ip, t)
    ensures Mindful(Tick(i, ms), ip, t + ms)
  {
  }

  lemma StepMindful(i: Iface, e: Event, ip: u32, t: nat)
    requires Paired(i) && Mindful(i, ip, t)
    ensures Mindful(Step(i, e), ip, t + (if e.Pass? then e.ms else 0))
    ensures AsksNow(i, e, ip) ==> t >= MAX_REQ_TIME
  {
    match e
    case Send(d, hop) => SendMindful(i, d, hop, ip, t);
    case Recv(f) => RecvMindful(i, f, ip, t);
    case Pass(ms) => TickMindful(i, ms, ip, t);
  }

  lemma {:induction false} RunMindful(m: mac, own: u32, es: seq<Event>, first: nat, ip: u32)
    requires first <= |es| && Asks(NewIface(m, own), es[..first], ip)
    ensures Clock(es[..first]) <= Clock(es)
    ensures Mindful(Run(NewIface(m, own), es), ip, Clock(es) - Clock(es[..first]))
  {
    var i0 := NewIface(m, own);
    if first == |es| {
      assert es[..first] == es;
      var i, e := Run(i0, es[..|es| - 1]), es[|es| - 1];
      AskedLast(m, own, es, ip);
      SendMindful(i, e.datagram, e.hop, ip, 0);
    } else {
      var init := es[..|es| - 1];
      assert init[..first] == es[..first];
      RunMindful(m, own, init, first, ip);
      StepMindful(Run(i0, init), es[|es| - 1], ip, Clock(init) - Clock(es[..first]));
    }
  }

  lemma AskedLast(m: mac, own: u32, es: seq<Event>, ip: u32)
    requires Asks(NewIface(m, own), es, ip)
    ensures AsksNow(Run(NewIface(m, own), es[..|es| - 1]), es[|es| - 1], ip)
  {
    AskingIsAsking(Run(NewIface(m, own), es[..|es| - 1]), es[|es| - 1], ip);
  }

  lemma LastAskIsApart(m: mac, own: u32, es: seq<Event>, first: nat, ip: u32)
    requires first < |es| && Asks(NewIface(m, own), es[..first], ip) && Asks(NewIface(m, own), es, ip)
    ensures Clock(es) - Clock(es[..first]) >= MAX_REQ_TIME
  {
    var before := es[..|es| - 1];
    assert before[..first] == es[..first];
    AskedLast(m, own, es, ip);
    RunMindful(m, own, before, first, ip);
    StepMindful(Run(NewIface(m, own), before), es[|es| - 1], ip, Clock(before) - Clock(es[..first]));
  }

  // Any two requests for one address are at least 5000 ms apart, over the
  // whole history.
  lemma RequestsAreApart(m: mac, own: u32, es: seq<Event>, first: nat, second: nat, ip: u32)
    requires first < second <= |es|
    requires Asks(NewIface(m, own), es[..first], ip) && Asks(NewIface(m, own), es[..second], ip)
    ensures Clock(es[..second]) - Clock(es[..first]) >= MAX_REQ_TIME
  {
    assert es[..second][..first] == es[..first];
    LastAskIsApart(m, own, es[..second], first, ip);
  }
}

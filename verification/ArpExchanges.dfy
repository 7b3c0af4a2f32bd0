/**
 What a network interface sends: every frame, told from the history alone, and
 how two interfaces on one link find each other.
 */
module ArpExchanges {
  import opened Numbers
  import opened Options
  import opened IpDatagrams
  import opened NetworkInterfaces
  import opened ArpLaws

  // ------------------------------------------------------------ what is waiting

  // The datagram that waits for an address, and how long ago it was asked for.
  datatype Pending = Nothing | Pending(datagram: InternetDatagram, age: nat)

  // The last message about an address still counts.
  predicate Recent(h: Heard) {
    h.Heard? && h.age < MAX_CACHE_TIME
  }

  // The time since the last request, as far as 32 bits can tell, is up.
  predicate Due(w: Pending) {
    w.Nothing? || w.age % TWO_32 >= MAX_REQ_TIME
  }

  function Await(m: mac, e: Event, ip: u32, h: Heard, w: Pending): Pending {
    match e
    case Send(d, hop) =>
      if hop != ip || Recent(h) || !Due(w) then w
      else Pending(if w.Nothing? then d else w.datagram, 0)
    case Recv(f) => if Announces(m, f, ip) && f.body.message.opcode.Reply? then Nothing else w
    case Pass(ms) => if w.Nothing? then Nothing else w.(age := w.age + ms)
  }

  // What waits for `ip`, from the history alone.
  function Awaited(m: mac, es: seq<Event>, ip: u32): Pending {
    if es == [] then Nothing
    else
      var before := es[..|es| - 1];
      Await(m, es[|es| - 1], ip, Latest(m, before, ip), Awaited(m, before, ip))
  }

  ghost predicate Holds(i: Iface, ip: u32, w: Pending)
    requires Paired(i)
  {
    && (ip in i.waiting <==> w.Pending?)
    && (ip in i.waiting ==> i.waiting[ip] == w.datagram && i.requestAge[ip] == w.age % TWO_32)
  }

  lemma AgeAdds(age: nat, ms: nat)
    ensures (age % TWO_32 + ms) % TWO_32 == (age + ms) % TWO_32
  {
  }

  lemma SendElsewhere(i: Iface, d: InternetDatagram, hop: u32, ip: u32, w: Pending)
    requires Paired(i) && Holds(i, ip, w) && hop != ip
    ensures Holds(SendDatagram(i, d, hop), ip, w)
  {
  }

  lemma SendHolds(i: Iface, d: InternetDatagram, hop: u32, h: Heard, w: Pending)
    requires Paired(i) && Knows(i, hop, h) && Holds(i, hop, w)
    ensures Holds(SendDatagram(i, d, hop), hop, Await(i.mac, Send(d, hop), hop, h, w))
  {
    var i' := SendDatagram(i, d, hop);
    if Recent(h) || !Due(w) {
      assert i'.waiting == i.waiting && i'.requestAge == i.requestAge;
    } else {
      assert i'.requestAge[hop] == 0;
    }
  }

  lemma RecvHolds(i: Iface, f: Frame, ip: u32, h: Heard, w: Pending)
    requires Paired(i) && Holds(i, ip, w)
    ensures Holds(RecvFrame(i, f), ip, Await(i.mac, Recv(f), ip, h, w))
  {
  }

  lemma StepHolds(i: Iface, e: Event, ip: u32, h: Heard, w: Pending)
    requires Paired(i) && Knows(i, ip, h) && Holds(i, ip, w)
    ensures Holds(Step(i, e), ip, Await(i.mac, e, ip, h, w))
  {
    match e
    case Send(d, hop) =>
      if hop == ip {
        SendHolds(i, d, hop, h, w);
      } else {
        SendElsewhere(i, d, hop, ip, w);
      }
    case Recv(f) => RecvHolds(i, f, ip, h, w);
    case Pass(ms) =>
      if w.Pending? {
        AgeAdds(w.age, ms);
      }
  }

  lemma {:induction false} WaitingIsExact(m: mac, own: u32, es: seq<Event>, ip: u32)
    ensures Holds(Run(NewIface(m, own), es), ip, Awaited(m, es, ip))
  {
    if es != [] {
      var before := es[..|es| - 1];
      WaitingIsExact(m, own, before, ip);
      CacheIsLatest(m, own, before, ip);
      StepHolds(Run(NewIface(m, own), before), es[|es| - 1], ip, Latest(m, before, ip), Awaited(m, before, ip));
    }
  }

  // --------------------------------------------------------------- what is sent

  // A question for the hardware address of `ip`, to everyone.
  function Question(m: mac, own: u32, ip: u32): Frame {
    Frame(BROADCAST, m, Arp(ArpMessage(Request, m, own, 0, ip)))
  }

  // What an ARP message makes interface (m, own) send, if `w` waits for its sender.
  function Response(m: mac, own: u32, f: Frame, w: Pending): seq<Frame> {
    if !(f.dst == BROADCAST || f.dst == m) || !f.body.Arp? then []
    else
      var msg := f.body.message;
      if msg.opcode.Reply? then (if w.Pending? then [Frame(msg.senderMac, m, Ipv4(w.datagram))] else [])
      else if msg.targetIp == own then [Frame(f.src, m, Arp(ArpMessage(Reply, m, own, msg.senderMac, msg.senderIp)))]
      else []
  }

  // What the next event makes interface (m, own) send after history `es`.
  function Sends(m: mac, own: u32, es: seq<Event>, e: Event): seq<Frame> {
    match e
    case Send(d, hop) =>
      if Recent(Latest(m, es, hop)) then [Frame(Latest(m, es, hop).mac, m, Ipv4(d))]
      else if Due(Awaited(m, es, hop)) then [Question(m, own, hop)]
      else []
    case Recv(f) => Response(m, own, f, if f.body.Arp? then Awaited(m, es, f.body.message.senderIp) else Nothing)
    case Pass(_) => []
  }

  function AllSends(m: mac, own: u32, es: seq<Event>): seq<Frame> {
    if es == [] then [] else AllSends(m, own, es[..|es| - 1]) + Sends(m, own, es[..|es| - 1], es[|es| - 1])
  }

  lemma SendSends(i: Iface, d: InternetDatagram, hop: u32, h: Heard, w: Pending)
    requires Paired(i) && Knows(i, hop, h) && Holds(i, hop, w)
    ensures SendDatagram(i, d, hop).out ==
              i.out + if Recent(h) then [Frame(h.mac, i.mac, Ipv4(d))] else if Due(w) then [Question(i.mac, i.ip, hop)] else []
  {
  }

  lemma RecvSends(i: Iface, f: Frame, w: Pending)
    requires Paired(i) && (f.body.Arp? ==> Holds(i, f.body.message.senderIp, w))
    ensures RecvFrame(i, f).out == i.out + Response(i.mac, i.ip, f, w)
  {
  }

  lemma StepSends(m: mac, own: u32, es: seq<Event>, e: Event)
    ensures var i := Run(NewIface(m, own), es); Step(i, e).out == i.out + Sends(m, own, es, e)
  {
    var i := Run(NewIface(m, own), es);
    match e {
      case Send(d, hop) =>
        CacheIsLatest(m, own, es, hop);
        WaitingIsExact(m, own, es, hop);
        SendSends(i, d, hop, Latest(m, es, hop), Awaited(m, es, hop));
      case Recv(f) =>
        if f.body.Arp? {
          WaitingIsExact(m, own, es, f.body.message.senderIp);
          RecvSends(i, f, Awaited(m, es, f.body.message.senderIp));
        }
      case Pass(ms) =>
    }
  }

  // Over every history the frames sent are those told by the history: a datagram
  // to the address the latest message gave, a question no sooner than 5000 ms
  // after the last one, the waiting datagram to whoever answers, and an answer to
  // whoever asks for this interface.
  lemma {:induction false} FramesAreExact(m: mac, own: u32, es: seq<Event>)
    ensures Run(NewIface(m, own), es).out == AllSends(m, own, es)
  {
    if es != [] {
      FramesAreExact(m, own, es[..|es| - 1]);
      StepSends(m, own, es[..|es| - 1], es[|es| - 1]);
    }
  }

  // An answer goes out exactly for a question about this interface's address, to
  // where the question came from, and names this interface.
  lemma AnswersIff(i: Iface, f: Frame)
    requires Paired(i)
    ensures var i' := RecvFrame(i, f);
            (exists r: Frame :: i'.out == i.out + [r] && r.body.Arp?) <==>
              && (f.dst == BROADCAST || f.dst == i.mac) && f.body.Arp?
              && f.body.message.opcode == Request && f.body.message.targetIp == i.ip
    ensures forall r: Frame :: RecvFrame(i, f).out == i.out + [r] && r.body.Arp? ==>
              r == Frame(f.src, i.mac, Arp(ArpMessage(Reply, i.mac, i.ip, f.body.message.senderMac, f.body.message.senderIp)))
  {
    var i' := RecvFrame(i, f);
    forall r: Frame | i'.out == i.out + [r] && r.body.Arp?
      ensures Accepts(i, f) && f.body.Arp? && f.body.message.opcode == Request && f.body.message.targetIp == i.ip
      ensures r == Frame(f.src, i.mac, Arp(ArpMessage(Reply, i.mac, i.ip, f.body.message.senderMac, f.body.message.senderIp)))
    {
      assert i'.out[|i.out|] == r;
    }
    if Accepts(i, f) && f.body.Arp? && f.body.message.opcode == Request && f.body.message.targetIp == i.ip {
      var r := Frame(f.src, i.mac, Arp(ArpMessage(Reply, i.mac, i.ip, f.body.message.senderMac, f.body.message.senderIp)));
      assert i'.out == i.out + [r];
    }
  }

  // A datagram is passed up exactly from an IPv4 frame for this interface.
  lemma ReceivedIff(i: Iface, f: Frame, d: InternetDatagram)
    ensures Received(i, f) == Some(d) <==> (f.dst == BROADCAST || f.dst == i.mac) && f.body == Ipv4(d)
  {
  }

  // --------------------------------------------------------------- two interfaces

  function Last(i: Iface): Frame
    requires i.out != []
  {
    i.out[|i.out| - 1]
  }

  lemma AskingStep(x: Iface, d: InternetDatagram, ip: u32)
    requires Paired(x) && AsksNow(x, Send(d, ip), ip)
    ensures var x1 := SendDatagram(x, d, ip);
            && x1.mac == x.mac && x1.ip == x.ip && x1.out == x.out + [Question(x.mac, x.ip, ip)]
            && ip in x1.waiting && x1.waiting[ip] == if ip in x.waiting then x.waiting[ip] else d
  {
  }

  // The answer of interface (m, own) to one at (m', own').
  function Answer(m: mac, own: u32, m': mac, own': u32): Frame {
    Frame(m', m, Arp(ArpMessage(Reply, m, own, m', own')))
  }

  lemma AnsweringStep(y: Iface, m: mac, ip: u32)
    requires Paired(y)
    ensures var y1 := RecvFrame(y, Question(m, ip, y.ip));
            && y1.out == y.out + [Answer(y.mac, y.ip, m, ip)] && y1.mac == y.mac && y1.ip == y.ip
            && ip in y1.cache && y1.cache[ip] == m
  {
  }

  lemma LearningStep(x: Iface, m: mac, ip: u32)
    requires Paired(x) && ip in x.waiting
    ensures var x2 := RecvFrame(x, Answer(m, ip, x.mac, x.ip));
            && x2.out == x.out + [Frame(m, x.mac, Ipv4(x.waiting[ip]))]
            && ip in x2.cache && x2.cache[ip] == m && ip !in x2.waiting
  {
  }

  // Whenever one interface has to ask for another on its link, one question and
  // one answer make both know each other, and the datagram that waits gets there.
  lemma Exchange(x: Iface, y: Iface, d: InternetDatagram)
    requires Paired(x) && Paired(y) && AsksNow(x, Send(d, y.ip), y.ip)
    ensures var x1 := SendDatagram(x, d, y.ip);
            x1.out != [] &&
            var y1 := RecvFrame(y, Last(x1));
            y1.out != [] &&
            var x2 := RecvFrame(x1, Last(y1));
            && y.ip in x2.cache && x2.cache[y.ip] == y.mac
            && x.ip in y1.cache && y1.cache[x.ip] == x.mac
            && y.ip !in x2.waiting && x2.out != []
            && Received(y1, Last(x2)) == Some(if y.ip in x.waiting then x.waiting[y.ip] else d)
  {
    AskingStep(x, d, y.ip);
    AnsweringStep(y, x.mac, x.ip);
    LearningStep(SendDatagram(x, d, y.ip), y.mac, y.ip);
  }

  // Everyone else on the link takes note of who asked and sends nothing.
  lemma Bystander(z: Iface, x: Iface, y: Iface)
    requires Paired(z) && z.ip != y.ip && z.mac != x.mac && x.mac != BROADCAST
    ensures var z1 := RecvFrame(z, Question(x.mac, x.ip, y.ip));
            && z1.out == z.out && x.ip in z1.cache && z1.cache[x.ip] == x.mac
            && RecvFrame(z1, Answer(y.mac, y.ip, x.mac, x.ip)) == z1
  {
    var z1 := RecvFrame(z, Question(x.mac, x.ip, y.ip));
    assert !Accepts(z1, Answer(y.mac, y.ip, x.mac, x.ip));
  }
}

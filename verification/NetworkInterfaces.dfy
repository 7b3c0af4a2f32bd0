/**
 The network interface on values: IP datagrams in Ethernet frames, with ARP to
 find out where to send them.
 */
module NetworkInterfaces {
  import opened Numbers
  import opened Options
  import opened IpDatagrams

  const MAX_REQ_TIME: nat := 5000
  const MAX_CACHE_TIME: nat := 30000

  // A 48-bit Ethernet address.
  type mac = x: int | 0 <= x < 0x1_0000_0000_0000
  const BROADCAST: mac := 0xFFFF_FFFF_FFFF

  datatype Opcode = Request | Reply

  datatype ArpMessage = ArpMessage(
    opcode: Opcode, senderMac: mac, senderIp: u32, targetMac: mac, targetIp: u32)

  // What a frame carries, by its type; `Other` is a frame of another type or
  // one whose payload does not parse.
  datatype Body = Ipv4(datagram: InternetDatagram) | Arp(message: ArpMessage) | Other

  datatype Frame = Frame(dst: mac, src: mac, body: Body)

  // `out` is every frame sent so far.
  datatype Iface = Iface(
    mac: mac, ip: u32, out: seq<Frame>,
    cache: map<u32, mac>, cacheAge: map<u32, nat>,
    waiting: map<u32, InternetDatagram>, requestAge: map<u32, u32>, requests: map<u32, Frame>)

  function NewIface(mac: mac, ip: u32): Iface {
    Iface(mac, ip, [], map[], map[], map[], map[], map[])
  }

  function RequestFor(i: Iface, ip: u32): Frame {
    Frame(BROADCAST, i.mac, Arp(ArpMessage(Request, i.mac, i.ip, 0, ip)))
  }

  function Deliver(i: Iface, to: mac, d: InternetDatagram): Frame {
    Frame(to, i.mac, Ipv4(d))
  }

  // The paired maps have equal key sets, and the remembered requests ask for
  // their key.
  ghost predicate Paired(i: Iface) {
    && i.cache.Keys == i.cacheAge.Keys
    && i.waiting.Keys == i.requestAge.Keys == i.requests.Keys
    && forall ip | ip in i.requests :: i.requests[ip] == RequestFor(i, ip)
  }

  // `send_datagram`
  function SendDatagram(i: Iface, d: InternetDatagram, hop: u32): (i': Iface)
    requires Paired(i)
    ensures Paired(i')
  {
    if hop in i.cache then i.(out := i.out + [Deliver(i, i.cache[hop], d)])
    else if hop in i.waiting then
      if i.requestAge[hop] >= MAX_REQ_TIME
      then i.(requestAge := i.requestAge[hop := 0], out := i.out + [i.requests[hop]])
      else i
    else
      i.(waiting := i.waiting[hop := d], requestAge := i.requestAge[hop := 0],
         requests := i.requests[hop := RequestFor(i, hop)], out := i.out + [RequestFor(i, hop)])
  }

  // The frame is for this interface.
  predicate Accepts(i: Iface, f: Frame) {
    f.dst == BROADCAST || f.dst == i.mac
  }

  // A reply releases the datagram that waits for it.
  function Release(i: Iface, m: ArpMessage): (i': Iface)
    requires Paired(i)
    ensures Paired(i')
  {
    var ip := m.senderIp;
    if ip in i.waiting
    then i.(waiting := i.waiting - {ip}, requestAge := i.requestAge - {ip}, requests := i.requests - {ip},
            out := i.out + [Deliver(i, m.senderMac, i.waiting[ip])])
    else i
  }

  // A request for this interface's address is answered.
  function AnswerRequest(i: Iface, m: ArpMessage, src: mac): (i': Iface)
    requires Paired(i)
    ensures Paired(i')
  {
    if m.targetIp == i.ip
    then i.(out := i.out + [Frame(src, i.mac, Arp(ArpMessage(Reply, i.mac, i.ip, m.senderMac, m.senderIp)))])
    else i
  }

  // Any ARP message for this interface is acted on and remembered.
  function Learn(i: Iface, m: ArpMessage, src: mac): (i': Iface)
    requires Paired(i)
    ensures Paired(i')
  {
    var i1 := if m.opcode.Reply? then Release(i, m) else AnswerRequest(i, m, src);
    i1.(cache := i1.cache[m.senderIp := m.senderMac], cacheAge := i1.cacheAge[m.senderIp := 0])
  }

  // `recv_frame`: the new state; the datagram passed up is `Received`.
  function RecvFrame(i: Iface, f: Frame): (i': Iface)
    requires Paired(i)
    ensures Paired(i')
  {
    if Accepts(i, f) && f.body.Arp? then Learn(i, f.body.message, f.src) else i
  }

  function Received(i: Iface, f: Frame): Option<InternetDatagram> {
    if Accepts(i, f) && f.body.Ipv4? then Some(f.body.datagram) else None
  }

  // Request ages are 32-bit numbers.
  function OlderRequests(ages: map<u32, u32>, ms: nat): map<u32, u32> {
    map ip | ip in ages :: (ages[ip] + ms) % TWO_32
  }

  function OlderAges(ages: map<u32, nat>, ms: nat): map<u32, nat> {
    map ip | ip in ages && ages[ip] + ms < MAX_CACHE_TIME :: ages[ip] + ms
  }

  function OlderCache(cache: map<u32, mac>, ages: map<u32, nat>, ms: nat): map<u32, mac>
    requires cache.Keys == ages.Keys
  {
    map ip | ip in cache && ages[ip] + ms < MAX_CACHE_TIME :: cache[ip]
  }

  // `tick`
  function Tick(i: Iface, ms: nat): (i': Iface)
    requires Paired(i)
    ensures Paired(i')
  {
    i.(requestAge := OlderRequests(i.requestAge, ms),
       cache := OlderCache(i.cache, i.cacheAge, ms), cacheAge := OlderAges(i.cacheAge, ms))
  }

  // ------------------------------------------------------------------ history

  datatype Event =
    | Send(datagram: InternetDatagram, hop: u32)
    | Recv(frame: Frame)
    | Pass(ms: nat)

  function Step(i: Iface, e: Event): (i': Iface)
    requires Paired(i)
    ensures Paired(i') && i'.mac == i.mac && i'.ip == i.ip && i.out <= i'.out
  {
    match e
    case Send(d, hop) => SendDatagram(i, d, hop)
    case Recv(f) => RecvFrame(i, f)
    case Pass(ms) => Tick(i, ms)
  }

  // The interface after a history, the last event last.
  function Run(i: Iface, es: seq<Event>): (i': Iface)
    requires Paired(i)
    ensures Paired(i') && i'.mac == i.mac && i'.ip == i.ip && i.out <= i'.out
  {
    if es == [] then i else Step(Run(i, es[..|es| - 1]), es[|es| - 1])
  }
}

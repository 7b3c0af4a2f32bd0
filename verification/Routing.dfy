/** Longest-prefix routing on values. */
module Routing {
  import opened Numbers
  import opened Options
  import opened IpDatagrams
  import N = NetworkInterfaces

  // An entry of the routing table; without a next hop the network is attached
  // directly.
  datatype Route = Route(prefix: u32, length: byte, nextHop: Option<u32>, port: nat)

  // The top `length` bits of an address, as a number.
  function Top(x: u32, length: byte): int {
    x / Pow2(32 - Min(length, 32))
  }

  predicate Matches(dst: u32, r: Route) {
    Top(dst, r.length) == Top(r.prefix, r.length)
  }

  lemma BlockApart(j: int, k: int, size: nat)
    requires j < k
    ensures j * size + size <= k * size
  {
    assert (k - j - 1) * size >= 0;
    assert k * size == (k - j - 1) * size + (j * size + size);
  }

  lemma SameBlock(x: nat, y: nat, size: nat)
    requires size > 0
    ensures x / size == y / size <==> x - x % size <= y < x - x % size + size
  {
    var k, j := x / size, y / size;
    assert x - x % size == k * size && y == j * size + y % size;
    if j < k {
      BlockApart(j, k, size);
    } else if j > k {
      BlockApart(k, j, size);
    }
  }

  // A route matches the addresses of one block: those that share its first bits.
  lemma MatchesBlock(dst: u32, r: Route)
    ensures var size := Pow2(32 - Min(r.length, 32));
            Matches(dst, r) <==> r.prefix - r.prefix % size <= dst < r.prefix - r.prefix % size + size
  {
    SameBlock(r.prefix, dst, Pow2(32 - Min(r.length, 32)));
  }

  // The table entry the scan settles on.
  function Lookup(table: seq<Route>, dst: u32): (k: Option<nat>)
    ensures k.Some? ==> k.value < |table|
  {
    if table == [] then None
    else
      var n := |table| - 1;
      var k := Lookup(table[..n], dst);
      if !Matches(dst, table[n]) then k
      else if k.Some? && table[k.value].length >= table[n].length then k
      else Some(n)
  }

  // It is the first of the longest matching entries, if any entry matches.
  lemma {:induction false} LookupIsFirstLongest(table: seq<Route>, dst: u32)
    ensures match Lookup(table, dst)
            case None => forall j | 0 <= j < |table| :: !Matches(dst, table[j])
            case Some(k) =>
              && Matches(dst, table[k])
              && (forall j | 0 <= j < |table| && Matches(dst, table[j]) :: table[j].length <= table[k].length)
              && (forall j | 0 <= j < k && Matches(dst, table[j]) :: table[j].length < table[k].length)
  {
    if table != [] {
      var init := table[..|table| - 1];
      LookupIsFirstLongest(init, dst);
      assert forall j | 0 <= j < |init| :: init[j] == table[j];
    }
  }

  // How a datagram leaves: through which port, to which hop, as what.
  datatype Exit = Exit(port: nat, hop: u32, datagram: InternetDatagram)

  function ExitOf(table: seq<Route>, d: InternetDatagram): Option<Exit> {
    if d.header.ttl <= 1 then None
    else
      match Lookup(table, d.header.dst)
      case None => None
      case Some(k) =>
        var hop := match table[k].nextHop case Some(h) => h case None => d.header.dst;
        Some(Exit(table[k].port, hop, d.(header := d.header.(ttl := d.header.ttl - 1))))
  }

  ghost predicate Connected(table: seq<Route>, ports: nat) {
    forall k | 0 <= k < |table| :: table[k].port < ports
  }

  ghost predicate AllPaired(ifaces: seq<N.Iface>) {
    forall k | 0 <= k < |ifaces| :: N.Paired(ifaces[k])
  }

  // `route_one_datagram`
  ghost function Forward(table: seq<Route>, ifaces: seq<N.Iface>, d: InternetDatagram): (r: seq<N.Iface>)
    requires Connected(table, |ifaces|) && AllPaired(ifaces)
    ensures |r| == |ifaces| && AllPaired(r)
  {
    match ExitOf(table, d)
    case None => ifaces
    case Some(e) => ifaces[e.port := N.SendDatagram(ifaces[e.port], e.datagram, e.hop)]
  }

  ghost function ForwardAll(table: seq<Route>, ifaces: seq<N.Iface>, ds: seq<InternetDatagram>): (r: seq<N.Iface>)
    requires Connected(table, |ifaces|) && AllPaired(ifaces)
    ensures |r| == |ifaces| && AllPaired(r)
    decreases |ds|
  {
    if ds == [] then ifaces else ForwardAll(table, Forward(table, ifaces, ds[0]), ds[1..])
  }

  lemma ForwardFirst(table: seq<Route>, ifaces: seq<N.Iface>, ds: seq<InternetDatagram>)
    requires Connected(table, |ifaces|) && AllPaired(ifaces) && ds != []
    ensures ForwardAll(table, ifaces, ds) == ForwardAll(table, Forward(table, ifaces, ds[0]), ds[1..])
  {
  }

  lemma {:induction false} ForwardAllJoin(table: seq<Route>, ifaces: seq<N.Iface>, xs: seq<InternetDatagram>, ys: seq<InternetDatagram>)
    requires Connected(table, |ifaces|) && AllPaired(ifaces)
    ensures ForwardAll(table, ForwardAll(table, ifaces, xs), ys) == ForwardAll(table, ifaces, xs + ys)
    decreases |xs|
  {
    if xs == [] {
      assert xs + ys == ys;
    } else {
      assert (xs + ys)[0] == xs[0] && (xs + ys)[1..] == xs[1..] + ys;
      ForwardAllJoin(table, Forward(table, ifaces, xs[0]), xs[1..], ys);
    }
  }

  // One queue after the other.
  function Concat(queues: seq<seq<InternetDatagram>>): seq<InternetDatagram> {
    if queues == [] then [] else queues[0] + Concat(queues[1..])
  }

  // The queues with the first `k` of them empty.
  ghost function Emptied(queues: seq<seq<InternetDatagram>>, k: nat): seq<seq<InternetDatagram>> {
    seq(|queues|, i requires 0 <= i < |queues| => if i < k then [] else queues[i])
  }

  lemma EmptyNext(table: seq<Route>, ifaces: seq<N.Iface>, queues: seq<seq<InternetDatagram>>, k: nat)
    requires Connected(table, |ifaces|) && AllPaired(ifaces) && k < |queues|
    ensures Emptied(queues, k)[k] == queues[k] && Emptied(queues, k)[k := []] == Emptied(queues, k + 1)
    ensures ForwardAll(table, ForwardAll(table, ifaces, queues[k]), Concat(queues[k + 1..]))
            == ForwardAll(table, ifaces, Concat(queues[k..]))
  {
    assert queues[k..][0] == queues[k] && queues[k..][1..] == queues[k + 1..];
    ForwardAllJoin(table, ifaces, queues[k], Concat(queues[k + 1..]));
  }

  // ------------------------------------------------- what each port is given

  // What leaves the router, in order.
  function Leaves(table: seq<Route>, ds: seq<InternetDatagram>): seq<Exit> {
    if ds == [] then []
    else (match ExitOf(table, ds[0]) case Some(e) => [e] case None => []) + Leaves(table, ds[1..])
  }

  // The part of it that leaves through `port`.
  function Through(exits: seq<Exit>, port: nat): seq<Exit> {
    if exits == [] then [] else (if exits[0].port == port then [exits[0]] else []) + Through(exits[1..], port)
  }

  ghost function SendAll(i: N.Iface, exits: seq<Exit>): (i': N.Iface)
    requires N.Paired(i)
    ensures N.Paired(i')
    decreases |exits|
  {
    if exits == [] then i else SendAll(N.SendDatagram(i, exits[0].datagram, exits[0].hop), exits[1..])
  }

  // Routing gives each port exactly the datagrams routed to it, once each and in
  // order, and touches no port otherwise.
  lemma {:induction false} EachPortGetsItsOwn(table: seq<Route>, ifaces: seq<N.Iface>, ds: seq<InternetDatagram>, port: nat)
    requires Connected(table, |ifaces|) && AllPaired(ifaces) && port < |ifaces|
    ensures ForwardAll(table, ifaces, ds)[port] == SendAll(ifaces[port], Through(Leaves(table, ds), port))
    decreases |ds|
  {
    if ds != [] {
      var next, rest := Forward(table, ifaces, ds[0]), Leaves(table, ds[1..]);
      EachPortGetsItsOwn(table, next, ds[1..], port);
      match ExitOf(table, ds[0])
      case Some(e) =>
        assert Leaves(table, ds) == [e] + rest && ([e] + rest)[1..] == rest;
        if e.port == port {
          assert ([e] + Through(rest, port))[1..] == Through(rest, port);
        } else {
          assert [] + Through(rest, port) == Through(rest, port);
        }
      case None =>
        assert Leaves(table, ds) == [] + rest == rest;
    }
  }

  // A datagram leaves exactly when it can live one more hop and some route
  // matches; it is then unchanged but for its time to live, which is one less
  // and not zero, and the route is the first longest match.
  lemma LeavesIff(table: seq<Route>, d: InternetDatagram)
    ensures ExitOf(table, d).Some? <==>
              d.header.ttl >= 2 && exists k | 0 <= k < |table| :: Matches(d.header.dst, table[k])
    ensures ExitOf(table, d).Some? ==>
              var e := ExitOf(table, d).value;
              && e.datagram.payload == d.payload && e.datagram.header == d.header.(ttl := d.header.ttl - 1)
              && e.datagram.header.ttl >= 1
              && exists k | 0 <= k < |table| ::
                   && Matches(d.header.dst, table[k]) && e.port == table[k].port
                   && e.hop == (match table[k].nextHop case Some(h) => h case None => d.header.dst)
                   && (forall j | 0 <= j < |table| && Matches(d.header.dst, table[j]) :: table[j].length <= table[k].length)
                   && (forall j | 0 <= j < k && Matches(d.header.dst, table[j]) :: table[j].length < table[k].length)
  {
    LookupIsFirstLongest(table, d.header.dst);
  }

  // How much leaves through `port`.
  function Count(exits: seq<Exit>, port: nat): nat {
    if exits == [] then 0 else (if exits[0].port == port then 1 else 0) + Count(exits[1..], port)
  }

  lemma {:induction false} CountThrough(exits: seq<Exit>, port: nat)
    ensures |Through(exits, port)| == Count(exits, port)
  {
    if exits != [] {
      CountThrough(exits[1..], port);
    }
  }

  // How much leaves through the first `ports` ports together.
  function Total(exits: seq<Exit>, ports: nat): nat {
    if ports == 0 then 0 else Total(exits, ports - 1) + Count(exits, ports - 1)
  }

  lemma {:induction false} TotalHead(exits: seq<Exit>, rest: seq<Exit>, ports: nat)
    requires exits != [] && rest == exits[1..]
    ensures Total(exits, ports) == Total(rest, ports) + (if exits[0].port < ports then 1 else 0)
  {
    if ports > 0 {
      TotalHead(exits, rest, ports - 1);
    }
  }

  lemma {:induction false} TotalOfNone(ports: nat)
    ensures Total([], ports) == 0
  {
    if ports > 0 {
      TotalOfNone(ports - 1);
    }
  }

  lemma {:induction false} TotalIsAll(exits: seq<Exit>, ports: nat)
    requires forall e | e in exits :: e.port < ports
    ensures Total(exits, ports) == |exits|
  {
    if exits == [] {
      TotalOfNone(ports);
    } else {
      TotalHead(exits, exits[1..], ports);
      TotalIsAll(exits[1..], ports);
    }
  }

  lemma {:induction false} LeavesThroughPorts(table: seq<Route>, ds: seq<InternetDatagram>, ports: nat)
    requires Connected(table, ports)
    ensures |Leaves(table, ds)| <= |ds|
    ensures forall e | e in Leaves(table, ds) :: e.port < ports
  {
    if ds != [] {
      LeavesThroughPorts(table, ds[1..], ports);
    }
  }

  // Every datagram leaves through at most one port: the ports together are given
  // as many datagrams as leave, and no more than there were.
  lemma EachLeavesOnce(table: seq<Route>, ds: seq<InternetDatagram>, ports: nat)
    requires Connected(table, ports)
    ensures Total(Leaves(table, ds), ports) == |Leaves(table, ds)| <= |ds|
  {
    LeavesThroughPorts(table, ds, ports);
    TotalIsAll(Leaves(table, ds), ports);
  }
}

/** The router as an object over its interfaces. */
module Routers {
  import opened Numbers
  import opened Options
  import opened IpDatagrams
  import opened EthernetInterfaces
  import opened Routing
  import N = NetworkInterfaces

  // `x & mask` for a mask of at most one bit.
  function AndBit(x: u32, mask: u32): int {
    if mask == 0 then 0 else x / mask % 2 * mask
  }

  lemma Halves(x: nat, m: nat)
    requires m > 0
    ensures x / m == 2 * (x / (2 * m)) + x / m % 2
  {
    var h, r := x / m, x % m;
    var k, b := h / 2, h % 2;
    Distribute(m, k, b);
    assert x == (2 * m) * k + m * b + r;
    if b == 0 {
      Quotient(x, 2 * m, k, r);
    } else {
      Quotient(x, 2 * m, k, m + r);
    }
  }

  lemma Distribute(m: int, k: int, b: int)
    ensures m * (2 * k + b) == (2 * m) * k + m * b
    ensures m * 0 == 0 && m * 1 == m
  {
  }

  lemma Quotient(x: nat, m: nat, q: nat, r: nat)
    requires 0 <= r < m && x == m * q + r
    ensures x / m == q
  {
    var d := x / m - q;
    assert m * d == m * (x / m) - m * q == r - x % m;
    Multiple(m, d);
  }

  // A multiple of `m` closer to zero than `m` is zero.
  lemma Multiple(m: int, d: int)
    requires m > 0
    ensures -m < m * d < m ==> d == 0
  {
  }

  // One more bit below a common top.
  lemma NextBit(x: u32, y: u32, m: nat)
    requires 0 < m < TWO_32 && x / (2 * m) == y / (2 * m)
    ensures AndBit(x, m) == AndBit(y, m) <==> x / m == y / m
  {
    Halves(x, m);
    Halves(y, m);
    var a, b := x / m % 2, y / m % 2;
    assert a * m == b * m <==> a == b;
  }

  lemma Longer(x: u32, y: u32, m: nat)
    requires m > 0 && x / m == y / m
    ensures x / (2 * m) == y / (2 * m)
  {
    Halves(x, m);
    Halves(y, m);
  }

  // The addresses agree in their top `n` bits.
  ghost predicate Agree(x: u32, y: u32, n: nat) {
    x / Pow2(32 - Min(n, 32)) == y / Pow2(32 - Min(n, 32))
  }

  lemma {:induction false} AgreeInFewer(x: u32, y: u32, n: nat, k: nat)
    requires n <= k && Agree(x, y, k)
    ensures Agree(x, y, n)
    decreases k - n
  {
    if n < k {
      if k <= 32 {
        Longer(x, y, Pow2(32 - k));
      }
      AgreeInFewer(x, y, n, k - 1);
    }
  }

  // The mask in round `i`.
  function MaskAt(i: nat): (m: u32) {
    PowersOfTwo();
    Pow2Grows(31 - Min(i, 31), 31);
    if i < 32 then Pow2(31 - i) else 0
  }

  lemma BitRound(x: u32, y: u32, i: nat)
    requires Agree(x, y, i)
    ensures AndBit(x, MaskAt(i)) == AndBit(y, MaskAt(i)) <==> Agree(x, y, i + 1)
    ensures MaskAt(i + 1) == MaskAt(i) / 2
  {
    if i < 32 {
      assert MaskAt(i) == Pow2(31 - i);
      NextBit(x, y, Pow2(31 - i));
    }
  }

  // The loop over the bits of the mask compares the top bits.
  method Match(dst: u32, prefix: u32, length: byte) returns (b: bool)
    ensures b == (Top(dst, length) == Top(prefix, length))
  {
    PowersOfTwo();
    var mask: u32 := TWO_31;
    var i := 0;
    while i < length
      invariant 0 <= i <= length && mask == MaskAt(i) && Agree(dst, prefix, i)
    {
      BitRound(dst, prefix, i);
      if AndBit(dst, mask) != AndBit(prefix, mask) {
        assert !Agree(dst, prefix, length) by {
          if Agree(dst, prefix, length) {
            AgreeInFewer(dst, prefix, i + 1, length);
          }
        }
        return false;
      }
      mask := mask / 2;
      i := i + 1;
    }
    return true;
  }

  class Router {
    var interfaces: seq<NetworkInterface>
    var table: seq<Route>

    ghost predicate Valid()
      reads this, interfaces
    {
      && (forall i, j | 0 <= i < j < |interfaces| :: interfaces[i] != interfaces[j])
      && (forall i | 0 <= i < |interfaces| :: interfaces[i].Valid())
    }

    ghost function States(): (s: seq<N.Iface>)
      requires Valid()
      reads this, interfaces
      ensures |s| == |interfaces| && AllPaired(s)
      ensures forall i | 0 <= i < |s| :: s[i] == interfaces[i].State()
    {
      seq(|interfaces|, i requires 0 <= i < |interfaces| reads this, interfaces => interfaces[i].State())
    }

    // The datagrams that wait to be routed, by interface.
    ghost function Queues(): (qs: seq<seq<InternetDatagram>>)
      reads this, interfaces
      ensures |qs| == |interfaces| && forall i | 0 <= i < |qs| :: qs[i] == interfaces[i].datagramsOut
    {
      seq(|interfaces|, i requires 0 <= i < |interfaces| reads this, interfaces => interfaces[i].datagramsOut)
    }

    constructor ()
      ensures Valid() && interfaces == [] && table == []
    {
      interfaces, table := [], [];
    }

    method AddInterface(i: NetworkInterface) returns (n: nat)
      requires Valid() && i.Valid() && i !in interfaces
      modifies this`interfaces
      ensures Valid() && interfaces == old(interfaces) + [i] && n == |old(interfaces)|
    {
      interfaces := interfaces + [i];
      return |interfaces| - 1;
    }

    method AddRoute(prefix: u32, length: byte, nextHop: Option<u32>, port: nat)
      requires Valid()
      modifies this`table
      ensures Valid() && table == old(table) + [Routing.Route.Route(prefix, length, nextHop, port)]
    {
      table := table + [Routing.Route.Route(prefix, length, nextHop, port)];
    }

    // The scan for the longest match.
    method FindRoute(dst: u32) returns (entry: Option<Route>)
      ensures entry == match Lookup(table, dst) case Some(k) => Some(table[k]) case None => None
    {
      entry := None;
      var i := 0;
      while i < |table|
        invariant 0 <= i <= |table|
        invariant entry == match Lookup(table[..i], dst) case Some(k) => Some(table[k]) case None => None
      {
        assert table[..i + 1][..i] == table[..i];
        var matches := Match(dst, table[i].prefix, table[i].length);
        if matches {
          if entry.None? {
            entry := Some(table[i]);
          }
          if entry.value.length < table[i].length {
            entry := Some(table[i]);
          }
        }
        i := i + 1;
      }
      assert table[..|table|] == table;
    }

    // One interface sends; the others, and what waits to be routed, stay as they are.
    method SendThrough(port: nat, d: InternetDatagram, hop: u32)
      requires Valid() && port < |interfaces|
      modifies interfaces[port]
      ensures Valid() && States() == old(States())[port := N.SendDatagram(old(States())[port], d, hop)]
      ensures Queues() == old(Queues())
    {
      interfaces[port].SendDatagram(d, hop);
      assert forall i | 0 <= i < |interfaces| && i != port :: interfaces[i] != interfaces[port];
    }

    method RouteOneDatagram(d: InternetDatagram)
      requires Valid() && Connected(table, |interfaces|)
      modifies interfaces
      ensures Valid() && States() == Forward(table, old(States()), d)
      ensures Queues() == old(Queues())
    {
      if d.header.ttl <= 1 {
        return;
      }
      var entry := FindRoute(d.header.dst);
      if entry.None? {
        return;
      }
      var port := entry.value.port;
      var d' := d.(header := d.header.(ttl := d.header.ttl - 1));
      var hop := if entry.value.nextHop.Some? then entry.value.nextHop.value else d.header.dst;
      assert ExitOf(table, d) == Some(Exit(port, hop, d'));
      SendThrough(port, d', hop);
    }

    method Pop(k: nat)
      requires Valid() && k < |interfaces| && interfaces[k].datagramsOut != []
      modifies interfaces[k]
      ensures Valid() && States() == old(States())
      ensures Queues() == old(Queues())[k := old(interfaces[k].datagramsOut)[1..]]
    {
      interfaces[k].datagramsOut := interfaces[k].datagramsOut[1..];
    }

    // Routes the first datagram that waits at one interface, and forgets it.
    method RouteFirst(k: nat)
      requires Valid() && Connected(table, |interfaces|) && k < |interfaces| && Queues()[k] != []
      modifies interfaces
      ensures Valid() && States() == Forward(table, old(States()), old(Queues()[k][0]))
      ensures Queues() == old(Queues())[k := old(Queues()[k][1..])]
    {
      RouteOneDatagram(interfaces[k].datagramsOut[0]);
      Pop(k);
    }

    // Routes everything that waits at one interface.
    method DrainPort(k: nat)
      requires Valid() && Connected(table, |interfaces|) && k < |interfaces|
      modifies interfaces
      ensures Valid() && States() == ForwardAll(table, old(States()), old(Queues()[k]))
      ensures Queues() == old(Queues())[k := []]
    {
      ghost var queues, rest := Queues(), Queues()[k];
      ghost var done := ForwardAll(table, States(), rest);
      assert queues[k := rest] == queues;
      while interfaces[k].datagramsOut != []
        invariant Valid() && |queues| == |interfaces| && Queues() == queues[k := rest]
        invariant ForwardAll(table, States(), rest) == done
        decreases |rest|
      {
        ghost var before, waiting := States(), Queues();
        assert waiting[k] == rest == interfaces[k].datagramsOut;
        ForwardFirst(table, before, rest);
        RouteFirst(k);
        assert States() == Forward(table, before, rest[0]);
        assert Queues() == waiting[k := rest[1..]] == queues[k := rest[1..]];
        rest := rest[1..];
      }
    }

    // Every waiting datagram is routed, once, interface by interface.
    method Route()
      requires Valid() && Connected(table, |interfaces|)
      modifies interfaces
      ensures Valid() && States() == ForwardAll(table, old(States()), Concat(old(Queues())))
      ensures Queues() == Emptied(old(Queues()), |interfaces|)
    {
      ghost var done, queues := ForwardAll(table, States(), Concat(Queues())), Queues();
      assert queues[0..] == queues && Emptied(queues, 0) == queues;
      var k := 0;
      while k < |interfaces|
        invariant Valid() && 0 <= k <= |interfaces| == |queues|
        invariant ForwardAll(table, States(), Concat(queues[k..])) == done
        invariant Queues() == Emptied(queues, k)
      {
        ghost var before := States();
        EmptyNext(table, before, queues, k);
        DrainPort(k);
        assert States() == ForwardAll(table, before, queues[k]);
        k := k + 1;
      }
    }
  }
}

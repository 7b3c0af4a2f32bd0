/** The network interface as an object with its five maps. */
module EthernetInterfaces {
  import opened Numbers
  import opened Options
  import opened IpDatagrams
  import N = NetworkInterfaces

  class NetworkInterface {
    const mac: N.mac
    const ip: u32
    var framesOut: seq<N.Frame>
    var cache: map<u32, N.mac>
    var cacheAge: map<u32, nat>
    var waiting: map<u32, InternetDatagram>
    var requestAge: map<u32, u32>
    var requests: map<u32, N.Frame>
    // Datagrams received and not yet collected by the owner.
    var datagramsOut: seq<InternetDatagram>

    ghost function State(): N.Iface
      reads this
    {
      N.Iface(mac, ip, framesOut, cache, cacheAge, waiting, requestAge, requests)
    }

    ghost predicate Valid()
      reads this
    {
      N.Paired(State())
    }

    constructor (mac: N.mac, ip: u32)
      ensures Valid() && State() == N.NewIface(mac, ip) && datagramsOut == []
    {
      this.mac, this.ip := mac, ip;
      framesOut, cache, cacheAge, waiting, requestAge, requests := [], map[], map[], map[], map[], map[];
      datagramsOut := [];
    }

    method SendDatagram(d: InternetDatagram, hop: u32)
      requires Valid()
      modifies this`framesOut, this`waiting, this`requestAge, this`requests
      ensures Valid() && State() == N.SendDatagram(old(State()), d, hop)
    {
      if hop !in cache {
        if hop in waiting {
          if requestAge[hop] >= N.MAX_REQ_TIME {
            requestAge := requestAge[hop := 0];
            framesOut := framesOut + [requests[hop]];
          }
          return;
        }
        waiting := waiting[hop := d];
        var frame := N.Frame(N.BROADCAST, mac, N.Arp(N.ArpMessage(N.Request, mac, ip, 0, hop)));
        framesOut := framesOut + [frame];
        requestAge := requestAge[hop := 0];
        requests := requests[hop := frame];
      } else {
        framesOut := framesOut + [N.Frame(cache[hop], mac, N.Ipv4(d))];
      }
    }

    // The effect of an ARP message on the interface.
    method RecvArp(m: N.ArpMessage, src: N.mac)
      requires Valid()
      modifies this`framesOut, this`waiting, this`requestAge, this`requests, this`cache, this`cacheAge
      ensures Valid() && State() == N.Learn(old(State()), m, src)
    {
      var sender := m.senderIp;
      if m.opcode.Reply? {
        if sender in waiting {
          var datagram := waiting[sender];
          waiting := waiting - {sender};
          requestAge := requestAge - {sender};
          requests := requests - {sender};
          framesOut := framesOut + [N.Frame(m.senderMac, mac, N.Ipv4(datagram))];
        }
      } else if m.targetIp == ip {
        framesOut := framesOut + [N.Frame(src, mac, N.Arp(N.ArpMessage(N.Reply, mac, ip, m.senderMac, sender)))];
      }
      cache := cache[sender := m.senderMac];
      cacheAge := cacheAge[sender := 0];
    }

    method RecvFrame(frame: N.Frame) returns (received: Option<InternetDatagram>)
      requires Valid()
      modifies this`framesOut, this`waiting, this`requestAge, this`requests, this`cache, this`cacheAge
      ensures Valid() && State() == N.RecvFrame(old(State()), frame)
      ensures received == N.Received(old(State()), frame)
    {
      if frame.dst != N.BROADCAST && frame.dst != mac {
        return None;
      }
      match frame.body {
        case Ipv4(datagram) =>
          return Some(datagram);
        case Arp(message) =>
          RecvArp(message, frame.src);
          return None;
        case Other =>
          return None;
      }
    }

    method AgeRequests(ms: nat)
      modifies this`requestAge
      ensures requestAge == N.OlderRequests(old(requestAge), ms)
    {
      ghost var before := requestAge;
      var todo := requestAge.Keys;
      while todo != {}
        invariant todo <= requestAge.Keys == before.Keys
        invariant forall k | k in before :: requestAge[k] == if k in todo then before[k] else (before[k] + ms) % TWO_32
      {
        var k :| k in todo;
        requestAge := requestAge[k := (requestAge[k] + ms) % TWO_32];
        todo := todo - {k};
      }
    }

    method AgeCache(ms: nat)
      requires cache.Keys == cacheAge.Keys
      modifies this`cache, this`cacheAge
      ensures cache == N.OlderCache(old(cache), old(cacheAge), ms)
      ensures cacheAge == N.OlderAges(old(cacheAge), ms)
    {
      ghost var before, ages := cache, cacheAge;
      var todo := cacheAge.Keys;
      while todo != {}
        invariant todo <= cacheAge.Keys == cache.Keys
        invariant forall k :: k in cacheAge <==> k in ages && (k in todo || ages[k] + ms < N.MAX_CACHE_TIME)
        invariant forall k | k in cacheAge :: cacheAge[k] == if k in todo then ages[k] else ages[k] + ms
        invariant forall k | k in cache :: cache[k] == before[k]
      {
        var k :| k in todo;
        if cacheAge[k] + ms >= N.MAX_CACHE_TIME {
          cache := cache - {k};
          cacheAge := cacheAge - {k};
        } else {
          cacheAge := cacheAge[k := cacheAge[k] + ms];
        }
        todo := todo - {k};
      }
    }

    method Tick(ms: nat)
      requires Valid()
      modifies this`requestAge, this`cache, this`cacheAge
      ensures Valid() && State() == N.Tick(old(State()), ms)
    {
      AgeRequests(ms);
      AgeCache(ms);
    }

    // The asynchronous variant keeps what it receives for its owner.
    method Receive(frame: N.Frame)
      requires Valid()
      modifies this
      ensures Valid() && State() == N.RecvFrame(old(State()), frame)
      ensures datagramsOut == old(datagramsOut)
              + (match N.Received(old(State()), frame) case Some(d) => [d] case None => [])
    {
      var received := RecvFrame(frame);
      if received.Some? {
        datagramsOut := datagramsOut + [received.value];
      }
    }
  }
}

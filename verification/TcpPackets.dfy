/** Writing and reading TCP segments step by step. */
module TcpPackets {
  import opened Numbers
  import opened Options
  import opened TcpSegments
  import opened Checksums
  import opened NetParsers
  import opened TcpCodec

  lemma IntsCons(p: Parser, w: nat, ws: seq<nat>)
    ensures p.Ints([w] + ws) == ([p.Int(w).0] + p.Int(w).1.Ints(ws).0, p.Int(w).1.Ints(ws).1)
  {
    assert ([w] + ws)[1..] == ws;
  }

  // Three more numbers.
  method ParseThree(p: NetParser, u: nat, v: nat, w: nat) returns (a: nat, b: nat, c: nat)
    modifies p
    ensures ([a, b, c], p.State()) == old(p.State()).Ints([u, v, w])
  {
    ghost var p0 := p.State();
    a := p.ParseInt(u);
    ghost var p1 := p.State();
    b := p.ParseInt(v);
    ghost var p2 := p.State();
    c := p.ParseInt(w);
    IntsCons(p2, w, []);
    IntsCons(p1, v, [w]);
    IntsCons(p0, u, [v, w]);
    assert [u] + [v, w] == [u, v, w] && [v] + [w] == [v, w] && [w] + [] == [w];
    assert [a] + ([b] + ([c] + [])) == [a, b, c];
  }

  lemma {:induction false} IntsJoin(p: Parser, xs: seq<nat>, ys: seq<nat>)
    ensures p.Ints(xs + ys) == (p.Ints(xs).0 + p.Ints(xs).1.Ints(ys).0, p.Ints(xs).1.Ints(ys).1)
    decreases |xs|
  {
    if xs == [] {
      assert xs + ys == ys && p.Ints(xs) == ([], p);
      assert [] + p.Ints(ys).0 == p.Ints(ys).0;
    } else {
      assert (xs + ys)[0] == xs[0] && (xs + ys)[1..] == xs[1..] + ys;
      var v, p1 := p.Int(xs[0]).0, p.Int(xs[0]).1;
      IntsJoin(p1, xs[1..], ys);
      assert [v] + (p1.Ints(xs[1..]).0 + p.Ints(xs).1.Ints(ys).0) == [v] + p1.Ints(xs[1..]).0 + p.Ints(xs).1.Ints(ys).0;
    }
  }

  // Three groups of numbers, one after the other.
  lemma IntsOfThree(p0: Parser, xs: seq<nat>, ys: seq<nat>, zs: seq<nat>, all: seq<nat>)
    requires all == xs + ys + zs
    ensures var (a, p1) := p0.Ints(xs); var (b, p2) := p1.Ints(ys); var (c, p3) := p2.Ints(zs);
            p0.Ints(all) == (a + b + c, p3)
  {
    IntsJoin(p0, xs + ys, zs);
    IntsJoin(p0, xs, ys);
  }

  // The nine numbers of a header.
  method ReadFields(p: NetParser) returns (values: seq<nat>)
    modifies p
    ensures (values, p.State()) == old(p.State()).Ints(TCP_WIDTHS)
  {
    ghost var p0 := p.State();
    var sport, dport, seqno := ParseThree(p, 2, 2, 4);
    var ackno, offset, flags := ParseThree(p, 4, 1, 1);
    var win, cksum, uptr := ParseThree(p, 2, 2, 2);
    IntsOfThree(p0, [2, 2, 4], [4, 1, 1], [2, 2, 2], TCP_WIDTHS);
    values := [sport, dport, seqno] + [ackno, offset, flags] + [win, cksum, uptr];
  }

  method ReadHeader(p: NetParser) returns (h: TcpHeader)
    modifies p
    ensures (h, p.State()) == ParseHeader(old(p.State()))
  {
    var values := ReadFields(p);
    h := HeaderOf(values);
    if h.doff >= 5 {
      p.RemovePrefix(h.doff * 4 - TCP_LENGTH);
    }
  }

  method WriteThree(s: seq<byte>, a: Field, b: Field, c: Field) returns (r: seq<byte>)
    ensures r == s + Encode([a, b, c], [])
  {
    r := UnparseInt(s, a.value, a.width);
    r := UnparseInt(r, b.value, b.width);
    r := UnparseInt(r, c.value, c.width);
    var all, two, one := [a, b, c], [b, c], [c];
    assert all[1..] == two && two[1..] == one && one[1..] == [];
    assert Encode(one, []) == Bytes(c.value, c.width);
    assert Encode(two, []) == Bytes(b.value, b.width) + Encode(one, []);
  }

  method WriteHeader(h: TcpHeader) returns (bytes: Option<seq<byte>>)
    ensures bytes == SerializeHeader(h)
  {
    if h.doff < 5 {
      return None;
    }
    var f := Fields(h);
    var r := WriteThree([], f[0], f[1], f[2]);
    r := WriteThree(r, f[3], f[4], f[5]);
    r := WriteThree(r, f[6], f[7], f[8]);
    EncodeNine(f);
    assert r == Encode(f, []);
    var pad := Zeros(4 * h.doff - TCP_LENGTH);
    EncodeSplits(f, pad);
    return Some(r + pad);
  }

  lemma EncodeNine(f: seq<Field>)
    requires |f| == 9
    ensures Encode(f, []) == Encode([f[0], f[1], f[2]], []) + Encode([f[3], f[4], f[5]], []) + Encode([f[6], f[7], f[8]], [])
  {
    var x, y, z := [f[0], f[1], f[2]], [f[3], f[4], f[5]], [f[6], f[7], f[8]];
    assert f == x + (y + z);
    EncodeJoins(x, y + z, []);
    EncodeJoins(y, z, []);
    EncodeSplits(x, Encode(y + z, []));
    EncodeSplits(y, Encode(z, []));
  }

  method WriteSegment(seg: TcpSegment, pseudo: u32) returns (bytes: Option<seq<byte>>)
    ensures bytes == SerializeSegment(seg, pseudo)
  {
    var zeroed := WriteHeader(seg.header.(cksum := 0));
    if zeroed.None? {
      return None;
    }
    var check := new InternetChecksum(pseudo);
    check.Add(zeroed.value);
    check.Add(seg.payload);
    var cksum := check.Value();
    var header := WriteHeader(seg.header.(cksum := cksum));
    return Some(header.value + seg.payload);
  }

  method ReadSegment(bytes: seq<byte>, pseudo: u32) returns (result: ParseResult, seg: TcpSegment)
    ensures (result, seg) == ParseSegment(bytes, pseudo)
  {
    var check := new InternetChecksum(pseudo);
    check.Add(bytes);
    var value := check.Value();
    if value != 0 {
      return BadChecksum, EmptySegment();
    }
    var p := new NetParser(bytes);
    var h := ReadHeader(p);
    return p.error, TcpSegment(h, p.buffer);
  }
}

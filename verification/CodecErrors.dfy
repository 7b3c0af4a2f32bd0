/** What the parsers refuse. */
module CodecErrors {
  import opened Numbers
  import opened Options
  import opened TcpSegments
  import opened IpDatagrams
  import opened Checksums
  import opened NetParsers
  import opened TcpCodec
  import opened Ipv4Codec

  // ------------------------------------------------------------ damaged segments

  lemma {:induction false} SumChange(data: seq<byte>, i: nat, b: byte, odd: bool)
    requires i < |data|
    ensures var low := odd != (i % 2 == 1);
            Sum(data[i := b], odd) == Sum(data, odd) + Weight(b, low) - Weight(data[i], low)
  {
    var data' := data[i := b];
    if i == 0 {
      assert data'[1..] == data[1..];
    } else {
      assert data'[1..] == data[1..][i - 1 := b];
      SumChange(data[1..], i - 1, b, !odd);
    }
  }

  // A checksum verifies exactly when the sum is a multiple of 65535 and not 0.
  lemma VerifiesIff(sum: u32)
    ensures Check(sum, false).Value() == 0 <==> sum > 0 && sum % 0xffff == 0
  {
  }

  // Two sums that differ by less than 65535 are not both multiples of it.
  lemma NotBoth(x: nat, y: nat)
    requires x % 0xffff == 0 && x != y && x - 0xffff < y < x + 0xffff
    ensures y % 0xffff != 0
  {
  }

  // The sum of a short message does not overflow.
  lemma AddIs(initial: u32, data: seq<byte>)
    requires initial <= 0x10_0000 && |data| <= 0xffff
    ensures var sum := initial + Sum(data, false);
            sum < TWO_32 && Check(initial, false).Add(data).Value() == Check(sum, false).Value()
  {
    var sum := initial + Sum(data, false);
    assert sum < TWO_32 by {
      SumBound(data, false);
    }
    assert Check(initial, false).Add(data).sum == sum;
  }

  lemma WeightsDiffer(a: byte, b: byte, low: bool)
    requires a != b
    ensures Weight(a, low) != Weight(b, low) && -0xffff < Weight(a, low) - Weight(b, low) < 0xffff
  {
  }

  // Whatever verifies does not with one byte changed.
  lemma WrongByteShows(initial: u32, data: seq<byte>, i: nat, b: byte)
    requires initial <= 0x10_0000 && |data| <= 0xffff && i < |data| && b != data[i]
    requires Check(initial, false).Add(data).Value() == 0
    ensures Check(initial, false).Add(data[i := b]).Value() != 0
  {
    var data' := data[i := b];
    var x, y := initial + Sum(data, false), initial + Sum(data', false);
    AddIs(initial, data);
    AddIs(initial, data');
    assert x != y && x - 0xffff < y < x + 0xffff by {
      SumChange(data, i, b, false);
      WeightsDiffer(b, data[i], i % 2 == 1);
    }
    VerifiesIff(x);
    VerifiesIff(y);
    NotBoth(x, y);
  }

  // A segment damaged in one byte, wherever it is, is refused.
  lemma DamageIsNoticed(seg: TcpSegment, pseudo: u32, i: nat, b: byte)
    requires 5 <= seg.header.doff && 4 * seg.header.doff + |seg.payload| <= 0xffff && pseudo <= 0x10_0000
    requires i < 4 * seg.header.doff + |seg.payload|
    ensures SerializeSegment(seg, pseudo).Some? && |SerializeSegment(seg, pseudo).value| == 4 * seg.header.doff + |seg.payload|
    ensures var bytes := SerializeSegment(seg, pseudo).value;
            bytes[i] != b ==> ParseSegment(bytes[i := b], pseudo).0 == BadChecksum
  {
    SegmentSize(seg, pseudo);
    SegmentVerifies(seg, pseudo);
    var bytes := SerializeSegment(seg, pseudo).value;
    if bytes[i] != b {
      WrongByteShows(pseudo, bytes, i, b);
    }
  }

  // -------------------------------------------------------------- too few bytes

  function Span(widths: seq<nat>): nat {
    if widths == [] then 0 else widths[0] + Span(widths[1..])
  }

  lemma {:induction false} ErrorStays(p: Parser, widths: seq<nat>)
    requires p.error != NoError
    ensures p.Ints(widths).1.error != NoError
    decreases |widths|
  {
    if widths != [] {
      ErrorStays(p.Int(widths[0]).1, widths[1..]);
    }
  }

  // Numbers can be read exactly when there are bytes enough.
  lemma {:induction false} IntsIff(p: Parser, widths: seq<nat>)
    requires p.error == NoError
    ensures var p' := p.Ints(widths).1;
            && (p'.error == NoError <==> Span(widths) <= |p.rest|)
            && (p'.error == NoError ==> p'.rest == p.rest[Span(widths)..])
    decreases |widths|
  {
    if widths != [] {
      var p1 := p.Int(widths[0]).1;
      if p1.error == NoError {
        IntsIff(p1, widths[1..]);
        var n, m := widths[0], Span(widths[1..]);
        if m <= |p1.rest| {
          assert p.rest[n..][m..] == p.rest[n + m..];
        }
      } else {
        ErrorStays(p1, widths[1..]);
      }
    }
  }

  lemma {:induction false} SpanJoin(xs: seq<nat>, ys: seq<nat>)
    ensures Span(xs + ys) == Span(xs) + Span(ys)
  {
    if xs == [] {
      assert xs + ys == ys;
    } else {
      assert (xs + ys)[0] == xs[0] && (xs + ys)[1..] == xs[1..] + ys;
      SpanJoin(xs[1..], ys);
    }
  }

  lemma SpanOne(n: nat)
    ensures Span([n]) == n
  {
    assert [n][1..] == [];
  }

  lemma SpanTwo(n: nat, m: nat)
    ensures Span([n, m]) == n + m
  {
    assert [n, m] == [n] + [m];
    SpanJoin([n], [m]);
    SpanOne(n);
    SpanOne(m);
  }

  lemma TcpSpan()
    ensures Span(TCP_WIDTHS) == TCP_LENGTH
  {
    assert TCP_WIDTHS == [2, 2] + ([4, 4] + ([1, 1] + ([2, 2] + [2])));
    SpanJoin([2, 2], [4, 4] + ([1, 1] + ([2, 2] + [2])));
    SpanJoin([4, 4], [1, 1] + ([2, 2] + [2]));
    SpanJoin([1, 1], [2, 2] + [2]);
    SpanJoin([2, 2], [2]);
    SpanTwo(2, 2);
    SpanTwo(4, 4);
    SpanTwo(1, 1);
    SpanOne(2);
  }

  lemma IpSpan()
    ensures Span(IP_WIDTHS) == IP_LENGTH
  {
    assert IP_WIDTHS == [1, 1] + ([2, 2] + ([2, 1] + ([1, 2] + [4, 4])));
    SpanJoin([1, 1], [2, 2] + ([2, 1] + ([1, 2] + [4, 4])));
    SpanJoin([2, 2], [2, 1] + ([1, 2] + [4, 4]));
    SpanJoin([2, 1], [1, 2] + [4, 4]);
    SpanJoin([1, 2], [4, 4]);
    SpanTwo(1, 1);
    SpanTwo(2, 2);
    SpanTwo(2, 1);
    SpanTwo(1, 2);
    SpanTwo(4, 4);
  }

  // ---------------------------------------------------------------- what is taken

  // What follows a fixed part of `n` bytes and options up to `end`.
  lemma SkipsOptions(bytes: seq<byte>, n: nat, end: nat)
    requires n <= end && n <= |bytes|
    ensures var p := Parser(bytes[n..], NoError).RemovePrefix(end - n);
            && (p.error == NoError <==> end <= |bytes|)
            && (p.error == NoError ==> p.rest == bytes[end..])
  {
    if end <= |bytes| {
      assert bytes[n..][end - n..] == bytes[end..];
    }
  }

  // A segment is taken from bytes exactly when they verify, hold a header, and are
  // as many as it claims; the payload is what follows the options.
  ghost predicate SegmentTaken(bytes: seq<byte>, pseudo: u32, result: ParseResult, seg: TcpSegment) {
    && (result == NoError <==> && Check(pseudo, false).Add(bytes).Value() == 0
                               && TCP_LENGTH <= |bytes| && 4 * seg.header.doff <= |bytes|)
    && (result == NoError ==> seg.payload == bytes[Max(TCP_LENGTH, 4 * seg.header.doff)..])
  }

  // The same for a header that has been read, and what is left.
  lemma HeaderTaken(bytes: seq<byte>, pseudo: u32, h: TcpHeader, p: Parser)
    requires Check(pseudo, false).Add(bytes).Value() == 0 && (p.error == NoError <==> TCP_LENGTH <= |bytes|)
    requires p.error == NoError ==> p.rest == bytes[TCP_LENGTH..]
    ensures var p' := if h.doff < 5 then p else p.RemovePrefix(h.doff * 4 - TCP_LENGTH);
            SegmentTaken(bytes, pseudo, p'.error, TcpSegment(h, p'.rest))
  {
    if TCP_LENGTH <= |bytes| && 5 <= h.doff {
      SkipsOptions(bytes, TCP_LENGTH, 4 * h.doff);
    }
  }

  lemma SegmentTakenIff(bytes: seq<byte>, pseudo: u32)
    ensures var r := ParseSegment(bytes, pseudo); SegmentTaken(bytes, pseudo, r.0, r.1)
  {
    if Check(pseudo, false).Add(bytes).Value() == 0 {
      var p, widths := Parser(bytes, NoError), TCP_WIDTHS;
      TcpSpan();
      IntsIff(p, widths);
      var (values, p1) := p.Ints(widths);
      HeaderTaken(bytes, pseudo, HeaderOf(values), p1);
    }
  }

  // A header is accepted exactly when it is of version 4, at least as long as the
  // fixed part, whole, verifies, and tells the number of bytes.
  ghost predicate HeaderJudged(bytes: seq<byte>, h: Ipv4Header, p: Parser, verdict: ParseResult) {
    && (verdict == NoError <==>
          && IP_LENGTH <= |bytes| && h.ver == 4 && h.hlen >= 5 && 4 * h.hlen <= |bytes| == h.len
          && Check(0, false).Add(bytes[..4 * h.hlen]).Value() == 0)
    && (verdict == NoError ==> p == Parser(bytes[4 * h.hlen..], NoError))
    && p.error == NoError && |p.rest| <= |bytes| && p.rest == bytes[|bytes| - |p.rest|..]
  }

  lemma JudgeIff(bytes: seq<byte>, h: Ipv4Header)
    requires IP_LENGTH <= |bytes|
    ensures var r := Judge(bytes, h, Parser(bytes[IP_LENGTH..], NoError)); HeaderJudged(bytes, h, r.0, r.1)
  {
    if 5 <= h.hlen {
      SkipsOptions(bytes, IP_LENGTH, 4 * h.hlen);
    }
  }

  lemma HeaderAcceptedIff(bytes: seq<byte>)
    ensures var r := ParseIpHeader(Parser(bytes, NoError)); HeaderJudged(bytes, r.0, r.1, r.2)
  {
    if IP_LENGTH <= |bytes| {
      var p, widths := Parser(bytes, NoError), IP_WIDTHS;
      IpSpan();
      IntsIff(p, widths);
      var (values, p1) := p.Ints(widths);
      assert p1 == Parser(bytes[IP_LENGTH..], NoError);
      JudgeIff(bytes, IpHeaderOf(values));
    }
  }

  // A datagram is taken from bytes exactly when what follows the header is as long
  // as the header says; that is all, since the verdict on the header is dropped.
  lemma DatagramTakenIff(bytes: seq<byte>)
    ensures var r := ParseDatagram(bytes);
            && (r.0 == NoError <==> |r.1.payload| == r.1.header.PayloadLength())
            && |r.1.payload| <= |bytes| && r.1.payload == bytes[|bytes| - |r.1.payload|..]
  {
    HeaderAcceptedIff(bytes);
  }
}

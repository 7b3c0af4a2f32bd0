/** The Internet checksum: one's-complement sums of 16-bit words. */
module Checksums {
  import opened Numbers

  // What a byte counts for.
  function Weight(b: byte, odd: bool): nat {
    if odd then b else 256 * b
  }

  // The sum of a byte string as big-endian 16-bit words, starting with a low
  // byte if `odd`.
  function Sum(data: seq<byte>, odd: bool): nat {
    if data == [] then 0 else Weight(data[0], odd) + Sum(data[1..], !odd)
  }

  // Whether the next byte is a low byte.
  function Parity(data: seq<byte>, odd: bool): bool {
    if data == [] then odd else Parity(data[1..], !odd)
  }

  // A checksum being computed; the sum has 32 bits.
  datatype Check = Check(sum: u32, odd: bool) {
    function Add(data: seq<byte>): Check {
      Check((sum + Sum(data, odd)) % TWO_32, Parity(data, odd))
    }

    function Value(): u16 {
      0xffff - Fold(sum)
    }
  }

  // End-around carry in closed form: the remainder modulo 65535, but 65535
  // instead of 0 for a sum that is not 0.
  function Fold(x: nat): (r: u16) {
    if x == 0 then 0 else 1 + (x - 1) % 0xffff
  }

  // One round of carrying.
  function Carry(x: nat): nat {
    x / TWO_16 + x % TWO_16
  }

  lemma CarryKeepsFold(x: nat)
    ensures Fold(Carry(x)) == Fold(x)
    ensures x > 0xffff ==> Carry(x) < x
  {
    if x > 0xffff {
      var q, r := x / TWO_16, x % TWO_16;
      assert x - 1 == q * 0xffff + (q + r - 1);
      ModShift(q + r - 1, q);
    }
  }

  lemma ModShift(x: nat, q: nat)
    ensures (q * 0xffff + x) % 0xffff == x % 0xffff
  {
  }

  lemma FoldOfSmall(x: nat)
    requires x <= 0xffff
    ensures Fold(x) == x
  {
  }

  // ------------------------------------------------------------------ chunking

  lemma {:induction false} SumJoin(a: seq<byte>, b: seq<byte>, odd: bool)
    ensures Sum(a + b, odd) == Sum(a, odd) + Sum(b, Parity(a, odd))
    ensures Parity(a + b, odd) == Parity(b, Parity(a, odd))
  {
    if a == [] {
      assert a + b == b;
    } else {
      assert (a + b)[0] == a[0] && (a + b)[1..] == a[1..] + b;
      SumJoin(a[1..], b, !odd);
    }
  }

  lemma ModAdd(x: int, y: int)
    ensures (x % TWO_32 + y) % TWO_32 == (x + y) % TWO_32
  {
  }

  // One byte after the other.
  lemma AddByte(c: Check, data: seq<byte>)
    requires data != []
    ensures c.Add(data) == Check((c.sum + Weight(data[0], c.odd)) % TWO_32, !c.odd).Add(data[1..])
  {
    ModAdd(c.sum + Weight(data[0], c.odd), Sum(data[1..], !c.odd));
  }

  // The result does not depend on how the data is cut into pieces.
  lemma ChunksDoNotMatter(c: Check, a: seq<byte>, b: seq<byte>)
    ensures c.Add(a).Add(b) == c.Add(a + b)
  {
    SumJoin(a, b, c.odd);
    ModAdd(c.sum + Sum(a, c.odd), Sum(b, Parity(a, c.odd)));
  }

  // Each byte counts for at most 0xff00, two together for at most 0xffff.
  lemma {:induction false} SumBound(data: seq<byte>, odd: bool)
    ensures 2 * Sum(data, odd) <= 0xffff * |data| + 0xff00
    ensures odd ==> 2 * Sum(data, odd) <= 0xffff * |data| + 0xff
  {
    if data != [] {
      SumBound(data[1..], !odd);
    }
  }

  lemma {:induction false} ParityOfLength(data: seq<byte>, odd: bool)
    ensures Parity(data, odd) == (odd != (|data| % 2 == 1))
  {
    if data != [] {
      ParityOfLength(data[1..], !odd);
    }
  }

  // ------------------------------------------------------------- verification

  // A sum with its own checksum added verifies to zero.
  lemma OwnChecksumVerifies(s: nat)
    requires s + 0xffff < TWO_32
    ensures Check((s + (0xffff - Fold(s))) % TWO_32, false).Value() == 0
  {
    var c := 0xffff - Fold(s);
    if s == 0 {
      assert c == 0xffff;
    } else {
      var q := (s - 1) / 0xffff;
      assert s - 1 == q * 0xffff + (s - 1) % 0xffff;
      assert s + c - 1 == q * 0xffff + 0xfffe;
      ModShift(0xfffe, q);
    }
  }

  // A 16-bit word at an even place, where the word was zero before, adds itself
  // to the sum.
  lemma WordAdds(pre: seq<byte>, hi: byte, lo: byte, post: seq<byte>)
    requires |pre| % 2 == 0
    ensures Sum(pre + [hi, lo] + post, false) == Sum(pre + [0, 0] + post, false) + 256 * hi + lo
  {
    ParityOfLength(pre, false);
    SumJoin(pre + [hi, lo], post, false);
    SumJoin(pre + [0, 0], post, false);
    SumJoin(pre, [hi, lo], false);
    SumJoin(pre, [0, 0], false);
    SumOfWord(hi, lo);
    SumOfWord(0, 0);
  }

  lemma SumOfWord(hi: byte, lo: byte)
    ensures Sum([hi, lo], false) == 256 * hi + lo && !Parity([hi, lo], false)
  {
    var word, low: seq<byte> := [hi, lo], [lo];
    assert word[1..] == low && low[1..] == [];
    assert Sum(low, true) == lo && !Parity(low, true);
  }

  // Inserting the checksum of a message into a zero word of it makes the whole
  // verify to zero, with no overflow of the 32-bit sum, for messages of at most
  // 65535 bytes and any carried-over sum of at most 0x10_0000.
  lemma InsertedChecksumVerifies(initial: nat, pre: seq<byte>, post: seq<byte>)
    requires |pre| % 2 == 0 && |pre| + 2 + |post| <= 0xffff && initial <= 0x10_0000
    ensures var c := Check(initial, false).Add(pre + [0, 0] + post).Value();
            Check(initial, false).Add(pre + [c / 256, c % 256] + post).Value() == 0
  {
    var zero := pre + [0, 0] + post;
    var s := initial + Sum(zero, false);
    assert s + 0xffff < TWO_32 by {
      SumBound(zero, false);
    }
    var c := Check(initial, false).Add(zero).Value();
    assert c == 0xffff - Fold(s);
    assert initial + Sum(pre + [c / 256, c % 256] + post, false) == s + c by {
      WordAdds(pre, c / 256, c % 256, post);
    }
    OwnChecksumVerifies(s);
  }

  class InternetChecksum {
    var sum: u32
    var parity: bool

    ghost function State(): Check
      reads this
    {
      Check(sum, parity)
    }

    constructor (initial: u32)
      ensures State() == Check(initial, false)
    {
      sum, parity := initial, false;
    }

    method Add(data: seq<byte>)
      modifies this
      ensures State() == old(State()).Add(data)
    {
      ghost var done := State().Add(data);
      assert data[0..] == data;
      var i := 0;
      while i < |data|
        invariant 0 <= i <= |data| && State().Add(data[i..]) == done
      {
        assert data[i..][0] == data[i] && data[i..][1..] == data[i + 1..];
        AddByte(State(), data[i..]);
        var val: int := data[i];
        if !parity {
          val := val * 256;
        }
        sum := (sum + val) % TWO_32;
        parity := !parity;
        i := i + 1;
      }
    }

    // The carries are folded in until none is left.
    method Value() returns (v: u16)
      ensures v == State().Value()
    {
      var ret: nat := sum;
      while ret > 0xffff
        invariant Fold(ret) == Fold(sum)
      {
        CarryKeepsFold(ret);
        ret := ret / TWO_16 + ret % TWO_16;
      }
      FoldOfSmall(ret);
      v := 0xffff - ret;
    }
  }
}

/**
 32-bit sequence numbers relative to an initial sequence number, and their
 conversion to and from 64-bit absolute sequence numbers.
 */
module WrappingIntegers {
  import opened Numbers

  // `wrap`: addition modulo 2^32; only the low 32 bits of `n` matter.
  function Wrap(n: nat, isn: u32): (r: u32) {
    (isn + n) % TWO_32
  }

  // The distance from `isn` to `n` going up.
  function Offset(n: u32, isn: u32): u32 {
    (n - isn) % TWO_32
  }

  // `v` is an unsigned 64-bit value that wraps to `n`.
  ghost predicate Candidate(v: int, n: u32, isn: u32) {
    0 <= v < TWO_64 && Wrap(v, isn) == n
  }

  // `v` is a candidate no other candidate is closer to `checkpoint` than, and
  // the lower one of two equally close candidates.
  ghost predicate Closest(v: int, n: u32, isn: u32, checkpoint: u64) {
    && Candidate(v, n, isn)
    && forall w :: Candidate(w, n, isn) ==>
         Abs(v - checkpoint) < Abs(w - checkpoint) || (Abs(v - checkpoint) == Abs(w - checkpoint) && v <= w)
  }

  // The k-th candidate.
  function Nth(k: int, off: u32): int {
    k * TWO_32 + off
  }

  // The index of the candidate that `unwrap` settles on, in closed form.
  function Pick(off: u32, checkpoint: u64): (k: nat) {
    var q, rest := checkpoint / TWO_32, checkpoint % TWO_32;
    if q > 0 && off - rest >= TWO_31 then q - 1
    else if q < TWO_32 - 1 && rest - off > TWO_31 then q + 1
    else q
  }

  // `unwrap` in closed form.
  function Unwrap(n: u32, isn: u32, checkpoint: u64): (r: u64) {
    var k := Pick(Offset(n, isn), checkpoint);
    assert 0 <= k < TWO_32;
    Nth(k, Offset(n, isn))
  }

  lemma CandidateForm(v: int, n: u32, isn: u32)
    requires 0 <= v < TWO_64
    ensures Candidate(v, n, isn) <==> v % TWO_32 == Offset(n, isn)
    ensures v % TWO_32 == Offset(n, isn) ==> v == Nth(v / TWO_32, Offset(n, isn)) && 0 <= v / TWO_32 < TWO_32
  {
  }

  lemma PickIsNearest(off: u32, checkpoint: u64, m: nat)
    requires m < TWO_32
    ensures var r, w := Nth(Pick(off, checkpoint), off), Nth(m, off);
            Abs(r - checkpoint) < Abs(w - checkpoint) || (Abs(r - checkpoint) == Abs(w - checkpoint) && r <= w)
  {
    var q, rest := checkpoint / TWO_32, checkpoint % TWO_32;
    assert Nth(m, off) - checkpoint == (m - q) * TWO_32 + off - rest;
  }

  // The closed form is the closest candidate, for every input.
  lemma UnwrapIsClosest(n: u32, isn: u32, checkpoint: u64)
    ensures Closest(Unwrap(n, isn, checkpoint), n, isn, checkpoint)
  {
    var off := Offset(n, isn);
    var r := Unwrap(n, isn, checkpoint);
    CandidateForm(r, n, isn);
    forall w | Candidate(w, n, isn)
      ensures Abs(r - checkpoint) < Abs(w - checkpoint) || (Abs(r - checkpoint) == Abs(w - checkpoint) && r <= w)
    {
      CandidateForm(w, n, isn);
      PickIsNearest(off, checkpoint, w / TWO_32);
    }
  }

  // There is only one closest candidate.
  lemma ClosestIsUnique(v: int, w: int, n: u32, isn: u32, checkpoint: u64)
    requires Closest(v, n, isn, checkpoint) && Closest(w, n, isn, checkpoint)
    ensures v == w
  {
  }

  // Exactly when the round trip gives back the absolute number: it is nearer
  // than half the number space (a tie goes to the lower value), or there is no
  // representable neighbour on the nearer side.
  lemma RoundTrip(v: u64, isn: u32, checkpoint: u64)
    ensures Unwrap(Wrap(v, isn), isn, checkpoint) == v <==>
              (checkpoint - v <= TWO_31 || v + TWO_32 >= TWO_64) && (v - checkpoint < TWO_31 || v < TWO_32)
  {
    var n := Wrap(v, isn);
    CandidateForm(v, n, isn);
  }

  // The form the data path uses.
  lemma RoundTripNear(v: nat, isn: u32, checkpoint: nat)
    requires v < TWO_64 && checkpoint < TWO_64
    requires -TWO_31 < v - checkpoint < TWO_31
    ensures Unwrap(Wrap(v, isn), isn, checkpoint) == v
  {
    RoundTrip(v, isn, checkpoint);
  }

  // 64-bit unsigned arithmetic.
  function Low64(x: int): (r: u64) {
    x % TWO_64
  }

  function Distance(a: u64, b: u64): (d: u64) {
    if a > b then a - b else b - a
  }

  // Where the search starts.
  function FirstK(checkpoint: u64): (k: nat) {
    if checkpoint / TWO_32 > 0 then checkpoint / TWO_32 - 1 else 0
  }

  // Distances fall strictly up to the pick and do not fall after it, even
  // where the value one past the pick wraps around 2^64.
  lemma SearchIsUnimodal(off: u32, checkpoint: u64, k: nat)
    requires FirstK(checkpoint) <= k <= Pick(off, checkpoint) + 1
    ensures FirstK(checkpoint) <= Pick(off, checkpoint) <= FirstK(checkpoint) + 2
    ensures Pick(off, checkpoint) < TWO_32
    ensures k <= Pick(off, checkpoint) ==> Low64(Nth(k, off)) == Nth(k, off)
    ensures FirstK(checkpoint) == k ==> Distance(Low64(Nth(k, off)), checkpoint) < TWO_64 - 1
    ensures FirstK(checkpoint) < k ==> 0 <= Nth(k - 1, off) < TWO_64
    ensures FirstK(checkpoint) < k <= Pick(off, checkpoint) ==>
              Distance(Nth(k - 1, off), checkpoint) > Distance(Nth(k, off), checkpoint)
    ensures k == Pick(off, checkpoint) + 1 ==>
              && Distance(Nth(k - 1, off), checkpoint) <= Distance(Low64(Nth(k, off)), checkpoint)
              && Low64(Low64(Nth(k, off)) - TWO_32) == Nth(k - 1, off)
  {
  }

  lemma LowOfDifference(x: int, y: int)
    ensures Low64(Low64(x) - y) == Low64(x - y)
  {
  }

  lemma CurrentIsNth(n: u32, isn: u32, k: nat)
    ensures n >= isn ==> Low64(Low64(k * TWO_32 + n) - isn) == Low64(Nth(k, Offset(n, isn)))
    ensures n < isn ==> Low64(Low64(k * TWO_32 + TWO_32 + n) - isn) == Low64(Nth(k, Offset(n, isn)))
  {
    LowOfDifference(k * TWO_32 + n, isn);
    LowOfDifference(k * TWO_32 + TWO_32 + n, isn);
  }

  // The first of the two search loops of `unwrap`, in wrapping 64-bit arithmetic.
  // `rounds` counts the iterations.
  method SearchUpward(n: u32, isn: u32, checkpoint: u64) returns (r: u64, ghost rounds: nat)
    requires n >= isn
    ensures r == Unwrap(n, isn, checkpoint)
    ensures rounds <= 4
  {
    ghost var off := Offset(n, isn);
    var initK := FirstK(checkpoint);
    var minDiff: u64 := TWO_64 - 1;
    var k := initK;
    ghost var best := Pick(off, checkpoint);
    r, rounds := 0, 0;
    SearchIsUnimodal(off, checkpoint, k);
    while k < TWO_64 - 1
      invariant initK <= k == initK + rounds <= best + 1
      invariant k == initK ==> minDiff == TWO_64 - 1
      invariant k > initK ==> 0 <= Nth(k - 1, off) < TWO_64 && minDiff == Distance(Nth(k - 1, off), checkpoint)
    {
      SearchIsUnimodal(off, checkpoint, k);
      CurrentIsNth(n, isn, k);
      var current := Low64(Low64(k * TWO_32 + n) - isn);
      var diff := Distance(current, checkpoint);
      rounds := rounds + 1;
      if minDiff > diff {
        minDiff := diff;
      } else {
        r := Low64(current - TWO_32);
        return;
      }
      k := k + 1;
    }
  }

  // The second search loop: the number has wrapped past the initial one.
  method SearchAcross(n: u32, isn: u32, checkpoint: u64) returns (r: u64, ghost rounds: nat)
    requires n < isn
    ensures r == Unwrap(n, isn, checkpoint)
    ensures rounds <= 4
  {
    ghost var off := Offset(n, isn);
    var initK := FirstK(checkpoint);
    var minDiff: u64 := TWO_64 - 1;
    var k := initK;
    ghost var best := Pick(off, checkpoint);
    r, rounds := 0, 0;
    SearchIsUnimodal(off, checkpoint, k);
    while k < TWO_64 - 1
      invariant initK <= k == initK + rounds <= best + 1
      invariant k == initK ==> minDiff == TWO_64 - 1
      invariant k > initK ==> 0 <= Nth(k - 1, off) < TWO_64 && minDiff == Distance(Nth(k - 1, off), checkpoint)
    {
      SearchIsUnimodal(off, checkpoint, k);
      CurrentIsNth(n, isn, k);
      var current := Low64(Low64(k * TWO_32 + TWO_32 + n) - isn);
      var diff := Distance(current, checkpoint);
      rounds := rounds + 1;
      if minDiff > diff {
        minDiff := diff;
      } else {
        r := Low64(current - TWO_32);
        return;
      }
      k := k + 1;
    }
  }

  method UnwrapSearch(n: u32, isn: u32, checkpoint: u64) returns (r: u64, ghost rounds: nat)
    ensures r == Unwrap(n, isn, checkpoint)
    ensures rounds <= 4
  {
    if n >= isn {
      r, rounds := SearchUpward(n, isn, checkpoint);
    } else {
      r, rounds := SearchAcross(n, isn, checkpoint);
    }
  }
}

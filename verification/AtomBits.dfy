/** The bits of an atom's name: bitAt, charAt and firstMismatch. */
module AtomBits {

  type Octets = seq<bv8>

  /** 1 << k. */
  function OneBit(k: nat): bv8
    requires k < 8
  {
    if k == 0 then 1 else if k == 1 then 2 else if k == 2 then 4 else if k == 3 then 8
    else if k == 4 then 16 else if k == 5 then 32 else if k == 6 then 64 else 128
  }

  predicate Bit(x: bv8, k: nat)
    requires k < 8
  {
    x & OneBit(k) != 0
  }

  /** bitAt: the bits of `data`, least significant first in each octet, followed by ones for ever. */
  predicate BitAt(data: Octets, pos: nat) {
    if pos >= 8 * |data| then true else Bit(data[pos / 8], pos % 8)
  }

  /** charAt. */
  function CharAt(data: Octets, i: nat): bv8 {
    if i >= |data| then 0xFF else data[i]
  }

  /** __builtin_ctz, on an octet. */
  function Ctz(d: bv8): (k: nat)
    requires d != 0
    ensures k < 8 && Bit(d, k)
    ensures forall j: nat :: j < k ==> !Bit(d, j)
  {
    if d & 1 != 0 then 0 else if d & 2 != 0 then 1 else if d & 4 != 0 then 2 else if d & 8 != 0 then 3
    else if d & 16 != 0 then 4 else if d & 32 != 0 then 5 else if d & 64 != 0 then 6 else 7
  }

  lemma CharBits(data: Octets, pos: nat)
    ensures BitAt(data, pos) == Bit(CharAt(data, pos / 8), pos % 8)
  {
    if pos >= 8 * |data| {
      assert pos / 8 >= |data|;
      var k := pos % 8;
      assert Bit(0xFF, k);
    }
  }

  /** `m` is one bit to `x`: all of it is there, or none. */
  predicate Single(x: bv8, m: bv8) {
    m != 0 && (x & m == 0 || x & m == m)
  }

  lemma MaskedBit(x: bv8, k: nat)
    requires k < 8
    ensures Single(x, OneBit(k))
  {
  }

  predicate Hits(x: bv8, m: bv8) {
    x & m != 0
  }

  lemma BitHits(x: bv8, k: nat)
    requires k < 8
    ensures Bit(x, k) <==> Hits(x, OneBit(k))
  {
    hide OneBit;
  }

  lemma AndMask(x: bv8, y: bv8, m: bv8)
    requires Single(x, m) && Single(y, m)
    ensures Hits(x & y, m) <==> Hits(x, m) && Hits(y, m)
    ensures Hits(x ^ y, m) <==> Hits(x, m) != Hits(y, m)
  {
    assert (x & y) & m == (x & m) & (y & m);
    assert (x ^ y) & m == (x & m) ^ (y & m);
  }

  lemma AndBit(x: bv8, y: bv8, k: nat)
    requires k < 8
    ensures Bit(x & y, k) <==> Bit(x, k) && Bit(y, k)
    ensures Bit(x ^ y, k) <==> Bit(x, k) != Bit(y, k)
  {
    hide *;
    MaskedBit(x, k);
    MaskedBit(y, k);
    AndMask(x, y, OneBit(k));
    BitHits(x, k);
    BitHits(y, k);
    BitHits(x & y, k);
    BitHits(x ^ y, k);
  }

  /** The bits of the first octet's mask: those from `s` on. */
  lemma MaskBit(s: nat, k: nat)
    requires s < 8 && k < 8
    ensures Bit(!(OneBit(s) - 1), k) <==> k >= s
  {
  }

  lemma ZeroBits(x: bv8, k: nat)
    requires k < 8 && x == 0
    ensures !Bit(x, k)
  {
  }

  lemma SameBits(x: bv8, y: bv8)
    requires forall k: nat :: k < 8 ==> Bit(x, k) == Bit(y, k)
    ensures x == y
  {
    assert Bit(x, 0) == Bit(y, 0) && Bit(x, 1) == Bit(y, 1) && Bit(x, 2) == Bit(y, 2) && Bit(x, 3) == Bit(y, 3);
    assert Bit(x, 4) == Bit(y, 4) && Bit(x, 5) == Bit(y, 5) && Bit(x, 6) == Bit(y, 6) && Bit(x, 7) == Bit(y, 7);
  }

  lemma FullMask(k: nat)
    requires k < 8
    ensures Bit(0xFF, k)
  {
  }

  /** `mask` keeps the bits of an octet from `s` on. */
  predicate Masks(mask: bv8, s: nat) {
    s < 8 && ((mask == 0xFF && s == 0) || mask == !(OneBit(s) - 1))
  }

  lemma InitialMasks(s: nat)
    requires s < 8
    ensures Masks(!(OneBit(s) - 1), s) && Masks(0xFF, 0)
  {
  }

  lemma MaskedFrom(mask: bv8, s: nat, k: nat)
    requires k < 8 && Masks(mask, s)
    ensures Bit(mask, k) <==> k >= s
  {
    if mask == 0xFF && s == 0 { FullMask(k); } else { MaskBit(s, k); }
  }

  /** The octet of differences the scan computes at index `i`. */
  function Differences(d1: Octets, d2: Octets, i: nat, mask: bv8): bv8 {
    (CharAt(d1, i) ^ CharAt(d2, i)) & mask
  }

  lemma DifferenceBit(d1: Octets, d2: Octets, i: nat, mask: bv8, s: nat, k: nat)
    requires k < 8 && Masks(mask, s)
    ensures Bit(Differences(d1, d2, i, mask), k) <==> k >= s && BitAt(d1, 8 * i + k) != BitAt(d2, 8 * i + k)
  {
    hide Bit, OneBit, Masks, BitAt, CharAt;
    var x, y := CharAt(d1, i), CharAt(d2, i);
    AndBit(x ^ y, mask, k);
    AndBit(x, y, k);
    MaskedFrom(mask, s, k);
    assert (8 * i + k) / 8 == i && (8 * i + k) % 8 == k;
    CharBits(d1, 8 * i + k);
    CharBits(d2, 8 * i + k);
  }

  ghost predicate Agree(d1: Octets, d2: Octets, from: nat, to: nat) {
    forall p: nat :: from <= p < to ==> BitAt(d1, p) == BitAt(d2, p)
  }

  lemma NoDifference(d1: Octets, d2: Octets, i: nat, mask: bv8, s: nat)
    requires Masks(mask, s) && Differences(d1, d2, i, mask) == 0
    ensures Agree(d1, d2, 8 * i + s, 8 * i + 8)
  {
    forall p: nat | 8 * i + s <= p < 8 * i + 8 ensures BitAt(d1, p) == BitAt(d2, p) {
      DifferenceBit(d1, d2, i, mask, s, p - 8 * i);
      ZeroBits(Differences(d1, d2, i, mask), p - 8 * i);
    }
  }

  lemma FirstDifference(d1: Octets, d2: Octets, i: nat, mask: bv8, s: nat)
    requires Masks(mask, s) && Differences(d1, d2, i, mask) != 0
    ensures var k := Ctz(Differences(d1, d2, i, mask));
      s <= k && BitAt(d1, 8 * i + k) != BitAt(d2, 8 * i + k) && Agree(d1, d2, 8 * i + s, 8 * i + k)
  {
    var d := Differences(d1, d2, i, mask);
    DifferenceBit(d1, d2, i, mask, s, Ctz(d));
    forall p: nat | 8 * i + s <= p < 8 * i + Ctz(d) ensures BitAt(d1, p) == BitAt(d2, p) {
      DifferenceBit(d1, d2, i, mask, s, p - 8 * i);
    }
  }

  lemma AgreeNowhere(d1: Octets, d2: Octets, a: nat)
    ensures forall b: nat :: b <= a ==> Agree(d1, d2, a, b)
  {
  }

  lemma AgreeOn(d1: Octets, d2: Octets, a: nat, b: nat, c: nat, e: nat)
    requires Agree(d1, d2, a, b) && Agree(d1, d2, c, e) && c <= b
    ensures Agree(d1, d2, a, e)
  {
  }

  lemma AgreeLess(d1: Octets, d2: Octets, a: nat, b: nat, c: nat)
    requires Agree(d1, d2, a, b) && c <= b
    ensures Agree(d1, d2, a, c)
  {
  }

  /** firstMismatch: the first position from `start` where the padded bits differ, if below `stop`. */
  method FirstMismatch(d1: Octets, d2: Octets, start: nat, stop: nat) returns (r: nat)
    requires start <= stop
    ensures r < stop ==> start <= r && BitAt(d1, r) != BitAt(d2, r) && Agree(d1, d2, start, r)
    ensures r >= stop ==> Agree(d1, d2, start, stop)
  {
    AgreeNowhere(d1, d2, start);
    hide Bit, OneBit, Masks, BitAt, CharAt, Ctz, Agree;
    if start == stop {
      return stop;
    }
    InitialMasks(start % 8);
    var last := stop - 1;
    var mask := !(OneBit(start % 8) - 1);
    var i := start / 8;
    ghost var s: nat := start % 8;
    while i <= last / 8
      invariant i <= last / 8 + 1
      invariant Masks(mask, s) && start <= 8 * i + s
      invariant Agree(d1, d2, start, 8 * i + s)
    {
      var x, y := CharAt(d1, i), CharAt(d2, i);
      var d := (x ^ y) & mask;
      if d != 0 {
        FirstDifference(d1, d2, i, mask, s);
        AgreeOn(d1, d2, start, 8 * i + s, 8 * i + s, 8 * i + Ctz(d));
        if stop <= 8 * i + Ctz(d) { AgreeLess(d1, d2, start, 8 * i + Ctz(d), stop); }
        return 8 * i + Ctz(d);
      }
      NoDifference(d1, d2, i, mask, s);
      AgreeOn(d1, d2, start, 8 * i + s, 8 * i + s, 8 * i + 8);
      mask, s := 0xFF, 0;
      i := i + 1;
    }
    AgreeLess(d1, d2, start, 8 * i + s, stop);
    return last + 1;
  }
}

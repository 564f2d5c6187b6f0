/** Bits of bytes and numbers, most significant first. */
module Bits {
  import opened Types

  function Pow2(n: nat): (p: nat)
    ensures p >= 1
  {
    if n == 0 then 1 else 2 * Pow2(n - 1)
  }

  lemma Pow2Table()
    ensures Pow2(0) == 1 && Pow2(1) == 2 && Pow2(2) == 4 && Pow2(3) == 8
    ensures Pow2(4) == 16 && Pow2(5) == 32 && Pow2(6) == 64 && Pow2(7) == 128 && Pow2(8) == 256
  {
    assert Pow2(2) == 2 * Pow2(1);
    assert Pow2(3) == 2 * Pow2(2);
    assert Pow2(4) == 2 * Pow2(3);
    assert Pow2(5) == 2 * Pow2(4);
    assert Pow2(6) == 2 * Pow2(5);
    assert Pow2(7) == 2 * Pow2(6);
    assert Pow2(8) == 2 * Pow2(7);
  }

  /** `bool((v >> k) & 1)` for any Python integer v. */
  predicate BitOf(v: int, k: nat) {
    (v / Pow2(k)) % 2 == 1
  }

  /** The lowest n bits of v, most significant first. */
  function BitsOf(v: int, n: nat): (s: seq<bool>)
    ensures |s| == n
  {
    if n == 0 then [] else [BitOf(v, n - 1)] + BitsOf(v, n - 1)
  }

  /** The number a bit string denotes. */
  function Number(s: seq<bool>): nat {
    if s == [] then 0 else 2 * Number(s[..|s| - 1]) + (if s[|s| - 1] then 1 else 0)
  }

  lemma {:induction false} NumberCons(b: bool, s: seq<bool>)
    ensures Number([b] + s) == (if b then Pow2(|s|) else 0) + Number(s)
  {
    if s == [] {
      assert [b] + s == [b];
      assert Number([b]) == 2 * Number([b][..0]) + (if b then 1 else 0);
    } else {
      assert ([b] + s)[..|s|] == [b] + s[..|s| - 1];
      NumberCons(b, s[..|s| - 1]);
    }
  }

  lemma ModSplit(v: int, p: nat)
    requires p >= 1
    ensures v % (2 * p) == ((v / p) % 2) * p + v % p
  {
    var q := v / p;
    var h := q / 2;
    assert v == p * q + v % p && q == 2 * h + q % 2;
    var r := (q % 2) * p + v % p;
    assert v == (2 * p) * h + r;
    assert 0 <= r < 2 * p;
    ModUnique(v, 2 * p, h, r);
  }

  lemma ModUnique(v: int, d: int, q: int, r: int)
    requires d > 0 && 0 <= r < d && v == d * q + r
    ensures v % d == r && v / d == q
  {
    var e := q - v / d;
    assert v == d * (v / d) + v % d;
    MulDistributes(d, q, v / d);
    assert d * e == v % d - r;
    MulBound(d, e);
  }

  lemma MulDistributes(d: int, x: int, y: int)
    ensures d * (x - y) == d * x - d * y
  {
  }

  lemma MulBound(d: int, e: int)
    requires d > 0
    ensures e >= 1 ==> d * e >= d
    ensures e <= -1 ==> d * e <= -d
  {
  }

  /** Writing n bits of v and reading them back keeps v modulo 2^n. */
  lemma {:induction false} NumberOfBits(v: int, n: nat)
    ensures Number(BitsOf(v, n)) == v % Pow2(n)
  {
    if n > 0 {
      NumberOfBits(v, n - 1);
      NumberCons(BitOf(v, n - 1), BitsOf(v, n - 1));
      ModSplit(v, Pow2(n - 1));
    }
  }

  lemma {:induction false} BitsOfAt(v: int, n: nat, j: nat)
    requires j < n
    ensures BitsOf(v, n)[j] == BitOf(v, n - 1 - j)
  {
    if j > 0 {
      BitsOfAt(v, n - 1, j - 1);
    }
  }

  /** A byte is the sum of its bits. */
  lemma ByteSum(b: byte)
    ensures Number(BitsOf(b, 8)) == b
  {
    NumberOfBits(b, 8);
    Pow2Table();
  }

  lemma HalveTwice(v: int, bit: int, p: int)
    requires 0 <= bit < 2 && p >= 1
    ensures (2 * v + bit) / (2 * p) == v / p
  {
    assert v == p * (v / p) + v % p;
    assert 2 * (p * (v / p)) == (2 * p) * (v / p);
    ModUnique(2 * v + bit, 2 * p, v / p, 2 * (v % p) + bit);
  }

  lemma BitShift(v: int, bit: int, j: nat)
    requires 0 <= bit < 2 && j > 0
    ensures BitOf(2 * v + bit, j) == BitOf(v, j - 1)
  {
    HalveTwice(v, bit, Pow2(j - 1));
  }

  lemma LowBit(v: int, bit: int)
    requires 0 <= bit < 2
    ensures BitOf(2 * v + bit, 0) == (bit == 1)
  {
    assert Pow2(0) == 1;
  }

  /** Bit j of the number a bit string denotes is the string's own bit. */
  lemma {:induction false} BitOfNumber(s: seq<bool>, j: nat)
    requires j < |s|
    ensures BitOf(Number(s), j) == s[|s| - 1 - j]
  {
    var t, last := s[..|s| - 1], if s[|s| - 1] then 1 else 0;
    if j == 0 {
      LowBit(Number(t), last);
    } else {
      BitShift(Number(t), last, j);
      BitOfNumber(t, j - 1);
    }
  }

  lemma BitsOfNumber(s: seq<bool>)
    ensures BitsOf(Number(s), |s|) == s
  {
    forall i: nat | i < |s|
      ensures BitsOf(Number(s), |s|)[i] == s[i]
    {
      BitsOfNumberAt(s, i);
    }
  }

  lemma BitsOfNumberAt(s: seq<bool>, i: nat)
    requires i < |s|
    ensures BitsOf(Number(s), |s|)[i] == s[i]
  {
    BitsOfAt(Number(s), |s|, i);
    BitOfNumber(s, |s| - 1 - i);
  }

  lemma NumberSnoc(s: seq<bool>, b: bool)
    ensures Number(s + [b]) == 2 * Number(s) + (if b then 1 else 0)
  {
    assert (s + [b])[..|s|] == s;
  }

  lemma {:induction false} NumberBound(s: seq<bool>)
    ensures Number(s) < Pow2(|s|)
  {
    if s != [] {
      NumberBound(s[..|s| - 1]);
    }
  }

  /** `b |= 1 << k` when v, `b &= ~(1 << k)` otherwise: bit k of b becomes v. */
  function PutBit(b: byte, k: nat, v: bool): (r: byte)
    requires k < 8
    ensures forall j: nat | j < 8 :: BitOf(r, j) == if j == k then v else BitOf(b, j)
  {
    var s := BitsOf(b, 8)[7 - k := v];
    assert forall j: nat | j < 8 :: BitOf(Number(s), j) == if j == k then v else BitOf(b, j) by {
      forall j: nat | j < 8
        ensures BitOf(Number(s), j) == if j == k then v else BitOf(b, j)
      {
        BitOfNumber(s, j);
        BitsOfAt(b, 8, 7 - j);
      }
    }
    NumberBound(s);
    Pow2Table();
    Number(s)
  }

}

/** 24-bit sequence numbers.

    Every counter of the protocol travels modulo 2^24.  The model keeps an
    unbounded integer beside each of them; `Wire` is what goes on the wire. */
module SeqNum {

  const SEQ_MOD: int := 0x1000000
  const HALF_SEQ: int := 0x800000

  /** The 24-bit number that stands for n; Python's `n & SEQ_NUM_MAX`. */
  function Wire(n: int): (r: int)
    ensures 0 <= r < SEQ_MOD
  {
    n % SEQ_MOD
  }

  /** `(a - b) & SEQ_NUM_MAX`: how far a lies ahead of b on the circle. */
  function Ahead(a: int, b: int): (r: int)
    ensures 0 <= r < SEQ_MOD
  {
    Wire(a - b)
  }

  predicate SeqGreaterThan(a: int, b: int) {
    a != b && Ahead(a, b) < HALF_SEQ
  }

  predicate SeqLessThan(a: int, b: int) {
    SeqGreaterThan(b, a)
  }

  /** The circular distance of two wire numbers is that of the counters. */
  lemma AheadOfWire(x: int, y: int)
    ensures Ahead(Wire(x), Wire(y)) == Wire(x - y)
    ensures 0 <= x - y < SEQ_MOD ==> Ahead(Wire(x), Wire(y)) == x - y
    ensures -SEQ_MOD <= x - y < 0 ==> Ahead(Wire(x), Wire(y)) == x - y + SEQ_MOD
  {
  }

  /** Inside half the circle the wrapped comparison is the order of the counters. */
  lemma SeqGreaterIsGreater(x: int, y: int)
    requires -HALF_SEQ < x - y < HALF_SEQ
    ensures SeqGreaterThan(Wire(x), Wire(y)) <==> x > y
    ensures SeqLessThan(Wire(x), Wire(y)) <==> x < y
  {
    AheadOfWire(x, y);
    AheadOfWire(y, x);
  }

  /** The comparison orders a pair one way or the other, never both ways; it
      leaves a pair unordered exactly when the two are equal or antipodal. */
  lemma SeqOrderedUnlessAntipodal(a: int, b: int)
    requires 0 <= a < SEQ_MOD && 0 <= b < SEQ_MOD
    ensures !(SeqGreaterThan(a, b) && SeqGreaterThan(b, a))
    ensures !SeqGreaterThan(a, b) && !SeqGreaterThan(b, a) <==> a == b || Ahead(a, b) == HALF_SEQ
  {
    AheadOfWire(a, b);
    AheadOfWire(b, a);
  }

  /** Over more than half the circle it is not transitive: no total order. */
  lemma SeqGreaterNotTransitive()
    ensures SeqGreaterThan(0x600000, 0) && SeqGreaterThan(0xC00000, 0x600000) && !SeqGreaterThan(0xC00000, 0)
  {
    assert Ahead(0x600000, 0) == 0x600000;
    assert Ahead(0xC00000, 0x600000) == 0x600000;
    assert Ahead(0xC00000, 0) == 0xC00000;
  }

  /** Two counters less than 2^24 apart share a wire number only if equal. */
  lemma WireInjective(x: int, y: int)
    requires -SEQ_MOD < x - y < SEQ_MOD
    ensures Wire(x) == Wire(y) <==> x == y
  {
    AheadOfWire(x, y);
  }

  lemma WireNext(x: int)
    ensures Wire(Wire(x) + 1) == Wire(x + 1)
  {
    AheadOfWire(x, -1);
  }

  lemma WirePlus(x: int, d: int)
    ensures Wire(Wire(x) + d) == Wire(x + d)
  {
    AheadOfWire(x, -d);
    var q := x / SEQ_MOD;
    assert x == q * SEQ_MOD + Wire(x);
    assert Wire(x) + d == x + d - q * SEQ_MOD;
    MultipleVanishes(x + d, q);
  }

  lemma MultipleVanishes(x: int, q: int)
    ensures Wire(x - q * SEQ_MOD) == Wire(x)
  {
  }

  /** The counter in the half circle around `base` that a wire number stands for. */
  function Lift(base: int, w: int): (n: int)
    requires 0 <= w < SEQ_MOD
    ensures base - HALF_SEQ <= n < base + HALF_SEQ && Wire(n) == w
  {
    var d := Ahead(w, base);
    assert Wire(base + d) == w by { LiftWire(base, w); }
    if d < HALF_SEQ then base + d
    else
      assert Wire(base + d - SEQ_MOD) == w by { MultipleVanishes(base + d, 1); }
      base + d - SEQ_MOD
  }

  lemma LiftWire(base: int, w: int)
    requires 0 <= w < SEQ_MOD
    ensures Wire(base + Ahead(w, base)) == w
  {
    WirePlus(w - base, base);
  }

  /** The lift is the only counter within reach: wire numbers lose nothing there. */
  lemma LiftUnique(base: int, n: int)
    requires base - HALF_SEQ <= n < base + HALF_SEQ
    ensures Lift(base, Wire(n)) == n
  {
    WireInjective(n, Lift(base, Wire(n)));
  }
}

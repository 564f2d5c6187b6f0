/** The receiver's two duplicate filters (_reliability.py:84-165). */
module Windows {
  import opened SeqNum

  // ---------- reliable message numbers ----------

  const MAX_GAP := 1000000

  /** The numbers seen so far: all below base, and the marks above it. */
  datatype Seen = Seen(base: int, marks: set<int>) {
    predicate Has(n: int) {
      n < base || n in marks
    }

    /** base is the least number not seen. */
    ghost predicate Valid() {
      base !in marks && forall m <- marks :: m > base
    }
  }

  /** base moves past every mark that has become contiguous with it. */
  function Advance(base: int, marks: set<int>): Seen
    decreases |marks|
  {
    if base in marks then Advance(base + 1, marks - {base}) else Seen(base, marks)
  }

  /** Marking a number: refused when already seen or more than MAX_GAP ahead. */
  function Mark(s: Seen, n: int): (Seen, bool) {
    if s.Has(n) || n > s.base + MAX_GAP then (s, false)
    else (Advance(s.base, s.marks + {n}), true)
  }

  lemma {:induction false} AdvanceKeeps(base: int, marks: set<int>)
    requires forall m <- marks :: m >= base
    ensures Advance(base, marks).Valid() && Advance(base, marks).base >= base
    ensures forall n :: Advance(base, marks).Has(n) <==> n < base || n in marks
    decreases |marks|
  {
    if base in marks {
      AdvanceKeeps(base + 1, marks - {base});
    }
  }

  /** Marking adds exactly the accepted number to what has been seen. */
  lemma MarkAdds(s: Seen, n: int)
    requires s.Valid()
    ensures Mark(s, n).0.Valid() && Mark(s, n).0.base >= s.base
    ensures Mark(s, n).1 <==> !s.Has(n) && n <= s.base + MAX_GAP
    ensures forall k :: Mark(s, n).0.Has(k) <==> s.Has(k) || (Mark(s, n).1 && k == n)
  {
    if Mark(s, n).1 {
      AdvanceKeeps(s.base, s.marks + {n});
    }
  }

  /** How often number n is accepted while ns arrive in turn. */
  function Accepted(s: Seen, ns: seq<int>, n: int): nat
    decreases |ns|
  {
    if ns == [] then 0
    else (if ns[0] == n && Mark(s, n).1 then 1 else 0) + Accepted(Mark(s, ns[0]).0, ns[1..], n)
  }

  /** Over any run a number is accepted at most once, never again once seen,
      and exactly once when it arrives within reach of the starting base. */
  lemma {:induction false} AcceptedOnce(s: Seen, ns: seq<int>, n: int)
    requires s.Valid()
    ensures Accepted(s, ns, n) <= 1
    ensures s.Has(n) ==> Accepted(s, ns, n) == 0
    ensures !s.Has(n) && n in ns && n <= s.base + MAX_GAP ==> Accepted(s, ns, n) == 1
    decreases |ns|
  {
    if ns != [] {
      MarkAdds(s, ns[0]);
      AcceptedOnce(Mark(s, ns[0]).0, ns[1..], n);
      assert n in ns <==> n == ns[0] || n in ns[1..];
    }
  }

  /** A number beyond the gap is refused without a trace: the far frame of a
      run with an early loss is lost for good when it is not resent. */
  lemma GapRefused()
    ensures Mark(Seen(0, {}), MAX_GAP + 1) == (Seen(0, {}), false)
    ensures Mark(Seen(0, {}), MAX_GAP).1
  {
  }

  /** The deque as a set of unbounded numbers. */
  ghost predicate Represents(base: int, window: seq<bool>, s: Seen) {
    base == Wire(s.base)
    && (forall n :: n in s.marks <==> 0 <= n - s.base < |window| && window[n - s.base])
  }

  class ReliableMessageWindow {
    var base: int
    var window: seq<bool>
    ghost var seen: Seen

    /** The deque is empty, or starts with the hole at base and ends with a mark. */
    ghost predicate Valid()
      reads this
    {
      Represents(base, window, seen) && seen.Valid()
      && (window == [] || (!window[0] && window[|window| - 1]))
    }

    constructor ()
      ensures Valid() && seen == Seen(0, {})
    {
      base, window := 0, [];
      seen := Seen(0, {});
    }

    /** n is the unbounded number behind the 24-bit one; every 24-bit number
        has exactly one such n (SeqNum.Lift). */
    method CheckAndMark(reliableNum: int, ghost n: int) returns (isNew: bool)
      requires Valid() && reliableNum == Wire(n)
      requires seen.base - HALF_SEQ <= n < seen.base + HALF_SEQ
      modifies this
      ensures Valid() && (seen, isNew) == Mark(old(seen), n)
    {
      var holeCount := Ahead(reliableNum, base);
      AheadOfWire(n, seen.base);
      if holeCount >= HALF_SEQ {
        return false;
      }
      if holeCount > MAX_GAP {
        assert n !in seen.marks ==> Mark(seen, n) == (seen, false);
        return false;
      }
      if holeCount == 0 {
        TakeBase();
        return true;
      }
      if holeCount < |window| {
        if window[holeCount] {
          return false;
        }
        window := window[holeCount := true];
      } else {
        ghost var short := window;
        while |window| < holeCount
          invariant |short| <= |window| <= holeCount
          invariant forall i :: 0 <= i < |window| ==> window[i] == (i < |short| && short[i])
          invariant base == old(base) && seen == old(seen)
        {
          window := window + [false];
        }
        window := window + [true];
      }
      seen := Seen(seen.base, seen.marks + {n});
      isNew := true;
    }

    /** The branch in which the expected number arrives: the base advances over
        it and over everything contiguous. */
    method TakeBase()
      requires Valid()
      modifies this
      ensures Valid() && (seen, true) == Mark(old(seen), old(seen).base)
    {
      ghost var target := Advance(seen.base, seen.marks + {seen.base});
      assert seen.marks + {seen.base} - {seen.base} == seen.marks;
      if window != [] {
        window := window[1..];
      }
      base := Wire(base + 1);
      WireNext(seen.base);
      seen := Seen(seen.base + 1, seen.marks);
      while window != [] && window[0]
        invariant Represents(base, window, seen) && Advance(seen.base, seen.marks) == target
        invariant forall m <- seen.marks :: m >= seen.base
        invariant window == [] || window[|window| - 1]
        decreases |window|
      {
        assert seen.base in seen.marks;
        window := window[1..];
        base := Wire(base + 1);
        WireNext(seen.base);
        seen := Seen(seen.base + 1, seen.marks - {seen.base});
      }
    }
  }

  // ---------- datagram numbers ----------

  /** The datagram numbers remembered: those below base count as received. */
  datatype Recent = Recent(base: int, nums: set<int>) {
    predicate Has(n: int) {
      n < base || n in nums
    }

    ghost predicate Valid(size: nat) {
      forall n <- nums :: base <= n < base + size
    }
  }

  function Record(r: Recent, size: nat, n: int): Recent {
    if n < r.base then r
    else if n < r.base + size then Recent(r.base, r.nums + {n})
    else
      var newBase := n - size + 1;
      Recent(newBase, (set m | m in r.nums && m >= newBase) + {n})
  }

  /** Recording keeps the memory inside the window, remembers n and forgets
      nothing; what it adds beyond n lies below the new base. */
  lemma RecordRemembers(r: Recent, size: nat, n: int)
    requires r.Valid(size) && size >= 1
    ensures Record(r, size, n).Valid(size) && Record(r, size, n).Has(n)
    ensures Record(r, size, n).base >= r.base
    ensures forall k :: r.Has(k) ==> Record(r, size, n).Has(k)
    ensures forall k :: Record(r, size, n).Has(k) ==> r.Has(k) || k == n || k <= n - size
  {
  }

  function RecordAll(r: Recent, size: nat, ns: seq<int>): Recent
    decreases |ns|
  {
    if ns == [] then r else RecordAll(Record(r, size, ns[0]), size, ns[1..])
  }

  /** Over any run a recorded number stays contained. */
  lemma {:induction false} RecordedForever(r: Recent, size: nat, ns: seq<int>)
    requires r.Valid(size) && size >= 1
    ensures RecordAll(r, size, ns).Valid(size)
    ensures forall k :: r.Has(k) || k in ns ==> RecordAll(r, size, ns).Has(k)
    decreases |ns|
  {
    if ns != [] {
      RecordRemembers(r, size, ns[0]);
      RecordedForever(Record(r, size, ns[0]), size, ns[1..]);
      assert forall k :: k in ns <==> k == ns[0] || k in ns[1..];
    }
  }

  lemma {:induction false} IntervalBound(s: set<int>, lo: int, n: nat)
    requires forall k <- s :: lo <= k < lo + n
    ensures |s| <= n
    decreases n
  {
    if n == 0 {
      assert forall k :: k !in s;
      assert |s| == 0 by { assert s == {}; }
    } else {
      IntervalBound(s - {lo + n - 1}, lo, n - 1);
    }
  }

  /** The memory is bounded by the window size. */
  lemma RecentBounded(r: Recent, size: nat)
    requires r.Valid(size)
    ensures |r.nums| <= size
  {
    IntervalBound(r.nums, r.base, size);
  }

  class ReceivedWindow {
    const size: nat
    var base: int
    var bits: set<int>
    ghost var recent: Recent

    ghost predicate Valid()
      reads this
    {
      1 <= size <= HALF_SEQ && recent.Valid(size) && base == Wire(recent.base)
      && (forall n <- recent.nums :: Wire(n) in bits)
      && (forall w <- bits :: 0 <= w < SEQ_MOD && Lift(recent.base, w) in recent.nums)
    }

    constructor (size: nat)
      requires 1 <= size <= HALF_SEQ
      ensures Valid() && recent == Recent(0, {}) && this.size == size
    {
      this.size := size;
      base, bits := 0, {};
      recent := Recent(0, {});
    }

    method Contains(sq: int, ghost n: int) returns (r: bool)
      requires Valid() && sq == Wire(n) && recent.base - HALF_SEQ <= n < recent.base + HALF_SEQ
      ensures r == recent.Has(n)
    {
      var offset := Ahead(sq, base);
      AheadOfWire(n, recent.base);
      if offset >= HALF_SEQ {
        return true;
      }
      if offset >= size {
        return false;
      }
      LiftUnique(recent.base, n);
      r := sq in bits;
    }

    method Add(sq: int, ghost n: int)
      requires Valid() && sq == Wire(n) && recent.base - HALF_SEQ <= n < recent.base + HALF_SEQ
      modifies this
      ensures Valid() && recent == Record(old(recent), size, n)
    {
      var offset := Ahead(sq, base);
      AheadOfWire(n, recent.base);
      if offset >= HALF_SEQ {
        return;
      }
      if offset >= size {
        var advance := offset - size + 1;
        var newBase := Wire(base + advance);
        ghost var top := n - size + 1;
        WirePlus(recent.base, advance);
        ghost var kept := set m | m in recent.nums && m >= top;
        Discarded(bits, recent, size, top, kept);
        bits := set s | s in bits && Ahead(s, newBase) < HALF_SEQ;
        base := newBase;
        recent := Recent(top, kept);
      }
      LiftUnique(recent.base, n);
      forall m | m in recent.nums
        ensures Lift(recent.base, Wire(m)) == m
      {
        LiftUnique(recent.base, m);
      }
      bits := bits + {sq};
      recent := Recent(recent.base, recent.nums + {n});
    }
  }

  /** Dropping the numbers that fall behind the new base keeps exactly those at or above it. */
  lemma Discarded(bits: set<int>, r: Recent, size: nat, top: int, kept: set<int>)
    requires r.Valid(size) && 1 <= size <= HALF_SEQ && r.base <= top <= r.base + HALF_SEQ - size
    requires forall n <- r.nums :: Wire(n) in bits
    requires forall w <- bits :: 0 <= w < SEQ_MOD && Lift(r.base, w) in r.nums
    requires kept == set m | m in r.nums && m >= top
    ensures forall n <- kept :: Ahead(Wire(n), Wire(top)) < HALF_SEQ
    ensures forall w <- bits | Ahead(w, Wire(top)) < HALF_SEQ :: Lift(top, w) in kept
  {
    forall n | n in kept
      ensures Ahead(Wire(n), Wire(top)) < HALF_SEQ
    {
      AheadOfWire(n, top);
    }
    forall w | w in bits && Ahead(w, Wire(top)) < HALF_SEQ
      ensures Lift(top, w) in kept
    {
      var n := Lift(r.base, w);
      AheadOfWire(n, top);
      LiftUnique(top, n);
    }
  }
}

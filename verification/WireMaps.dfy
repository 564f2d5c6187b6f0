/** Dictionaries keyed by 24-bit numbers, standing for maps keyed by unbounded ones. */
module WireMaps {
  import opened SeqNum
  import opened Types

  ghost predicate HasWire<V>(a: map<int, V>, w: int) {
    exists n <- a :: Wire(n) == w
  }

  /** c holds f of what a holds, under the wire keys, and no two keys of a collide. */
  ghost predicate MapRep<V(!new), W(!new)>(c: map<int, W>, a: map<int, V>, f: V -> W) {
    (forall n <- a :: Wire(n) in c && c[Wire(n)] == f(a[n]))
    && (forall w <- c :: HasWire(a, w))
    && (forall n, m :: n in a && m in a && Wire(n) == Wire(m) ==> n == m)
  }

  lemma RepPut<V(!new), W(!new)>(c: map<int, W>, a: map<int, V>, f: V -> W, n: int, v: V)
    requires MapRep(c, a, f) && (n in a || Wire(n) !in c)
    ensures MapRep(c[Wire(n) := f(v)], a[n := v], f)
  {
    var a' := a[n := v];
    forall w | w in c[Wire(n) := f(v)]
      ensures HasWire(a', w)
    {
      if w == Wire(n) {
        assert n in a';
      } else {
        assert HasWire(a, w);
        var m :| m in a && Wire(m) == w;
        assert m in a';
      }
    }
  }

  lemma RepRemove<V(!new), W(!new)>(c: map<int, W>, a: map<int, V>, f: V -> W, n: int)
    requires MapRep(c, a, f) && n in a
    ensures MapRep(c - {Wire(n)}, a - {n}, f)
  {
    forall w | w in c - {Wire(n)}
      ensures HasWire(a - {n}, w)
    {
      assert HasWire(a, w);
      var m :| m in a && Wire(m) == w;
      assert m in a - {n};
    }
  }

  /** The one counter behind a wire key; for an absent key any counter with that wire number. */
  ghost function Behind<V(!new)>(a: map<int, V>, w: int): (n: int)
    requires 0 <= w < SEQ_MOD
    ensures Wire(n) == w
    ensures HasWire(a, w) ==> n in a
  {
    if HasWire(a, w) then
      var n :| n in a && Wire(n) == w;
      n
    else w
  }

  lemma {:induction false} RepSize<V(!new), W(!new)>(c: map<int, W>, a: map<int, V>, f: V -> W)
    requires MapRep(c, a, f)
    ensures |c| == |a|
    decreases |a|
  {
    assert |a| == |a.Keys| && |c| == |c.Keys|;
    if a.Keys == {} {
      forall w
        ensures w !in c
      {
        assert w in c ==> HasWire(a, w);
      }
      assert c.Keys == {};
    } else {
      var n := Any(a.Keys);
      RepRemove(c, a, f, n);
      var a', c' := a - {n}, c - {Wire(n)};
      assert a'.Keys == a.Keys - {n} && c'.Keys == c.Keys - {Wire(n)};
      assert |a'| == |a'.Keys| && |c'| == |c'.Keys|;
      RepSize(c', a', f);
    }
  }
}

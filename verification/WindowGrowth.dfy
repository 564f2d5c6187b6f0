/** The congestion window and the retransmission timeout in numbers
    (_congestion.py:186-254). */
module WindowGrowth {
  import opened SeqNum
  import opened Congestion

  /** ACKs, sends and budget queries, but neither resends nor NAKs. */
  ghost predicate Smooth(es: seq<Event>) {
    forall e <- es :: e.AckOf? || e.Emit? || e.Budget?
  }

  /** How many ACKs in continuous mode there are. */
  function Acks(es: seq<Event>): nat
    decreases |es|
  {
    if es == [] then 0 else (if es[0].AckOf? && es[0].isContinuous then 1 else 0) + Acks(es[1..])
  }

  /** The window of a new controller. */
  function Fresh(mtu: int): Window {
    Window(mtu, mtu as real, 0.0, 0, 0, false, false)
  }

  lemma {:induction false} SmoothGuarded(w: Window, es: seq<Event>)
    requires Sound(w) && Smooth(es)
    ensures Guarded(w, es)
    decreases |es|
  {
    if es != [] {
      assert es[0] in es && forall e <- es[1..] :: e in es;
      ApplySound(w, es[0]);
      SmoothGuarded(Apply(w, es[0]), es[1..]);
    }
  }

  // ---------- slow start ----------

  /** Up to the threshold, or without one, every continuous-mode ACK opens the
      window by exactly one MTU, and nothing else moves it. */
  lemma {:induction false} OneMtuPerAck(w: Window, es: seq<Event>)
    requires Sound(w) && Smooth(es)
    requires w.ssThresh == 0.0 || w.cwnd + (Acks(es) * w.mtu) as real <= w.ssThresh
    ensures Guarded(w, es) && Run(w, es).cwnd == w.cwnd + (Acks(es) * w.mtu) as real
    ensures Run(w, es).ssThresh == w.ssThresh && Run(w, es).mtu == w.mtu && (!w.backedOff ==> !Run(w, es).backedOff)
    decreases |es|
  {
    SmoothGuarded(w, es);
    if es != [] {
      var one := Apply(w, es[0]);
      assert es[0] in es && forall e <- es[1..] :: e in es;
      ApplySound(w, es[0]);
      CountFirst(es, w.mtu);
      OneMtuPerAck(one, es[1..]);
    }
  }

  lemma CountFirst(es: seq<Event>, mtu: int)
    requires es != []
    ensures Acks(es) * mtu == (if es[0].AckOf? && es[0].isContinuous then mtu else 0) + Acks(es[1..]) * mtu
    ensures mtu > 0 ==> Acks(es[1..]) * mtu >= 0
  {
    var one := if es[0].AckOf? && es[0].isContinuous then 1 else 0;
    Distribute(one, Acks(es[1..]), mtu);
  }

  lemma Distribute(a: int, b: nat, c: int)
    ensures (a + b) * c == a * c + b * c
    ensures c > 0 ==> b * c >= 0
  {
  }

  /** A new controller with k continuous-mode ACKs has a window of k + 1 MTU. */
  lemma OpensFromOne(mtu: int, es: seq<Event>)
    requires mtu > 0 && Smooth(es)
    ensures Guarded(Fresh(mtu), es) && Run(Fresh(mtu), es).cwnd == ((Acks(es) + 1) * mtu) as real
  {
    OneMtuPerAck(Fresh(mtu), es);
    assert (Acks(es) + 1) * mtu == Acks(es) * mtu + mtu;
  }

  /** The ACK that would carry the window over the threshold lands just beyond
      it, by mtu * mtu over the window it would have reached. */
  lemma LandsAtThreshold(w: Window, sq: int)
    requires Sound(w) && 0.0 < w.ssThresh && w.cwnd <= w.ssThresh < w.cwnd + w.mtu as real
    ensures var c := Apply(w, AckOf(sq, true)).cwnd;
      c == w.ssThresh + w.mtu as real * w.mtu as real / (w.cwnd + w.mtu as real) && c > w.ssThresh
  {
    GrowthBounds(w, w.cwnd + w.mtu as real);
  }

  // ---------- congestion avoidance ----------

  /** Until an ACK comes from beyond the block, nothing moves a window above its threshold. */
  lemma {:induction false} StillWithinBlock(w: Window, es: seq<Event>)
    requires Sound(w) && Smooth(es) && 0.0 < w.ssThresh < w.cwnd && forall e <- es :: !Beyond(e, w.block)
    ensures Guarded(w, es) && Run(w, es).cwnd == w.cwnd && Run(w, es).ssThresh == w.ssThresh
    ensures Run(w, es).block == w.block && Run(w, es).mtu == w.mtu
    decreases |es|
  {
    SmoothGuarded(w, es);
    if es != [] {
      assert es[0] in es && !Beyond(es[0], w.block) && forall e <- es[1..] :: e in es;
      ApplySound(w, es[0]);
      StillWithinBlock(Apply(w, es[0]), es[1..]);
    }
  }

  /** Above the threshold the window rises by mtu * mtu / cwnd at the first
      continuous-mode ACK from beyond the block, and by nothing until an ACK for
      a datagram sent after that one. */
  lemma OneRisePerBlock(w: Window, before: seq<Event>, sq: int, after: seq<Event>)
    requires Sound(w) && 0.0 < w.ssThresh < w.cwnd && Smooth(before) && forall e <- before :: !Beyond(e, w.block)
    requires Guarded(w, before) && SeqGreaterThan(sq, w.block)
    requires Smooth(after) && forall e <- after :: !Beyond(e, Run(w, before).nextSeq)
    ensures var w0 := Run(w, before);
      Sound(w0) && w0.cwnd == w.cwnd && w0.mtu == w.mtu
      && var w1 := Apply(w0, AckOf(sq, true));
      RisenTo(w0, w1) && Sound(w1) && Guarded(w1, after)
      && Run(w1, after).cwnd == w1.cwnd && Run(w1, after).block == w0.nextSeq
  {
    StillWithinBlock(w, before);
    RunSound(w, before);
    var w0 := Run(w, before);
    RisesBeyondBlock(w0, sq);
    StillWithinBlock(Apply(w0, AckOf(sq, true)), after);
  }

  predicate RisenTo(w: Window, w1: Window)
    requires w.cwnd > 0.0
  {
    w1.cwnd == w.cwnd + w.mtu as real * w.mtu as real / w.cwnd
  }

  lemma RisesBeyondBlock(w: Window, sq: int)
    requires Sound(w) && 0.0 < w.ssThresh < w.cwnd && SeqGreaterThan(sq, w.block)
    ensures var w1 := Apply(w, AckOf(sq, true));
      RisenTo(w, w1) && Sound(w1) && w1.cwnd > w.cwnd
      && w1.ssThresh == w.ssThresh && w1.block == w.nextSeq && w1.mtu == w.mtu
  {
    ApplySound(w, AckOf(sq, true));
    GrowthBounds(w, w.cwnd);
  }

  /** An ACK for a datagram sent outside continuous mode moves no window. */
  lemma {:induction false} IdleAcksKeep(w: Window, es: seq<Event>)
    requires Sound(w) && Smooth(es) && Acks(es) == 0
    ensures Guarded(w, es) && Run(w, es).cwnd == w.cwnd && Run(w, es).ssThresh == w.ssThresh && Run(w, es).block == w.block
    decreases |es|
  {
    SmoothGuarded(w, es);
    if es != [] {
      assert es[0] in es && forall e <- es[1..] :: e in es;
      ApplySound(w, es[0]);
      IdleAcksKeep(Apply(w, es[0]), es[1..]);
    }
  }

  /** The mode the last ACK or budget query left the controller in. */
  function LastMode(before: bool, es: seq<Event>): bool
    decreases |es|
  {
    if es == [] then before
    else LastMode(if es[0].AckOf? || es[0].Budget? then es[0].isContinuous else before, es[1..])
  }

  /** Whatever happens, continuous mode is what the last ACK or budget query said. */
  lemma {:induction false} ModeIsLast(w: Window, es: seq<Event>)
    requires Sound(w) && Guarded(w, es)
    ensures Run(w, es).continuous == LastMode(w.continuous, es)
    decreases |es|
  {
    if es != [] {
      ApplySound(w, es[0]);
      ModeIsLast(Apply(w, es[0]), es[1..]);
    }
  }

  // ---------- cuts ----------

  /** A new controller that has seen k >= 2 continuous-mode ACKs and is in
      continuous mode answers a resend by a window of one MTU and a threshold of
      half the old window; with fewer ACKs, or outside continuous mode, by nothing. */
  lemma CutToHalf(mtu: int, es: seq<Event>)
    requires mtu > 0 && Smooth(es) && Guarded(Fresh(mtu), es) && Sound(Run(Fresh(mtu), es))
    ensures var w, w' := Run(Fresh(mtu), es), Apply(Run(Fresh(mtu), es), Resend);
      if w.continuous && Acks(es) >= 2 then
        w'.cwnd == mtu as real && w'.ssThresh == ((Acks(es) + 1) * mtu) as real / 2.0 && w'.block == w.nextSeq
      else w' == w
  {
    OneMtuPerAck(Fresh(mtu), es);
    OpensFromOne(mtu, es);
    Doubling(Acks(es), mtu);
  }

  lemma Doubling(k: nat, mtu: int)
    requires mtu > 0
    ensures (k + 1) * mtu > 2 * mtu <==> k >= 2
    ensures k >= 2 ==> (k + 1) * mtu >= 3 * mtu
  {
  }

  /** Then the window grows again, from one MTU to half of what it was. */
  lemma SlowStartAgain(mtu: int, es: seq<Event>, later: seq<Event>)
    requires mtu > 0 && Smooth(es) && Guarded(Fresh(mtu), es) && Sound(Run(Fresh(mtu), es))
    requires Run(Fresh(mtu), es).continuous && Acks(es) >= 2 && Smooth(later) && 2 * (Acks(later) + 1) <= Acks(es) + 1
    ensures var w := Apply(Run(Fresh(mtu), es), Resend);
      Sound(w) && Guarded(w, later) && Run(w, later).cwnd == ((Acks(later) + 1) * mtu) as real
  {
    CutToHalf(mtu, es);
    var w := Apply(Run(Fresh(mtu), es), Resend);
    ApplySound(Run(Fresh(mtu), es), Resend);
    OneMtuPerAck(Fresh(mtu), es);
    HalfCovers(Acks(later), Acks(es), mtu);
    OneMtuPerAck(w, later);
  }

  lemma HalfCovers(j: nat, k: nat, mtu: int)
    requires mtu > 0 && 2 * (j + 1) <= k + 1
    ensures (j + 1) * mtu == j * mtu + mtu && mtu as real + (j * mtu) as real <= ((k + 1) * mtu) as real / 2.0
  {
    assert 2 * ((j + 1) * mtu) == 2 * (j + 1) * mtu <= (k + 1) * mtu by {
      Scaled(2 * (j + 1), k + 1, mtu);
    }
  }

  lemma Scaled(a: int, b: int, c: int)
    requires a <= b && c > 0
    ensures a * c <= b * c
  {
  }

  /** Until an ACK for a datagram sent after the cut, further resends cut nothing. */
  lemma NoSecondCut(w: Window, es: seq<Event>)
    requires Sound(w) && w.continuous && !w.backedOff && w.cwnd > 2.0 * w.mtu as real
    requires forall e <- es :: !Beyond(e, w.nextSeq)
    ensures var w1 := Apply(w, Resend);
      Sound(w1) && w1.cwnd == w.mtu as real
      && (Guarded(w1, es) ==> Sound(Run(w1, es)) && Apply(Run(w1, es), Resend) == Run(w1, es))
  {
    var w1 := Apply(w, Resend);
    ApplySound(w, Resend);
    if Guarded(w1, es) {
      RunSound(w1, es);
      StaysBackedOff(w1, es);
    }
  }

  lemma {:induction false} StaysArmed(w: Window, es: seq<Event>)
    requires Sound(w) && Smooth(es) && !w.backedOff
    ensures Guarded(w, es) && !Run(w, es).backedOff && Run(w, es).mtu == w.mtu
    decreases |es|
  {
    SmoothGuarded(w, es);
    if es != [] {
      assert es[0] in es && forall e <- es[1..] :: e in es;
      ApplySound(w, es[0]);
      StaysArmed(Apply(w, es[0]), es[1..]);
    }
  }

  /** Once such an ACK has come, the next resend in continuous mode with a window
      above two MTU cuts again. */
  lemma CutsAgain(w: Window, sq: int, later: seq<Event>)
    requires Sound(w) && SeqGreaterThan(sq, w.block) && Smooth(later)
    ensures var w1 := Apply(w, AckOf(sq, true));
      Sound(w1) && Guarded(w1, later) && Sound(Run(w1, later))
      && var w2 := Run(w1, later);
      (w2.continuous && w2.cwnd > 2.0 * w.mtu as real ==> Apply(w2, Resend).cwnd == w.mtu as real)
  {
    var w1 := Apply(w, AckOf(sq, true));
    ApplySound(w, AckOf(sq, true));
    StaysArmed(w1, later);
    RunSound(w1, later);
  }

  /** A NAK in continuous mode ends slow start where the window stands: until
      an ACK from beyond the block it stays at k + 1 MTU. */
  lemma NakEndsSlowStart(mtu: int, es: seq<Event>, later: seq<Event>)
    requires mtu > 0 && Smooth(es) && Guarded(Fresh(mtu), es) && Sound(Run(Fresh(mtu), es))
    requires Run(Fresh(mtu), es).continuous && Smooth(later) && forall e <- later :: !Beyond(e, Run(Fresh(mtu), es).block)
    ensures var w := Apply(Run(Fresh(mtu), es), NakOf);
      Sound(w) && w.ssThresh == ((Acks(es) + 1) * mtu) as real / 2.0
      && Guarded(w, later) && Run(w, later).cwnd == ((Acks(es) + 1) * mtu) as real
  {
    OneMtuPerAck(Fresh(mtu), es);
    OpensFromOne(mtu, es);
    ApplySound(Run(Fresh(mtu), es), NakOf);
    StillWithinBlock(Apply(Run(Fresh(mtu), es), NakOf), later);
  }

  // ---------- round trips ----------

  function Repeat(x: real, n: nat): (r: seq<real>)
    ensures |r| == n && forall i :: 0 <= i < n ==> r[i] == x
  {
    seq(n, _ => x)
  }

  /** 0.95 to the n. */
  function Fade(n: nat): real {
    if n == 0 then 1.0 else 0.95 * Fade(n - 1)
  }

  lemma RepeatNext(x: real, n: nat)
    requires n > 0
    ensures Repeat(x, n) == Repeat(x, n - 1) + [x]
  {
  }

  lemma Faded(d: real, n: nat)
    requires n > 0
    ensures d * Fade(n) == d * Fade(n - 1) - 0.05 * (d * Fade(n - 1))
  {
  }

  /** After one round trip of x and n of y the smoothed value has come down
      from x to y but for the part 0.95 ^ n of the way. */
  lemma {:induction false} Smoothing(x: real, y: real, n: nat)
    requires x >= 0.0 && y >= 0.0
    ensures Samples(Rtt(UNSET, UNSET, UNSET), [x] + Repeat(y, n)).estimated == y + (x - y) * Fade(n)
    decreases n
  {
    var none := Rtt(UNSET, UNSET, UNSET);
    if n == 0 {
      assert [x] + Repeat(y, 0) == [x] && [x][1..] == [];
      assert Samples(none, [x]) == Samples(Sample(none, x), []);
    } else {
      Smoothing(x, y, n - 1);
      RepeatNext(y, n);
      assert [x] + Repeat(y, n) == ([x] + Repeat(y, n - 1)) + [y];
      SamplesSnoc(none, [x] + Repeat(y, n - 1), y);
      StaysSet(x, y, n - 1);
      Faded(x - y, n);
    }
  }

  lemma StaysSet(x: real, y: real, n: nat)
    requires x >= 0.0 && y >= 0.0
    ensures Samples(Rtt(UNSET, UNSET, UNSET), [x] + Repeat(y, n)).estimated != UNSET
  {
    var rtts := [x] + Repeat(y, n);
    var hi := if x >= y then x else y;
    SmoothedWithinSamples(Rtt(UNSET, UNSET, UNSET), rtts, 0.0, hi);
  }

  /** n + 1 equal round trips x: the deviation has faded to x * 0.95 ^ n, and the
      timeout is 2 x + 4 x 0.95 ^ n + 0.03, but at most 2. */
  lemma {:induction false} SteadyTimeout(x: real, n: nat)
    requires x >= 0.0
    ensures var r := Samples(Rtt(UNSET, UNSET, UNSET), [x] + Repeat(x, n));
      r.estimated == x && r.deviation == x * Fade(n)
      && Rto(r) == (if 2.0 * x + 4.0 * (x * Fade(n)) + 0.03 <= 2.0 then 2.0 * x + 4.0 * (x * Fade(n)) + 0.03 else 2.0)
    decreases n
  {
    var none := Rtt(UNSET, UNSET, UNSET);
    if n == 0 {
      assert [x] + Repeat(x, 0) == [x] && [x][1..] == [];
      assert Samples(none, [x]) == Samples(Sample(none, x), []);
    } else {
      SteadyTimeout(x, n - 1);
      RepeatNext(x, n);
      assert [x] + Repeat(x, n) == ([x] + Repeat(x, n - 1)) + [x];
      SamplesSnoc(none, [x] + Repeat(x, n - 1), x);
      Faded(x, n);
    }
  }

  // ---------- delayed ACKs ----------

  /** The time the controller keeps after data datagrams at these times. */
  function OldestUnsent(before: real, times: seq<real>): real
    decreases |times|
  {
    if times == [] then before else OldestUnsent(if before == 0.0 then times[0] else before, times[1..])
  }

  /** Once ACKs have left, the next leave with the first tick 10 ms after the first
      datagram that came since, however many came later; before any round trip is
      known with the next tick at all. */
  lemma AcksLeaveInTime(times: seq<real>, lastRtt: real, now: real)
    requires times != [] && times[0] > 0.0
    ensures AckDue(lastRtt, OldestUnsent(0.0, times), now) <==> lastRtt == -1.0 || now - times[0] >= 0.010
  {
    KeepsFirst(times[0], times[1..]);
  }

  lemma {:induction false} KeepsFirst(first: real, times: seq<real>)
    requires first > 0.0
    ensures OldestUnsent(first, times) == first
    decreases |times|
  {
    if times != [] {
      KeepsFirst(first, times[1..]);
    }
  }
}

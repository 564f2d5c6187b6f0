/** The sliding-window congestion controller (_congestion.py). */
module Congestion {
  import opened SeqNum
  import opened Types

  const UNSET: real := -1.0
  const SYN_INTERVAL: real := 0.010

  // ---------- round-trip times ----------

  datatype Rtt = Rtt(estimated: real, deviation: real, last: real)

  function Abs(x: real): real {
    if x >= 0.0 then x else -x
  }

  function Sample(r: Rtt, rtt: real): Rtt {
    if r.estimated == UNSET then Rtt(rtt, rtt, rtt)
    else
      var diff := rtt - r.estimated;
      Rtt(r.estimated + 0.05 * diff, r.deviation + 0.05 * (Abs(diff) - r.deviation), rtt)
  }

  function Rto(r: Rtt): real {
    if r.estimated == UNSET then 2.0
    else
      var rto := 2.0 * r.estimated + 4.0 * r.deviation + 0.03;
      if rto <= 2.0 then rto else 2.0
  }

  function Samples(r: Rtt, rtts: seq<real>): Rtt
    decreases |rtts|
  {
    if rtts == [] then r else Samples(Sample(r, rtts[0]), rtts[1..])
  }

  lemma {:induction false} SamplesSnoc(r: Rtt, rtts: seq<real>, rtt: real)
    ensures Samples(r, rtts + [rtt]) == Sample(Samples(r, rtts), rtt)
    decreases |rtts|
  {
    if rtts == [] {
      assert [] + [rtt] == [rtt] && [rtt][1..] == [];
    } else {
      assert (rtts + [rtt])[1..] == rtts[1..] + [rtt];
      SamplesSnoc(Sample(r, rtts[0]), rtts[1..], rtt);
    }
  }

  /** Either no sample yet, or a smoothed value between lo and hi with a deviation of at most hi. */
  predicate Between(r: Rtt, lo: real, hi: real) {
    r.estimated == UNSET || (lo <= r.estimated <= hi && 0.0 <= r.deviation <= hi)
  }

  /** Over any run the smoothed RTT stays within the range of the samples, and
      the retransmission timeout within [0.03, 2]. */
  lemma {:induction false} SmoothedWithinSamples(r: Rtt, rtts: seq<real>, lo: real, hi: real)
    requires Between(r, lo, hi) && 0.0 <= lo && forall x <- rtts :: lo <= x <= hi
    ensures Between(Samples(r, rtts), lo, hi) && 0.03 <= Rto(Samples(r, rtts)) <= 2.0
    ensures rtts != [] ==> Samples(r, rtts).estimated != UNSET && Samples(r, rtts).last == rtts[|rtts| - 1]
    decreases |rtts|
  {
    if rtts != [] {
      assert rtts[0] in rtts && forall x <- rtts[1..] :: x in rtts;
      SmoothedWithinSamples(Sample(r, rtts[0]), rtts[1..], lo, hi);
    }
  }

  // ---------- the window ----------

  datatype Window = Window(
    mtu: int,
    cwnd: real,
    ssThresh: real,
    nextSeq: int,
    block: int,
    backedOff: bool,
    continuous: bool)

  predicate InSlowStart(w: Window) {
    w.cwnd <= w.ssThresh || w.ssThresh == 0.0
  }

  /** mtu * mtu / cwnd, the growth of one congestion-avoidance period. */
  function Growth(mtu: int, cwnd: real): real
    requires cwnd > 0.0
  {
    mtu as real * mtu as real / cwnd
  }

  function Grown(w: Window, newPeriod: bool): real
    requires w.cwnd > 0.0 && w.mtu > 0
  {
    if InSlowStart(w) then
      var c := w.cwnd + w.mtu as real;
      if w.ssThresh > 0.0 && c > w.ssThresh then w.ssThresh + Growth(w.mtu, c) else c
    else if newPeriod then w.cwnd + Growth(w.mtu, w.cwnd)
    else w.cwnd
  }

  function Acked(w: Window, sq: int, isContinuous: bool): Window
    requires w.cwnd > 0.0 && w.mtu > 0
  {
    if !isContinuous then w.(continuous := false)
    else
      var newPeriod := SeqGreaterThan(sq, w.block);
      w.(continuous := true,
         backedOff := w.backedOff && !newPeriod,
         block := if newPeriod then w.nextSeq else w.block,
         cwnd := Grown(w, newPeriod))
  }

  /** The condition under which a resend cuts the window. */
  predicate Cuts(w: Window) {
    w.continuous && !w.backedOff && w.cwnd > 2.0 * w.mtu as real
  }

  function MaxReal(a: real, b: real): real {
    if a >= b then a else b
  }

  function Resent(w: Window): Window {
    if Cuts(w) then
      w.(ssThresh := MaxReal(w.cwnd / 2.0, w.mtu as real), cwnd := w.mtu as real, block := w.nextSeq, backedOff := true)
    else w
  }

  function Nakked(w: Window): Window {
    if w.continuous && !w.backedOff then w.(ssThresh := w.cwnd / 2.0) else w
  }

  datatype Event =
    | AckOf(sq: int, isContinuous: bool)
    | Resend
    | NakOf
    | Emit
    | Budget(isContinuous: bool)
    | MtuSet(mtu: int)

  ghost predicate Sound(w: Window) {
    w.mtu > 0 && w.cwnd >= w.mtu as real && w.ssThresh >= 0.0
  }

  lemma ScaleLess(x: real, y: real, c: real)
    requires x < y && c > 0.0
    ensures x * c < y * c
  {
  }

  /** Dividing by more yields less. */
  lemma QuotientBounds(x: real, c: real, top: real, low: real)
    requires 0.0 < top && 0.0 < low <= c && x * c == top * low
    ensures 0.0 < x <= top
  {
    ScaleLess(0.0, top, low);
    if x < 0.0 {
      ScaleLess(x, 0.0, c);
    }
    if top < x {
      ScaleLess(top, x, c);
      if low < c {
        ScaleLess(low, c, top);
      }
    }
  }

  lemma GrowthBounds(w: Window, cwnd: real)
    requires w.mtu > 0 && cwnd >= w.mtu as real
    ensures 0.0 < Growth(w.mtu, cwnd) <= w.mtu as real
  {
    var m := w.mtu as real;
    Undivided(m * m, cwnd);
    QuotientBounds(Growth(w.mtu, cwnd), cwnd, m, m);
  }

  lemma Undivided(x: real, c: real)
    requires c > 0.0
    ensures x / c * c == x
  {
  }

  lemma HalfGrowth(w: Window, cwnd: real)
    requires w.mtu > 0 && cwnd >= 2.0 * w.mtu as real
    ensures 0.0 < Growth(w.mtu, cwnd) <= w.mtu as real / 2.0
  {
    var m := w.mtu as real;
    Undivided(m * m, cwnd);
    Halves(m);
    QuotientBounds(Growth(w.mtu, cwnd), cwnd, m / 2.0, 2.0 * m);
  }

  lemma Halves(m: real)
    ensures m / 2.0 * (2.0 * m) == m * m
  {
  }

  /** One ACK raises the window by between nothing and one and a half MTU. */
  lemma AckRaises(w: Window, sq: int, isContinuous: bool)
    requires Sound(w)
    ensures Sound(Acked(w, sq, isContinuous))
    ensures w.cwnd <= Acked(w, sq, isContinuous).cwnd <= w.cwnd + 1.5 * w.mtu as real
  {
    GrowthBounds(w, w.cwnd);
    HalfGrowth(w, w.cwnd + w.mtu as real);
  }

  /** The flag an ACK overwrites does not matter to it. */
  lemma AckedForgets(w: Window, sq: int, isContinuous: bool)
    requires Sound(w)
    ensures Acked(w.(continuous := isContinuous), sq, isContinuous) == Acked(w, sq, isContinuous)
  {
  }

  function Apply(w: Window, e: Event): Window
    requires w.cwnd > 0.0 && w.mtu > 0
  {
    match e
    case AckOf(sq, c) => Acked(w, sq, c)
    case Resend => Resent(w)
    case NakOf => Nakked(w)
    case Emit => w.(nextSeq := Wire(w.nextSeq + 1))
    case Budget(c) => w.(continuous := c)
    case MtuSet(m) => w.(mtu := m)
  }

  /** The handshake may replace the MTU by one that is not above the window. */
  predicate Allowed(w: Window, e: Event) {
    e.MtuSet? ==> 0 < e.mtu && e.mtu as real <= w.cwnd
  }

  lemma ApplySound(w: Window, e: Event)
    requires Sound(w) && Allowed(w, e)
    ensures Sound(Apply(w, e)) && (e.MtuSet? || Apply(w, e).mtu == w.mtu)
  {
    if e.AckOf? {
      AckRaises(w, e.sq, e.isContinuous);
    }
  }

  /** Every replacement of the MTU is allowed when it happens. */
  ghost predicate Guarded(w: Window, es: seq<Event>)
    requires Sound(w)
    decreases |es|
  {
    es == []
    || (Allowed(w, es[0]) && (ApplySound(w, es[0]); Guarded(Apply(w, es[0]), es[1..])))
  }

  ghost function Run(w: Window, es: seq<Event>): Window
    requires Sound(w) && Guarded(w, es)
    decreases |es|
  {
    if es == [] then w
    else
      ApplySound(w, es[0]);
      Run(Apply(w, es[0]), es[1..])
  }

  lemma {:induction false} RunSnoc(w: Window, es: seq<Event>, e: Event)
    requires Sound(w) && Guarded(w, es)
    ensures Sound(Run(w, es))
    ensures Guarded(w, es + [e]) <==> Allowed(Run(w, es), e)
    ensures Allowed(Run(w, es), e) ==> Run(w, es + [e]) == Apply(Run(w, es), e)
    decreases |es|
  {
    if es == [] {
      assert [] + [e] == [e] && [e][1..] == [];
    } else {
      assert (es + [e])[1..] == es[1..] + [e];
      ApplySound(w, es[0]);
      RunSnoc(Apply(w, es[0]), es[1..], e);
    }
  }

  /** At every point of the run the window is at least one MTU. */
  ghost predicate StaysSound(w: Window, es: seq<Event>)
    decreases |es|
  {
    Sound(w) && (es == [] || StaysSound(Apply(w, es[0]), es[1..]))
  }

  /** Whatever the ACKs, resends, NAKs and sends, the window never falls below
      one MTU, if and only if no replacement raises the MTU above the window. */
  lemma {:induction false} NeverBelowMtu(w: Window, es: seq<Event>)
    requires Sound(w)
    ensures StaysSound(w, es) <==> Guarded(w, es)
    decreases |es|
  {
    if es != [] && Allowed(w, es[0]) {
      ApplySound(w, es[0]);
      NeverBelowMtu(Apply(w, es[0]), es[1..]);
    }
  }

  lemma {:induction false} RunSound(w: Window, es: seq<Event>)
    requires Sound(w) && Guarded(w, es)
    ensures Sound(Run(w, es))
    decreases |es|
  {
    if es != [] {
      ApplySound(w, es[0]);
      RunSound(Apply(w, es[0]), es[1..]);
    }
  }

  /** An ACK in continuous mode for a datagram beyond the block. */
  predicate Beyond(e: Event, block: int) {
    e.AckOf? && e.isContinuous && SeqGreaterThan(e.sq, block)
  }

  lemma {:induction false} StaysBackedOff(w: Window, es: seq<Event>)
    requires Sound(w) && Guarded(w, es) && w.backedOff && forall e <- es :: !Beyond(e, w.block)
    ensures Run(w, es).backedOff && Run(w, es).block == w.block
    decreases |es|
  {
    if es != [] {
      ApplySound(w, es[0]);
      assert !Beyond(es[0], w.block);
      StaysBackedOff(Apply(w, es[0]), es[1..]);
    }
  }

  /** Two cuts of the window are separated by a continuous-mode ACK for a
      datagram sent after the first one. */
  lemma CutsSeparated(w: Window, es: seq<Event>)
    requires Sound(w) && Cuts(w)
    ensures Sound(Resent(w)) && Resent(w).cwnd == w.mtu as real
    ensures Guarded(Resent(w), es) && Cuts(Run(Resent(w), es)) ==> exists e <- es :: Beyond(e, w.nextSeq)
  {
    if Guarded(Resent(w), es) && forall e <- es :: !Beyond(e, w.nextSeq) {
      StaysBackedOff(Resent(w), es);
    }
  }

  // ---------- gaps ----------

  const MAX_SKIP := 50000
  const MAX_NAK := 1000

  /** The next expected number after n arrives, and how many numbers to NAK;
      None when the packet is refused. */
  function Got(expected: int, n: int): (int, Option<nat>) {
    if n < expected then (expected, Some(0))
    else if n - expected > MAX_SKIP then (expected, None)
    else (n + 1, Some(Min(n - expected, MAX_NAK)))
  }

  datatype GapState = GapState(expected: int, accepted: set<int>, nakked: seq<int>)

  function Upto(lo: int, n: nat): (s: seq<int>)
    ensures |s| == n && forall i :: 0 <= i < n ==> s[i] == lo + i
  {
    seq(n, i => lo + i)
  }

  function Arrive(g: GapState, n: int): GapState {
    match Got(g.expected, n)
    case (_, None) => g
    case (e, Some(skip)) => GapState(e, g.accepted + {n}, g.nakked + Upto(n - skip, skip))
  }

  function Arrivals(g: GapState, ns: seq<int>): GapState
    decreases |ns|
  {
    if ns == [] then g else Arrivals(Arrive(g, ns[0]), ns[1..])
  }

  /** Everything accepted or NAKed lies below the expected number, the largest
      accepted one right below it; NAKs strictly increase, so none repeats, and
      each was missing when it was NAKed. */
  ghost predicate GapInv(g: GapState, start: int) {
    start <= g.expected
    && (forall n <- g.accepted :: n < g.expected)
    && (g.expected > start ==> g.expected - 1 in g.accepted)
    && (forall n <- g.nakked :: n < g.expected)
    && (forall i, j :: 0 <= i < j < |g.nakked| ==> g.nakked[i] < g.nakked[j])
  }

  /** A gap of d numbers adds exactly the last min(d, 1000) of them, none of which had arrived. */
  lemma GapAdds(g: GapState, start: int, n: int)
    requires GapInv(g, start)
    ensures GapInv(Arrive(g, n), start)
    ensures n > g.expected && n - g.expected <= MAX_SKIP ==>
      var d := Min(n - g.expected, MAX_NAK);
      Arrive(g, n).nakked == g.nakked + Upto(n - d, d)
      && forall k :: n - d <= k < n ==> k !in g.accepted && k !in g.nakked
    ensures n <= g.expected || n - g.expected > MAX_SKIP ==> Arrive(g, n).nakked == g.nakked
  {
    assert g.nakked + Upto(n, 0) == g.nakked;
    var after := Arrive(g, n).nakked;
    forall i, j | 0 <= i < j < |after|
      ensures after[i] < after[j]
    {
      if i < |g.nakked| {
        assert after[i] == g.nakked[i] && g.nakked[i] in g.nakked;
      }
    }
  }

  /** Over any run the expected number is one past the highest accepted, and no
      number is NAKed twice. */
  lemma {:induction false} GapRun(g: GapState, start: int, ns: seq<int>)
    requires GapInv(g, start)
    ensures GapInv(Arrivals(g, ns), start)
    decreases |ns|
  {
    if ns != [] {
      GapAdds(g, start, ns[0]);
      GapRun(Arrive(g, ns[0]), start, ns[1..]);
    }
  }

  // ---------- the controller ----------

  /** Whether pending ACKs may leave: always before the first round trip, then SYN_INTERVAL after the oldest. */
  predicate AckDue(lastRtt: real, oldestUnsentAck: real, now: real) {
    lastRtt == UNSET || (oldestUnsentAck > 0.0 && now >= oldestUnsentAck + SYN_INTERVAL)
  }

  class CongestionController {
    var mtu: int
    var cwnd: real
    var ssThresh: real
    var estimatedRtt: real
    var deviationRtt: real
    var lastRtt: real
    var nextDatagramSeq: int
    var expectedNextSeq: int
    var oldestUnsentAck: real
    var nextCcBlock: int
    var backedOffThisBlock: bool
    var isContinuousSend: bool
    /** The unbounded counters behind nextDatagramSeq and expectedNextSeq. */
    ghost var sent: int
    ghost var expected: int

    ghost predicate Valid()
      reads this
    {
      Sound(CurrentWindow()) && nextDatagramSeq == Wire(sent) && expectedNextSeq == Wire(expected)
    }

    function CurrentWindow(): Window
      reads this
    {
      Window(mtu, cwnd, ssThresh, nextDatagramSeq, nextCcBlock, backedOffThisBlock, isContinuousSend)
    }

    function CurrentRtt(): Rtt
      reads this
    {
      Rtt(estimatedRtt, deviationRtt, lastRtt)
    }

    constructor (mtu: int)
      requires mtu > 0
      ensures Valid() && sent == 0 && expected == 0
      ensures CurrentWindow() == Window(mtu, mtu as real, 0.0, 0, 0, false, false)
      ensures CurrentRtt() == Rtt(UNSET, UNSET, UNSET) && oldestUnsentAck == 0.0
    {
      this.mtu := mtu;
      cwnd, ssThresh := mtu as real, 0.0;
      estimatedRtt, deviationRtt, lastRtt := UNSET, UNSET, UNSET;
      nextDatagramSeq, expectedNextSeq := 0, 0;
      oldestUnsentAck := 0.0;
      nextCcBlock, backedOffThisBlock, isContinuousSend := 0, false, false;
      sent, expected := 0, 0;
    }

    method GetAndIncrementSeq() returns (sq: int)
      requires Valid()
      modifies this`nextDatagramSeq, this`sent
      ensures Valid() && sq == Wire(old(sent)) && sent == old(sent) + 1
      ensures CurrentWindow() == Apply(old(CurrentWindow()), Emit)
    {
      sq := nextDatagramSeq;
      nextDatagramSeq := Wire(nextDatagramSeq + 1);
      WireNext(sent);
      sent := sent + 1;
    }

    method TransmissionBandwidth(unackedBytes: int, isContinuous: bool) returns (budget: int)
      requires Valid()
      modifies this`isContinuousSend
      ensures Valid() && CurrentWindow() == Apply(old(CurrentWindow()), Event.Budget(isContinuous))
      ensures budget > 0 <==> unackedBytes as real + 1.0 <= cwnd
      ensures 0 <= budget && (budget > 0 ==> (unackedBytes + budget) as real <= cwnd < (unackedBytes + budget + 1) as real)
    {
      isContinuousSend := isContinuous;
      if unackedBytes as real <= cwnd {
        budget := (cwnd - unackedBytes as real).Floor;
      } else {
        budget := 0;
      }
    }

    method ShouldSendAcks(now: real) returns (r: bool)
      ensures r <==> AckDue(lastRtt, oldestUnsentAck, now)
    {
      if lastRtt == UNSET {
        return true;
      }
      r := oldestUnsentAck > 0.0 && now >= oldestUnsentAck + SYN_INTERVAL;
    }

    method OnGotPacket(sq: int, now: real, ghost n: int) returns (skipped: Option<nat>)
      requires Valid() && sq == Wire(n) && -HALF_SEQ <= n - expected < HALF_SEQ
      modifies this`oldestUnsentAck, this`expectedNextSeq, this`expected
      ensures Valid() && (expected, skipped) == Got(old(expected), n)
      ensures oldestUnsentAck == if old(oldestUnsentAck) == 0.0 then now else old(oldestUnsentAck)
    {
      if oldestUnsentAck == 0.0 {
        oldestUnsentAck := now;
      }
      AheadOfWire(n, expected);
      WireNext(n);
      if sq == expectedNextSeq {
        WireInjective(n, expected);
        expectedNextSeq := Wire(sq + 1);
        expected := n + 1;
        return Some(0);
      }
      if SeqGreaterThan(sq, expectedNextSeq) {
        var gap := Ahead(sq, expectedNextSeq);
        if gap > MAX_SKIP {
          return None;
        }
        expectedNextSeq := Wire(sq + 1);
        expected := n + 1;
        return Some(Min(gap, MAX_NAK));
      }
      skipped := Some(0);
    }

    method OnAck(rtt: real, sq: int, isContinuous: bool)
      requires Valid()
      modifies this
      ensures Valid() && CurrentWindow() == Apply(old(CurrentWindow()), AckOf(sq, isContinuous))
      ensures CurrentRtt() == Sample(old(CurrentRtt()), rtt)
      ensures sent == old(sent) && expected == old(expected) && oldestUnsentAck == old(oldestUnsentAck)
    {
      AckRaises(CurrentWindow(), sq, isContinuous);
      AckedForgets(CurrentWindow(), sq, isContinuous);
      TakeSample(rtt);
      isContinuousSend := isContinuous;
      if isContinuous {
        GrowOnAck(sq);
      }
    }

    method TakeSample(rtt: real)
      modifies this`lastRtt, this`estimatedRtt, this`deviationRtt
      ensures CurrentRtt() == Sample(old(CurrentRtt()), rtt)
    {
      lastRtt := rtt;
      if estimatedRtt == UNSET {
        estimatedRtt, deviationRtt := rtt, rtt;
      } else {
        var diff := rtt - estimatedRtt;
        estimatedRtt := estimatedRtt + 0.05 * diff;
        deviationRtt := deviationRtt + 0.05 * (Abs(diff) - deviationRtt);
      }
    }

    method GrowOnAck(sq: int)
      requires Sound(CurrentWindow()) && isContinuousSend
      modifies this`backedOffThisBlock, this`nextCcBlock, this`cwnd
      ensures CurrentWindow() == Acked(old(CurrentWindow()), sq, true)
    {
      var isNewPeriod := SeqGreaterThan(sq, nextCcBlock);
      if isNewPeriod {
        backedOffThisBlock := false;
        nextCcBlock := nextDatagramSeq;
      }
      if cwnd <= ssThresh || ssThresh == 0.0 {
        cwnd := cwnd + mtu as real;
        if ssThresh > 0.0 && cwnd > ssThresh {
          cwnd := ssThresh + Growth(mtu, cwnd);
        }
      } else if isNewPeriod {
        cwnd := cwnd + Growth(mtu, cwnd);
      }
    }

    method OnResend()
      requires Valid()
      modifies this`ssThresh, this`cwnd, this`nextCcBlock, this`backedOffThisBlock
      ensures Valid() && CurrentWindow() == Apply(old(CurrentWindow()), Resend)
    {
      if isContinuousSend && !backedOffThisBlock && cwnd > (mtu * 2) as real {
        ssThresh := MaxReal(cwnd / 2.0, mtu as real);
        cwnd := mtu as real;
        nextCcBlock := nextDatagramSeq;
        backedOffThisBlock := true;
      }
    }

    method OnNak()
      requires Valid()
      modifies this`ssThresh
      ensures Valid() && CurrentWindow() == Apply(old(CurrentWindow()), NakOf)
    {
      if isContinuousSend && !backedOffThisBlock {
        ssThresh := cwnd / 2.0;
      }
    }

    method OnSendAck()
      requires Valid()
      modifies this`oldestUnsentAck
      ensures Valid() && oldestUnsentAck == 0.0
    {
      oldestUnsentAck := 0.0;
    }

    method GetRto() returns (rto: real)
      ensures rto == Rto(CurrentRtt())
    {
      if estimatedRtt == UNSET {
        return 2.0;
      }
      rto := 2.0 * estimatedRtt + 4.0 * deviationRtt + 0.03;
      if rto > 2.0 {
        rto := 2.0;
      }
    }

    /** The handshake replaces the MTU; the window stays sound exactly when it
        is not raised above the window. */
    method SetMtu(newMtu: int)
      requires Valid()
      modifies this`mtu
      ensures CurrentWindow() == Apply(old(CurrentWindow()), MtuSet(newMtu))
      ensures Valid() <==> Allowed(old(CurrentWindow()), MtuSet(newMtu))
    {
      mtu := newMtu;
    }
  }
}

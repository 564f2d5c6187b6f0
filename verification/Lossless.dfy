/** Under caps a caller can watch, no reliable frame is lost: what the general
    theorem lists as exceptions does not happen. */
module Lossless {
  import opened Types
  import opened Tags
  import opened SenderSpec
  import opened SenderInv
  import opened SenderNet
  import opened Transport
  import opened FirstLap
  import T = Transport
  import Windows
  import Congestion
  import SenderQueue
  import SenderReach
  import ReceiverGaps
  import Sending
  import R = ReceiverSpec
  import RI = ReceiverInv

  // ---------- tracking ----------

  lemma {:induction false} TrackSize(resend: map<int, InFlight>, ts: seq<TFrame>, now: real, rto: real)
    ensures |Track(resend, ts, now, rto)| <= |resend| + |ts|
    decreases |ts|
  {
    if ts != [] {
      var one := TrackOne(resend, ts[0], now, rto);
      assert |one| <= |resend| + 1;
      TrackSize(one, ts[1..], now, rto);
    }
  }

  /** The frames are being tracked already, under their numbers. */
  ghost predicate Held(resend: map<int, InFlight>, ts: seq<TFrame>) {
    forall i :: 0 <= i < |ts| ==> !NeedsNumber(ts[i]) && (IsReliable(ts[i]) ==> ts[i].f.reliableNumber in resend)
  }

  lemma {:induction false} TrackHeld(resend: map<int, InFlight>, ts: seq<TFrame>, now: real, rto: real)
    requires Held(resend, ts)
    ensures Track(resend, ts, now, rto).Keys == resend.Keys
    decreases |ts|
  {
    if ts != [] {
      var one := TrackOne(resend, ts[0], now, rto);
      assert one.Keys == resend.Keys;
      forall i | 0 <= i < |ts[1..]|
        ensures !NeedsNumber(ts[1..][i]) && (IsReliable(ts[1..][i]) ==> ts[1..][i].f.reliableNumber in one)
      {
        assert ts[1..][i] == ts[i + 1];
      }
      TrackHeld(one, ts[1..], now, rto);
    }
  }

  lemma {:induction false} HeldNumbers(resend: map<int, InFlight>, ts: seq<TFrame>)
    requires Held(resend, ts)
    ensures forall n <- ReliableNumbers(ts) :: n in resend
  {
    if ts != [] {
      assert forall i :: 0 <= i < |ts[1..]| ==> ts[1..][i] == ts[i + 1];
      HeldNumbers(resend, ts[1..]);
    }
  }

  /** A resent datagram tracks nothing new and loses nothing. */
  lemma EmitHeld(s: Sender, ts: seq<TFrame>, more: bool, now: real, rto: real, oldest: int)
    requires Held(s.resend, ts)
    ensures var s' := Emit(s, ts, more, now, rto, oldest).0;
      s'.resend.Keys == s.resend.Keys && s'.untracked == s.untracked
  {
    NumberKeeps(ts, s.nextReliable);
    assert Number(ts, s.nextReliable) == ts;
    TrackHeld(s.resend, ts, now, rto);
    HeldNumbers(s.resend, ts);
    NoneUntracked(s.untracked, ReliableNumbers(ts), Track(s.resend, ts, now, rto));
  }

  lemma NoneUntracked(untracked: set<int>, numbers: seq<int>, resend: map<int, InFlight>)
    requires forall n <- numbers :: n in resend
    ensures untracked + (set n | n in numbers && n !in resend) == untracked
  {
    var missing := set n | n in numbers && n !in resend;
    forall n: int
      ensures n !in missing
    {
      assert n in numbers ==> n in resend;
    }
    assert missing == {};
  }

  /** With room every number of a datagram of new frames is tracked. */
  lemma EmitRoom(s: Sender, ts: seq<TFrame>, more: bool, now: real, rto: real, oldest: int)
    requires |s.resend| + |ts| <= MAX_RESEND_BUFFER_SIZE
    ensures var s' := Emit(s, ts, more, now, rto, oldest).0;
      |s'.resend| <= |s.resend| + |ts| && s'.untracked == s.untracked
  {
    var frames := Number(ts, s.nextReliable);
    TrackRoom(s.resend, frames, now, rto);
    TrackSize(s.resend, frames, now, rto);
    NoneUntracked(s.untracked, ReliableNumbers(frames), Track(s.resend, frames, now, rto));
  }

  lemma {:induction false} PassHeld(p: Packing, c: Pass, olds: seq<int>)
    requires Turns(p, c, olds) && Held(p.s.resend, p.rest)
    ensures var q := Packed(p, c, olds);
      q.s.resend.Keys == p.s.resend.Keys && q.s.untracked == p.s.untracked && Held(q.s.resend, q.rest)
    decreases |olds|
  {
    if olds != [] {
      PassHeld(p, c, olds[..|olds| - 1]);
      var q := Packed(p, c, olds[..|olds| - 1]);
      var k := Fill(q.rest, c.max, 0);
      EmitHeld(q.s, q.rest[..k], k < |q.rest|, c.now, c.rto, olds[|olds| - 1]);
    }
  }

  lemma {:induction false} PassRoom(p: Packing, c: Pass, olds: seq<int>)
    requires Turns(p, c, olds) && |p.s.resend| + |p.rest| <= MAX_RESEND_BUFFER_SIZE
    ensures var q := Packed(p, c, olds);
      |q.s.resend| + |q.rest| <= MAX_RESEND_BUFFER_SIZE && q.s.untracked == p.s.untracked
    decreases |olds|
  {
    if olds != [] {
      PassRoom(p, c, olds[..|olds| - 1]);
      var q := Packed(p, c, olds[..|olds| - 1]);
      var k := Fill(q.rest, c.max, 0);
      EmitRoom(q.s, q.rest[..k], k < |q.rest|, c.now, c.rto, olds[|olds| - 1]);
    }
  }

  lemma DueHeld(s: Sender, order: seq<int>, net: Net)
    requires SenderOk(s, net) && forall i :: 0 <= i < |order| ==> order[i] in s.resend
    ensures Held(s.resend, DueFrames(s.resend, order))
  {
    SenderReach.OkIsProper(s, net);
    forall i | 0 <= i < |order|
      ensures var t := DueFrames(s.resend, order)[i]; !NeedsNumber(t) && t.f.reliableNumber in s.resend
    {
      Sending.DueAt(s.resend, order, i);
      var n := order[i];
      assert n in s.resend;
    }
  }

  /** A tick that finds room for all that is queued loses track of nothing. */
  lemma TickRoom(s: Sender, a: Action, mtu: int, net: Net)
    requires SenderOk(s, net) && a.Tick? && Enabled(s, a, mtu) && |s.resend| + |s.queue| <= MAX_RESEND_BUFFER_SIZE
    ensures Act(s, a, mtu).untracked == s.untracked
  {
    DueHeld(s, a.order, net);
    PassHeld(Resending(s, a), ResendPass(a, mtu), a.olds);
    SenderQueue.PassMoves(Resending(s, a), ResendPass(a, mtu), a.olds);
    SameSize(s.resend, Resent(s, a, mtu).s.resend);
    PassRoom(Drained(Resent(s, a, mtu).s), NewPass(a, mtu), a.newOlds);
    SenderQueue.RequeueOnly(Renewed(s, a, mtu).s, Renewed(s, a, mtu).rest);
  }

  lemma SameSize(a: map<int, InFlight>, b: map<int, InFlight>)
    requires a.Keys == b.Keys
    ensures |a| == |b|
  {
    assert |a| == |a.Keys| && |b| == |b.Keys|;
  }

  lemma ActRoom(s: Sender, a: Action, mtu: int, net: Net)
    requires SenderOk(s, net) && Enabled(s, a, mtu)
    requires a.Tick? ==> |s.resend| + |s.queue| <= MAX_RESEND_BUFFER_SIZE
    ensures Act(s, a, mtu).untracked == s.untracked
  {
    match a
    case Submit(data, rel, ch, p) =>
      if 0 <= ch < NUMBER_OF_ORDERED_STREAMS {
        var m := NewMessage(s, data, rel, ch, mtu);
        EnqueueFromLog(Accepted(s, m), |s.msgs|, m, 0, p);
      }
    case Tick(_, _, _, _, _, _, _) => TickRoom(s, a, mtu, net);
    case Acked(ns) => AckKeepsRest(s, ns);
    case Nakked(ns) => AckKeepsRest(s, ns);
  }

  // ---------- refusals ----------

  /** Numbers within the gap of any base. */
  ghost predicate Near(ts: seq<TFrame>) {
    forall i :: 0 <= i < |ts| && IsReliable(ts[i]) ==> ts[i].f.reliableNumber <= Windows.MAX_GAP
  }

  lemma NearFrame(r: R.Receiver, t: TFrame, now: real, timeout: real, victim: int)
    requires R.Shaped(r) && R.ChannelFits(t) && r.seen.Valid() && 0 <= r.seen.base
    requires IsReliable(t) ==> t.f.reliableNumber <= Windows.MAX_GAP
    ensures var r' := R.HandleFrame(r, t, now, timeout, victim);
      r'.refused == r.refused && r'.seen.Valid() && 0 <= r'.seen.base
  {
    R.HandleFrameFilter(r, t, now, timeout, victim);
    RefusedByGap(r, t);
    Windows.MarkAdds(r.seen, t.f.reliableNumber);
  }

  lemma {:induction false} NearFrames(r: R.Receiver, ts: seq<TFrame>, now: real, timeout: real, victims: seq<int>)
    requires R.Shaped(r) && |victims| == |ts| && (forall t <- ts :: R.ChannelFits(t))
    requires r.seen.Valid() && 0 <= r.seen.base && Near(ts)
    ensures R.HandleFrames(r, ts, now, timeout, victims).refused == r.refused
    decreases |ts|
  {
    if ts != [] {
      NearFrame(r, ts[0], now, timeout, victims[0]);
      assert forall t <- ts[1..] :: t in ts;
      assert forall i :: 0 <= i < |ts[1..]| ==> ts[1..][i] == ts[i + 1];
      NearFrames(R.HandleFrame(r, ts[0], now, timeout, victims[0]), ts[1..], now, timeout, victims[1..]);
    }
  }

  // ---------- the caps ----------

  /** Room in the resend buffer at each tick; a datagram arrives for the first
      time at or above the window base. */
  ghost predicate CapStep(s: State, e: Event) {
    match e
    case SenderActs(a, _) => a.Tick? ==> |s.tx.resend| + |s.tx.queue| <= MAX_RESEND_BUFFER_SIZE
    case Arrives(n, _, _, _) => n in s.rx.acks + s.acked || n >= s.rx.recent.base
    case _ => true
  }

  ghost predicate NothingMissing(s: State) {
    LapInv(s) && s.tx.untracked == {} && s.rx.refused == {}
    && forall k <- s.rx.recent.nums :: k in s.rx.acks + s.acked
  }

  lemma NetNear(s: State, n: nat)
    requires Inv(s) && n < |s.net| && s.tx.nextReliable <= Windows.MAX_GAP + 1
    ensures Near(RI.Arriving(s.net[n]))
  {
    NetReadable(s, n);
    forall i | 0 <= i < |s.net[n]| && IsReliable(RI.Arriving(s.net[n])[i])
      ensures RI.Arriving(s.net[n])[i].f.reliableNumber <= Windows.MAX_GAP
    {
      assert RI.Known(s.tx.msgs, s.tx.numbered, RI.Arriving(s.net[n])[i]);
    }
  }

  /** A datagram acknowledged before holds nothing unseen. */
  lemma NothingUnseen(s: State, n: nat)
    requires NothingMissing(s) && n < |s.net| && n in s.rx.acks + s.acked
    ensures R.Unseen(s.rx.seen, RI.Arriving(s.net[n])) == {}
  {
    var ts := RI.Arriving(s.net[n]);
    forall t | t in ts && t.f.reliability.IsReliable()
      ensures s.rx.seen.Has(t.f.reliableNumber)
    {
      var i :| 0 <= i < |ts| && ts[i] == t;
      assert RI.Covered(s.rx, ts[i]);
    }
  }

  lemma ArrivalRefusesNone(s: State, e: Event)
    requires NothingMissing(s) && e.Arrives? && Possible(s, e) && CapStep(s, e)
    requires s.tx.nextReliable <= Windows.MAX_GAP + 1
    ensures Step(s, e).rx.refused == {}
  {
    var r, ts := s.rx, RI.Arriving(s.net[e.n]);
    var (expected, skipped) := Congestion.Got(r.expected, e.n);
    if skipped.Some? {
      if r.recent.Has(e.n) {
        NothingUnseen(s, e.n);
      } else {
        NetNear(s, e.n);
        var r1 := r.(expected := expected, acks := r.acks + {e.n}, naks := r.naks + R.Missing(r.recent, e.n, skipped.value));
        NearFrames(r1.(recent := RecordOf(r, e.n)), ts, e.now, e.timeout, e.victims);
      }
    }
  }

  lemma ArrivalRecords(s: State, e: Event)
    requires NothingMissing(s) && e.Arrives? && Possible(s, e)
    ensures var s' := Step(s, e); forall k <- s'.rx.recent.nums :: k in s'.rx.acks + s'.acked
  {
    var r, ts := s.rx, RI.Arriving(s.net[e.n]);
    var (expected, skipped) := Congestion.Got(r.expected, e.n);
    ReceiverGaps.DataReports(r, e.n, ts, e.now, e.timeout, e.victims);
    if skipped.Some? && !r.recent.Has(e.n) {
      var r1 := r.(expected := expected, acks := r.acks + {e.n}, naks := r.naks + R.Missing(r.recent, e.n, skipped.value));
      ReceiverGaps.FramesSameReports(r1.(recent := RecordOf(r, e.n)), ts, e.now, e.timeout, e.victims);
    }
  }

  lemma StepMissesNothing(s: State, e: Event)
    requires NothingMissing(s) && Possible(s, e) && CapStep(s, e) && s.tx.nextReliable <= Windows.MAX_GAP + 1
    ensures NothingMissing(Step(s, e)) && Step(s, e).tx.nextReliable >= s.tx.nextReliable
  {
    StepLap(s, e);
    match e
    case SenderActs(a, mtu) => SenderMissesNothing(s, a, mtu);
    case Arrives(_, _, _, _) =>
      ArrivalRefusesNone(s, e);
      ArrivalRecords(s, e);
    case _ => QuietMissesNothing(s, e);
  }

  lemma SenderMissesNothing(s: State, a: Action, mtu: int)
    requires NothingMissing(s) && Possible(s, SenderActs(a, mtu)) && CapStep(s, SenderActs(a, mtu))
    ensures var s' := Step(s, SenderActs(a, mtu));
      s'.tx.untracked == {} && s'.tx.nextReliable >= s.tx.nextReliable && s'.rx == s.rx && s'.acked == s.acked
  {
    ActRoom(s.tx, a, mtu, s.net);
    ActOk(s, a, mtu);
  }

  lemma QuietMissesNothing(s: State, e: Event)
    requires NothingMissing(s) && (e.ReceiverTicks? || e.Polled?) && Possible(s, e)
    ensures var s' := Step(s, e);
      s'.tx == s.tx && s'.rx.refused == {} && forall k <- s'.rx.recent.nums :: k in s'.rx.acks + s'.acked
  {
  }

  // ---------- runs ----------

  /** The caps hold at every step, and at most 1000001 reliable numbers are given out. */
  ghost predicate CapsKept(s: State, es: seq<Event>)
    requires Shaped(s.tx) && R.Shaped(s.rx) && Runnable(s, es)
    decreases |es|
  {
    s.tx.nextReliable <= Windows.MAX_GAP + 1 && (es == [] || (CapStep(s, es[0]) && CapsKept(Step(s, es[0]), es[1..])))
  }

  lemma {:induction false} RunMissesNothing(s: State, es: seq<Event>)
    requires NothingMissing(s) && Runnable(s, es) && CapsKept(s, es)
    ensures NothingMissing(Run(s, es))
    decreases |es|
  {
    if es != [] {
      StepMissesNothing(s, es[0]);
      RunMissesNothing(Step(s, es[0]), es[1..]);
    }
  }

  ghost predicate InFlightNow(s: Sender, fid: nat) {
    exists n :: n in s.resend && s.resend[n].t.fid == fid
  }

  /** The frame is queued, being resent, or processed by the receiver. */
  ghost predicate Safe(s: State, fid: nat) {
    fid < |s.tx.log| && IsReliable(s.tx.log[fid]) ==>
      T.Queued(s.tx, fid) || InFlightNow(s.tx, fid) || RI.Processed(s.rx, fid)
  }

  /** Under the caps every reliable frame ever sent is queued, being resent, or
      processed by the receiver. */
  lemma NothingLost(s0: State, es: seq<Event>, fid: nat)
    requires Initial(s0) && Shaped(s0.tx) && R.Shaped(s0.rx) && Runnable(s0, es) && CapsKept(s0, es)
    ensures Safe(Run(s0, es), fid)
  {
    NothingMissingAtFirst(s0);
    RunMissesNothing(s0, es);
    AllSafe(Run(s0, es), fid);
  }

  lemma NothingMissingAtFirst(s: State)
    requires Initial(s)
    ensures NothingMissing(s)
  {
    InitialLap(s);
  }

  lemma AllSafe(s: State, fid: nat)
    requires NothingMissing(s)
    ensures Safe(s, fid)
  {
    if fid < |s.tx.log| && IsReliable(s.tx.log[fid]) {
      LossInState(s, fid);
      NoException(s, fid);
    }
  }

  lemma NoException(s: State, fid: nat)
    requires Accounted(s, fid) && s.tx.untracked == {} && s.rx.refused == {}
    ensures T.Queued(s.tx, fid) || InFlightNow(s.tx, fid) || RI.Processed(s.rx, fid)
  {
    if !T.Queued(s.tx, fid) {
      var n :| Settled(s, fid, n);
    }
  }
}

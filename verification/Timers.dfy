/** When frames are sent again: a log of what left and what was reported
    missing decides it, in every run (_reliability.py:349-372, 476-500, 531-552). */
module Timers {
  import opened Types
  import opened WireFormat
  import opened Tags
  import opened SenderSpec
  import opened SenderNet
  import SenderInv
  import SenderBytes
  import SenderQueue
  import SenderReach
  import Sending
  import Transport

  /** What a log keeps of a reliable number: it left in a datagram at a time and
      under a timeout, or a NAK named a datagram that carried it. */
  datatype Entry = Left(n: int, at: real, rto: real) | Missed(n: int)

  type Log = seq<Entry>

  /** How often the number has left. */
  function Times(log: Log, n: int): nat {
    if log == [] then 0
    else Times(log[..|log| - 1], n) + (if log[|log| - 1].Left? && log[|log| - 1].n == n then 1 else 0)
  }

  /** The factor between a timeout and the wait after the kth transmission. */
  function Backoff(k: nat): real {
    if k <= 1 then 1.0
    else if k == 2 then 2.0
    else if k == 3 then 4.0
    else if k == 4 then 8.0
    else if k == 5 then 16.0
    else 32.0
  }

  /** When the number is to leave again: after its kth transmission at t under
      rto at t + rto * 2 ^ min(k - 1, 5), or at once if it was missed since. */
  function DueAt(log: Log, n: int): real {
    if log == [] then 0.0
    else
      match log[|log| - 1]
      case Left(m, at, rto) => if m == n then at + rto * Backoff(Times(log, n)) else DueAt(log[..|log| - 1], n)
      case Missed(m) => if m == n then 0.0 else DueAt(log[..|log| - 1], n)
  }

  /** When anything reliable last left. */
  function LastLeft(log: Log): real {
    if log == [] then 0.0
    else
      match log[|log| - 1]
      case Left(_, at, _) => at
      case Missed(_) => LastLeft(log[..|log| - 1])
  }

  // ---------- what a run adds to the log ----------

  function Leaving(ts: seq<TFrame>, at: real, rto: real): Log {
    if ts == [] then []
    else (if ts[0].f.reliability.IsReliable() then [Left(ts[0].f.reliableNumber, at, rto)] else []) + Leaving(ts[1..], at, rto)
  }

  function LeavingAll(out: seq<Packet>, at: real, rto: real): Log {
    if out == [] then [] else LeavingAll(out[..|out| - 1], at, rto) + Leaving(out[|out| - 1].frames, at, rto)
  }

  function MissedAll(ks: seq<int>): Log {
    if ks == [] then [] else MissedAll(ks[..|ks| - 1]) + [Missed(ks[|ks| - 1])]
  }

  /** The numbers carried by the datagrams ns that are on record. */
  function MissedIn(history: map<int, Record>, ns: seq<int>): Log {
    if ns == [] then []
    else
      var n := ns[|ns| - 1];
      MissedIn(history, ns[..|ns| - 1]) + (if n in history then MissedAll(history[n].numbers) else [])
  }

  ghost function StepLog(s: Sender, a: Action, mtu: int): Log
    requires Enabled(s, a, mtu)
  {
    match a
    case Tick(now, _, rto, _, _, _, _) => LeavingAll(Emitted(s, a, mtu), now, rto)
    case Nakked(ns) => MissedIn(s.history, ns)
    case _ => []
  }

  ghost function RunLog(s: Sender, actions: seq<Action>, mtu: int): Log
    requires Shaped(s) && SenderQueue.RunEnabled(s, actions, mtu)
    decreases |actions|
  {
    if actions == [] then []
    else StepLog(s, actions[0], mtu) + RunLog(Act(s, actions[0], mtu), actions[1..], mtu)
  }

  // ---------- what the sender keeps of it ----------

  /** Tracked numbers know how often they left and when they are due. */
  ghost predicate OnTime(resend: map<int, InFlight>, log: Log) {
    forall n <- resend ::
      Times(log, n) >= 1 && resend[n].timesSent == Times(log, n) && resend[n].nextAction == DueAt(log, n)
  }

  ghost predicate Below(log: Log, next: int) {
    forall e <- log :: e.n < next
  }

  ghost predicate TimerInv(s: Sender, log: Log) {
    OnTime(s.resend, log) && Below(log, s.nextReliable) && s.lastReliableSend == LastLeft(log)
  }

  lemma {:induction false} BelowTimes(log: Log, next: int, n: int)
    requires Below(log, next) && n >= next
    ensures Times(log, n) == 0
  {
    if log != [] {
      var front, last := log[..|log| - 1], log[|log| - 1];
      assert last in log && forall e <- front :: e in log;
      BelowTimes(front, next, n);
    }
  }

  lemma BelowGrows(log: Log, next: int, more: Log, next': int)
    requires Below(log, next) && Below(more, next') && next <= next'
    ensures Below(log + more, next')
  {
  }

  lemma SnocTimes(log: Log, e: Entry, n: int)
    ensures Times(log + [e], n) == Times(log, n) + (if e.Left? && e.n == n then 1 else 0)
    ensures e.n != n ==> DueAt(log + [e], n) == DueAt(log, n)
    ensures e == Missed(n) ==> DueAt(log + [e], n) == 0.0
    ensures e.Left? && e.n == n ==> DueAt(log + [e], n) == e.at + e.rto * Backoff(Times(log, n) + 1)
  {
    assert (log + [e])[..|log|] == log;
  }

  // ---------- tracking ----------

  lemma BackoffIs(k: nat)
    ensures Pow2(Min(k, 5)) as real == Backoff(k + 1)
  {
    assert Pow2(1) == 2 && Pow2(2) == 4 && Pow2(3) == 8 && Pow2(4) == 16 && Pow2(5) == 32;
  }

  /** Tracking one frame records its leaving. */
  lemma TrackOneOnTime(resend: map<int, InFlight>, t: TFrame, now: real, rto: real, log: Log)
    requires OnTime(resend, log) && t.f.reliability.IsReliable()
    requires t.f.reliableNumber in resend || Times(log, t.f.reliableNumber) == 0
    ensures OnTime(TrackOne(resend, t, now, rto), log + [Left(t.f.reliableNumber, now, rto)])
  {
    var k := t.f.reliableNumber;
    var after := TrackOne(resend, t, now, rto);
    var e := Left(k, now, rto);
    forall n | n in after
      ensures Times(log + [e], n) >= 1 && after[n].timesSent == Times(log + [e], n) && after[n].nextAction == DueAt(log + [e], n)
    {
      SnocTimes(log, e, n);
      BackoffIs(Times(log, n));
    }
  }

  /** Frames already tracked. */
  ghost predicate AllTracked(resend: map<int, InFlight>, ts: seq<TFrame>) {
    forall i :: 0 <= i < |ts| && ts[i].f.reliability.IsReliable() ==> ts[i].f.reliableNumber in resend
  }

  lemma {:induction false} TrackAgainOnTime(resend: map<int, InFlight>, ts: seq<TFrame>, now: real, rto: real, log: Log)
    requires OnTime(resend, log) && AllTracked(resend, ts)
    ensures OnTime(Track(resend, ts, now, rto), log + Leaving(ts, now, rto))
    decreases |ts|
  {
    if ts == [] {
      assert log + [] == log;
    } else {
      var one := TrackOne(resend, ts[0], now, rto);
      assert ts[0].f.reliability.IsReliable() ==> ts[0].f.reliableNumber in resend;
      if ts[0].f.reliability.IsReliable() {
        var e := Left(ts[0].f.reliableNumber, now, rto);
        TrackOneOnTime(resend, ts[0], now, rto, log);
        LogsJoin(log, [e], Leaving(ts[1..], now, rto));
        TrackAgainOnTime(one, ts[1..], now, rto, log + [e]);
      } else {
        EmptyFront(Leaving(ts[1..], now, rto));
        TrackAgainOnTime(one, ts[1..], now, rto, log);
      }
    }
  }

  /** Reliable frames without a number, and frames that need none. */
  ghost predicate Unnumbered(ts: seq<TFrame>) {
    forall i :: 0 <= i < |ts| ==> (ts[i].f.reliability.IsReliable() <==> NeedsNumber(ts[i]))
  }

  /** New frames take numbers nobody has seen. */
  lemma {:induction false} TrackNewOnTime(resend: map<int, InFlight>, ts: seq<TFrame>, next: nat, now: real, rto: real, log: Log)
    requires OnTime(resend, log) && Below(log, next) && Unnumbered(ts)
    ensures OnTime(Track(resend, Number(ts, next), now, rto), log + Leaving(Number(ts, next), now, rto))
    ensures Below(Leaving(Number(ts, next), now, rto), next + |Newly(ts)|)
    decreases |ts|
  {
    if ts == [] {
      assert log + [] == log;
    } else {
      var us := Number(ts, next);
      var one := TrackOne(resend, us[0], now, rto);
      assert ts[0].f.reliability.IsReliable() <==> NeedsNumber(ts[0]);
      if NeedsNumber(ts[0]) {
        var e := Left(next, now, rto);
        BelowTimes(log, next, next);
        TrackOneOnTime(resend, us[0], now, rto, log);
        BelowGrows(log, next, [e], next + 1);
        TrackNewOnTime(one, ts[1..], next + 1, now, rto, log + [e]);
        LogsJoin(log, [e], Leaving(us[1..], now, rto));
        assert Number(ts[1..], next + 1) == us[1..];
      } else {
        EmptyFront(Leaving(us[1..], now, rto));
        TrackNewOnTime(resend, ts[1..], next, now, rto, log);
        assert Number(ts[1..], next) == us[1..];
      }
    }
  }

  lemma {:induction false} LeavingBelow(ts: seq<TFrame>, now: real, rto: real, next: int)
    requires forall i :: 0 <= i < |ts| && ts[i].f.reliability.IsReliable() ==> ts[i].f.reliableNumber < next
    ensures Below(Leaving(ts, now, rto), next)
    decreases |ts|
  {
    if ts != [] {
      LeavingBelow(ts[1..], now, rto, next);
    }
  }

  lemma {:induction false} LeavingLast(log: Log, ts: seq<TFrame>, at: real, rto: real)
    ensures LastLeft(log + Leaving(ts, at, rto)) == if ReliableNumbers(ts) != [] then at else LastLeft(log)
    decreases |ts|
  {
    if ts == [] {
      assert log + [] == log;
    } else if ts[0].f.reliability.IsReliable() {
      var e := Left(ts[0].f.reliableNumber, at, rto);
      assert log + [e] + Leaving(ts[1..], at, rto) == log + ([e] + Leaving(ts[1..], at, rto));
      assert (log + [e])[..|log|] == log;
      LeavingLast(log + [e], ts[1..], at, rto);
    } else {
      assert [] + Leaving(ts[1..], at, rto) == Leaving(ts[1..], at, rto);
      LeavingLast(log, ts[1..], at, rto);
    }
  }

  // ---------- one turn of a pass ----------

  lemma LeavingOne(out: seq<Packet>, p: Packet, at: real, rto: real)
    ensures LeavingAll(out + [p], at, rto) == LeavingAll(out, at, rto) + Leaving(p.frames, at, rto)
  {
    assert (out + [p])[..|out|] == out;
  }

  lemma LeavingSnoc(out: seq<Packet>, p: Packet, at: real, rto: real, log: Log)
    ensures log + LeavingAll(out + [p], at, rto) == log + LeavingAll(out, at, rto) + Leaving(p.frames, at, rto)
  {
    LeavingOne(out, p, at, rto);
  }

  lemma {:induction false} LeavingConcat(a: seq<Packet>, b: seq<Packet>, at: real, rto: real)
    ensures LeavingAll(a + b, at, rto) == LeavingAll(a, at, rto) + LeavingAll(b, at, rto)
    decreases |b|
  {
    if b == [] {
      assert a + b == a;
    } else {
      var front, last := b[..|b| - 1], b[|b| - 1];
      assert a + b == a + front + [last] && b == front + [last];
      LeavingConcat(a, front, at, rto);
      LeavingOne(a + front, last, at, rto);
      LeavingOne(front, last, at, rto);
    }
  }

  /** Everything in line for a resend pass is tracked under its number. */
  ghost predicate Resendable(s: Sender, ts: seq<TFrame>) {
    forall i :: 0 <= i < |ts| ==>
      ts[i].f.reliability.IsReliable() && ts[i].f.reliableNumber in s.resend && 0 <= ts[i].f.reliableNumber < s.nextReliable
  }

  lemma EmitAgainOnTime(s: Sender, ts: seq<TFrame>, more: bool, c: Pass, oldest: int, log: Log)
    requires TimerInv(s, log) && Resendable(s, ts)
    ensures var (s', p) := Emit(s, ts, more, c.now, c.rto, oldest);
      TimerInv(s', log + Leaving(p.frames, c.now, c.rto)) && p.frames == ts && s'.nextReliable == s.nextReliable
      && s.resend.Keys <= s'.resend.Keys
  {
    SenderInv.NumberKeeps(ts, s.nextReliable);
    TrackAgainOnTime(s.resend, ts, c.now, c.rto, log);
    LeavingBelow(ts, c.now, c.rto, s.nextReliable);
    LeavingLast(log, ts, c.now, c.rto);
    BelowGrows(log, s.nextReliable, Leaving(ts, c.now, c.rto), s.nextReliable);
    TrackGrows(s.resend, ts, c.now, c.rto);
  }

  lemma {:induction false} PassAgainOnTime(p: Packing, c: Pass, olds: seq<int>, log: Log)
    requires Turns(p, c, olds) && c.limit.None? && p.out == [] && TimerInv(p.s, log) && Resendable(p.s, p.rest)
    ensures var q := Packed(p, c, olds);
      TimerInv(q.s, log + LeavingAll(q.out, c.now, c.rto)) && Resendable(q.s, q.rest) && q.s.nextReliable == p.s.nextReliable
      && AllFrames(q.out) + q.rest == p.rest
    decreases |olds|
  {
    if olds == [] {
      assert log + [] == log;
    } else {
      var q := Packed(p, c, olds[..|olds| - 1]);
      PassAgainOnTime(p, c, olds[..|olds| - 1], log);
      TurnAgainOnTime(q, c, olds[|olds| - 1], log);
      AllFramesSnoc(q.out, PackOne(q, c, olds[|olds| - 1]).out[|q.out|], PackOne(q, c, olds[|olds| - 1]).rest);
    }
  }

  lemma TurnAgainOnTime(q: Packing, c: Pass, oldest: int, log: Log)
    requires Going(q, c) && c.limit.None? && TimerInv(q.s, log + LeavingAll(q.out, c.now, c.rto)) && Resendable(q.s, q.rest)
    ensures var q' := PackOne(q, c, oldest);
      TimerInv(q'.s, log + LeavingAll(q'.out, c.now, c.rto)) && Resendable(q'.s, q'.rest)
      && q'.s.nextReliable == q.s.nextReliable && |q'.out| == |q.out| + 1 && q'.out == q.out + [q'.out[|q.out|]]
      && q'.out[|q.out|].frames + q'.rest == q.rest
  {
    var k := Fill(q.rest, c.max, 0);
    var (s, packet) := Emit(q.s, q.rest[..k], k < |q.rest|, c.now, c.rto, oldest);
    ResendableSplit(q.s, q.rest, k);
    EmitAgainOnTime(q.s, q.rest[..k], k < |q.rest|, c, oldest, log + LeavingAll(q.out, c.now, c.rto));
    LeavingSnoc(q.out, packet, c.now, c.rto, log);
    ResendableLater(q.s, s, q.rest[k..]);
  }

  lemma ResendableSplit(s: Sender, ts: seq<TFrame>, k: nat)
    requires Resendable(s, ts) && k <= |ts|
    ensures Resendable(s, ts[..k]) && Resendable(s, ts[k..]) && ts[..k] + ts[k..] == ts
  {
  }

  lemma ResendableLater(s: Sender, s': Sender, ts: seq<TFrame>)
    requires Resendable(s, ts) && s.resend.Keys <= s'.resend.Keys && s'.nextReliable == s.nextReliable
    ensures Resendable(s', ts)
  {
  }

  lemma TimerSame(s: Sender, s': Sender, log: Log)
    requires TimerInv(s, log) && s'.resend == s.resend && s'.nextReliable == s.nextReliable
    requires s'.lastReliableSend == s.lastReliableSend
    ensures TimerInv(s', log)
  {
  }

  lemma EmitNewOnTime(s: Sender, ts: seq<TFrame>, more: bool, c: Pass, oldest: int, log: Log)
    requires TimerInv(s, log) && Unnumbered(ts)
    ensures var (s', p) := Emit(s, ts, more, c.now, c.rto, oldest);
      TimerInv(s', log + Leaving(p.frames, c.now, c.rto)) && s.nextReliable <= s'.nextReliable
  {
    TrackNewOnTime(s.resend, ts, s.nextReliable, c.now, c.rto, log);
    LeavingLast(log, Number(ts, s.nextReliable), c.now, c.rto);
    BelowGrows(log, s.nextReliable, Leaving(Number(ts, s.nextReliable), c.now, c.rto), s.nextReliable + |Newly(ts)|);
  }

  lemma TurnNewOnTime(q: Packing, c: Pass, oldest: int, log: Log)
    requires Going(q, c) && TimerInv(q.s, log + LeavingAll(q.out, c.now, c.rto)) && Unnumbered(q.rest)
    ensures var q' := PackOne(q, c, oldest);
      TimerInv(q'.s, log + LeavingAll(q'.out, c.now, c.rto)) && Unnumbered(q'.rest) && q.s.nextReliable <= q'.s.nextReliable
  {
    var k := Fill(q.rest, c.max, 0);
    var (s, packet) := Emit(q.s, q.rest[..k], k < |q.rest|, c.now, c.rto, oldest);
    UnnumberedSplit(q.rest, k);
    EmitNewOnTime(q.s, q.rest[..k], k < |q.rest|, c, oldest, log + LeavingAll(q.out, c.now, c.rto));
    LeavingSnoc(q.out, packet, c.now, c.rto, log);
    TimerSame(s, PackOne(q, c, oldest).s, log + LeavingAll(q.out + [packet], c.now, c.rto));
  }

  lemma UnnumberedSplit(ts: seq<TFrame>, k: nat)
    requires Unnumbered(ts) && k <= |ts|
    ensures Unnumbered(ts[..k]) && Unnumbered(ts[k..])
  {
  }

  lemma {:induction false} PassNewOnTime(p: Packing, c: Pass, olds: seq<int>, log: Log)
    requires Turns(p, c, olds) && p.out == [] && TimerInv(p.s, log) && Unnumbered(p.rest)
    ensures var q := Packed(p, c, olds);
      TimerInv(q.s, log + LeavingAll(q.out, c.now, c.rto)) && Unnumbered(q.rest) && p.s.nextReliable <= q.s.nextReliable
    decreases |olds|
  {
    if olds == [] {
      assert log + [] == log;
    } else {
      PassNewOnTime(p, c, olds[..|olds| - 1], log);
      TurnNewOnTime(Packed(p, c, olds[..|olds| - 1]), c, olds[|olds| - 1], log);
    }
  }

  // ---------- steps ----------

  lemma {:induction false} DueResendable(s: Sender, order: seq<int>)
    requires SenderInv.ResendInv(s.log, s.numbered, s.resend) && |s.numbered| == s.nextReliable
    requires forall i :: 0 <= i < |order| ==> order[i] in s.resend
    ensures Resendable(s, DueFrames(s.resend, order))
  {
    if order != [] {
      var n := order[0];
      assert n in s.resend && SenderInv.Sound(s.log, s.numbered, s.resend[n].t);
      DueResendable(s, order[1..]);
    }
  }

  /** The resend pass of a tick. */
  lemma ResentOnTime(s: Sender, a: Action, mtu: int, net: Net, log: Log)
    requires SenderOk(s, net) && a.Tick? && Enabled(s, a, mtu) && TimerInv(s, log)
    ensures var q := Resent(s, a, mtu);
      TimerInv(q.s, log + LeavingAll(q.out, a.now, a.rto)) && q.s.nextReliable == s.nextReliable
      && AllFrames(q.out) + q.rest == DueFrames(s.resend, a.order)
  {
    DueResendable(s, a.order);
    TimerSame(s, EvictStale(s, a.now, a.timeout), log);
    PassAgainOnTime(Resending(s, a), ResendPass(a, mtu), a.olds, log);
  }

  lemma DrainedUnnumbered(s: Sender)
    requires SenderQueue.LineInv(s) && SenderInv.LogInv(s.msgs, s.log)
    ensures Unnumbered(Drained(s).rest)
  {
    DrainedNew(s);
    var ts := Drained(s).rest;
    forall i | 0 <= i < |ts|
      ensures ts[i].f.reliability.IsReliable() <==> NeedsNumber(ts[i])
    {
      assert SenderInv.IsReliable(ts[i]) <==> NeedsNumber(ts[i]);
    }
  }

  lemma FinishOnTime(q: Packing, c: Pass, log: Log)
    requires TimerInv(q.s, log)
    ensures TimerInv(Finish(q, c), log) && Finish(q, c).nextReliable == q.s.nextReliable
  {
    SenderQueue.RequeueOnly(q.s, q.rest);
  }

  /** The pass over new frames, and what it puts back. */
  lemma RenewedOnTime(s: Sender, c: Pass, olds: seq<int>, log: Log)
    requires SenderQueue.LineInv(s) && SenderInv.LogInv(s.msgs, s.log) && TimerInv(s, log) && Passes(Drained(s), c, olds)
    ensures var q := Packed(Drained(s), c, olds);
      TimerInv(Finish(q, c), log + LeavingAll(q.out, c.now, c.rto))
  {
    DrainedUnnumbered(s);
    TimerSame(s, Drained(s).s, log);
    PassNewOnTime(Drained(s), c, olds, log);
    var q := Packed(Drained(s), c, olds);
    FinishOnTime(q, c, log + LeavingAll(q.out, c.now, c.rto));
  }

  lemma LeavingBoth(a: seq<Packet>, b: seq<Packet>, at: real, rto: real, log: Log)
    ensures log + LeavingAll(a, at, rto) + LeavingAll(b, at, rto) == log + LeavingAll(a + b, at, rto)
  {
    LeavingConcat(a, b, at, rto);
  }

  lemma TickOnTime(s: Sender, a: Action, mtu: int, net: Net, log: Log)
    requires SenderOk(s, net) && a.Tick? && Enabled(s, a, mtu) && TimerInv(s, log)
    ensures TimerInv(Act(s, a, mtu), log + StepLog(s, a, mtu))
  {
    var again := Resent(s, a, mtu);
    ResentOnTime(s, a, mtu, net, log);
    ResentReady(s, a, mtu, net, SenderReach.All());
    RenewedOnTime(again.s, NewPass(a, mtu), a.newOlds, log + LeavingAll(again.out, a.now, a.rto));
    LeavingBoth(again.out, Renewed(s, a, mtu).out, a.now, a.rto, log);
  }

  lemma {:induction false} MissedTimes(log: Log, ks: seq<int>, n: int)
    ensures Times(log + MissedAll(ks), n) == Times(log, n)
    ensures DueAt(log + MissedAll(ks), n) == if n in ks then 0.0 else DueAt(log, n)
    decreases |ks|
  {
    if ks == [] {
      assert log + [] == log;
    } else {
      var front, k := ks[..|ks| - 1], ks[|ks| - 1];
      assert ks == front + [k] && (n in ks <==> n in front || n == k);
      MissedTimes(log, front, n);
      SnocTimes(log + MissedAll(front), Missed(k), n);
      assert log + MissedAll(front) + [Missed(k)] == log + MissedAll(ks);
    }
  }

  lemma NakOneOnTime(s: Sender, n: int, log: Log)
    requires OnTime(s.resend, log)
    ensures OnTime(NakOne(s, n).resend, log + (if n in s.history then MissedAll(s.history[n].numbers) else []))
  {
    if n in s.history {
      var ks := s.history[n].numbers;
      forall k | k in s.resend
        ensures Times(log + MissedAll(ks), k) == Times(log, k)
        ensures DueAt(log + MissedAll(ks), k) == if k in ks then 0.0 else DueAt(log, k)
      {
        MissedTimes(log, ks, k);
      }
    } else {
      assert log + [] == log;
    }
  }

  lemma {:induction false} NakOnTime(s: Sender, ns: seq<int>, log: Log)
    requires OnTime(s.resend, log)
    ensures OnTime(NakAll(s, ns).resend, log + MissedIn(s.history, ns))
    decreases |ns|
  {
    if ns == [] {
      assert log + [] == log;
    } else {
      var front, n := ns[..|ns| - 1], ns[|ns| - 1];
      var before := log + MissedIn(s.history, front);
      NakOnTime(s, front, log);
      SenderReach.AckNoWider(s, front);
      NakOneOnTime(NakAll(s, front), n, before);
      var last := if n in s.history then MissedAll(s.history[n].numbers) else [];
      assert before + last == log + (MissedIn(s.history, front) + last);
    }
  }

  lemma {:induction false} MissedAllLast(log: Log, ks: seq<int>)
    ensures LastLeft(log + MissedAll(ks)) == LastLeft(log)
    decreases |ks|
  {
    if ks == [] {
      assert log + [] == log;
    } else {
      var front, k := ks[..|ks| - 1], ks[|ks| - 1];
      MissedAllLast(log, front);
      assert log + MissedAll(ks) == log + MissedAll(front) + [Missed(k)];
      assert (log + MissedAll(ks))[..|log + MissedAll(ks)| - 1] == log + MissedAll(front);
    }
  }

  lemma {:induction false} MissedInLast(log: Log, history: map<int, Record>, ns: seq<int>)
    ensures LastLeft(log + MissedIn(history, ns)) == LastLeft(log)
    decreases |ns|
  {
    if ns == [] {
      assert log + [] == log;
    } else {
      var front, n := ns[..|ns| - 1], ns[|ns| - 1];
      var last := if n in history then MissedAll(history[n].numbers) else [];
      MissedInLast(log, history, front);
      assert log + MissedIn(history, front) + last == log + (MissedIn(history, front) + last);
      if n in history {
        MissedAllLast(log + MissedIn(history, front), history[n].numbers);
      } else {
        assert log + MissedIn(history, front) + [] == log + MissedIn(history, front);
      }
    }
  }

  lemma {:induction false} MissedAllBelow(ks: seq<int>, next: int)
    requires forall i :: 0 <= i < |ks| ==> ks[i] < next
    ensures Below(MissedAll(ks), next)
    decreases |ks|
  {
    if ks != [] {
      MissedAllBelow(ks[..|ks| - 1], next);
    }
  }

  lemma {:induction false} MissedInBelow(s: Sender, net: Net, ns: seq<int>)
    requires SenderOk(s, net)
    ensures Below(MissedIn(s.history, ns), s.nextReliable)
    decreases |ns|
  {
    if ns != [] {
      var n := ns[|ns| - 1];
      MissedInBelow(s, net, ns[..|ns| - 1]);
      if n in s.history {
        forall i | 0 <= i < |s.history[n].numbers|
          ensures s.history[n].numbers[i] < s.nextReliable
        {
          SenderReach.RecordBelow(s, net, n, i);
        }
        MissedAllBelow(s.history[n].numbers, s.nextReliable);
      }
    }
  }

  lemma AckOnTime(s: Sender, ns: seq<int>, log: Log)
    requires OnTime(s.resend, log)
    ensures OnTime(AckAll(s, ns).resend, log)
  {
    SenderBytes.AckRemovesExactly(s, ns);
  }

  lemma {:induction false} AckKeepsTime(s: Sender, ns: seq<int>)
    ensures AckAll(s, ns).lastReliableSend == NakAll(s, ns).lastReliableSend == s.lastReliableSend
    decreases |ns|
  {
    if ns != [] {
      AckKeepsTime(s, ns[..|ns| - 1]);
    }
  }

  lemma SubmitKeeps(s: Sender, a: Action, mtu: int, net: Net)
    requires SenderOk(s, net) && a.Submit? && Enabled(s, a, mtu)
    ensures Act(s, a, mtu).resend == s.resend && Act(s, a, mtu).nextReliable == s.nextReliable
    ensures Act(s, a, mtu).lastReliableSend == s.lastReliableSend
  {
    SubmitRecorded(s, a, mtu, net);
    if 0 <= a.ch < NUMBER_OF_ORDERED_STREAMS {
      var m := NewMessage(s, a.data, a.rel, a.ch, mtu);
      EnqueueKeepsTime(Accepted(s, m), |s.msgs|, m, 0, a.priority);
    }
  }

  lemma {:induction false} EnqueueKeepsTime(s: Sender, mid: nat, m: Message, i: nat, p: nat)
    requires Shaped(s) && p < PRIORITIES && i <= |m.pieces|
    ensures EnqueueFrom(s, mid, m, i, p).lastReliableSend == s.lastReliableSend
    decreases |m.pieces| - i
  {
    if i < |m.pieces| {
      EnqueueKeepsTime(Enqueue(s, mid, NewFrame(m, i), p), mid, m, i + 1, p);
    }
  }

  lemma StepOnTime(s: Sender, a: Action, mtu: int, net: Net, log: Log)
    requires SenderOk(s, net) && Enabled(s, a, mtu) && TimerInv(s, log)
    ensures TimerInv(Act(s, a, mtu), log + StepLog(s, a, mtu))
  {
    match a
    case Submit(_, _, _, _) =>
      SubmitKeeps(s, a, mtu, net);
      assert log + [] == log;
    case Tick(_, _, _, _, _, _, _) => TickOnTime(s, a, mtu, net, log);
    case Acked(ns) =>
      AckOnTime(s, ns, log);
      SenderReach.AckNoWider(s, ns);
      AckKeepsTime(s, ns);
      assert log + [] == log;
    case Nakked(ns) =>
      NakOnTime(s, ns, log);
      MissedInLast(log, s.history, ns);
      AckKeepsTime(s, ns);
      MissedInBelow(s, net, ns);
      SenderReach.AckNoWider(s, ns);
      BelowGrows(log, s.nextReliable, MissedIn(s.history, ns), s.nextReliable);
  }

  lemma {:induction false} RunOnTime(s: Sender, actions: seq<Action>, mtu: int, net: Net, log: Log)
    requires SenderOk(s, net) && SenderQueue.RunEnabled(s, actions, mtu) && mtu > UDP_HEADER_SIZE + 9 && TimerInv(s, log)
    ensures TimerInv(SenderQueue.Run(s, actions, mtu), log + RunLog(s, actions, mtu))
    decreases |actions|
  {
    if actions == [] {
      assert log + [] == log;
    } else {
      var step := StepLog(s, actions[0], mtu);
      var s' := Act(s, actions[0], mtu);
      StepOnTime(s, actions[0], mtu, net, log);
      SenderReach.StepOk(s, actions[0], mtu, net);
      RunOnTime(s', actions[1..], mtu, net + FramesOf(Emitted(s, actions[0], mtu)), log + step);
      LogsJoin(log, step, RunLog(s', actions[1..], mtu));
    }
  }

  lemma LogsJoin(a: Log, b: Log, c: Log)
    ensures a + b + c == a + (b + c)
  {
  }

  // ---------- when a frame leaves again ----------

  /** Some datagram carries the frame. */
  ghost predicate Carries(out: seq<Packet>, t: TFrame) {
    exists i :: 0 <= i < |out| && t in out[i].frames
  }

  /** Some datagram carries the reliable number n. */
  ghost predicate Sends(out: seq<Packet>, n: int) {
    exists i, j :: 0 <= i < |out| && 0 <= j < |out[i].frames|
                   && out[i].frames[j].f.reliability.IsReliable() && out[i].frames[j].f.reliableNumber == n
  }

  lemma {:induction false} AllFramesCarried(out: seq<Packet>, t: TFrame)
    ensures t in AllFrames(out) <==> Carries(out, t)
  {
    if out != [] {
      var front, last := out[..|out| - 1], out[|out| - 1];
      AllFramesCarried(front, t);
      if Carries(front, t) {
        var i :| 0 <= i < |front| && t in front[i].frames;
        assert t in out[i].frames;
      }
      if t in last.frames {
        assert t in out[|out| - 1].frames;
      }
      if Carries(out, t) && t !in last.frames {
        var i :| 0 <= i < |out| && t in out[i].frames;
        assert t in front[i].frames;
      }
    }
  }

  lemma {:induction false} DueFramesAre(resend: map<int, InFlight>, order: seq<int>, t: TFrame)
    requires forall i :: 0 <= i < |order| ==> order[i] in resend
    ensures t in DueFrames(resend, order) <==> exists i :: 0 <= i < |order| && resend[order[i]].t == t
  {
    if order != [] {
      DueFramesAre(resend, order[1..], t);
      assert forall i :: 0 <= i < |order[1..]| ==> order[1..][i] == order[i + 1];
      if t in DueFrames(resend, order[1..]) {
        var i :| 0 <= i < |order[1..]| && resend[order[1..][i]].t == t;
        assert resend[order[i + 1]].t == t;
      }
      if exists i :: 0 <= i < |order| && resend[order[i]].t == t {
        var i :| 0 <= i < |order| && resend[order[i]].t == t;
        if i > 0 {
          assert resend[order[1..][i - 1]].t == t;
        }
      }
    }
  }

  lemma NumberIsKey(s: Sender, net: Net, n: int)
    requires SenderOk(s, net) && n in s.resend
    ensures s.resend[n].t.f.reliability.IsReliable() && s.resend[n].t.f.reliableNumber == n && 0 <= n < s.nextReliable
  {
    assert SenderInv.Sound(s.log, s.numbered, s.resend[n].t);
  }

  /** The resend pass carries exactly the due frames. */
  lemma ResendFrames(s: Sender, a: Action, mtu: int, net: Net)
    requires SenderOk(s, net) && a.Tick? && Enabled(s, a, mtu) && mtu > UDP_HEADER_SIZE + 9
    ensures AllFrames(Resent(s, a, mtu).out) == DueFrames(s.resend, a.order)
    ensures Resent(s, a, mtu).s.nextReliable == s.nextReliable
  {
    DueAgain(s, a.order);
    assert NetInv(Resending(s, a).s, net);
    ResentUnchanged(Resending(s, a), ResendPass(a, mtu), a.olds, net);
    assert Resent(s, a, mtu).rest == [];
  }

  lemma DueIsCarried(s: Sender, a: Action, mtu: int, net: Net, n: int)
    requires SenderOk(s, net) && a.Tick? && Enabled(s, a, mtu) && mtu > UDP_HEADER_SIZE + 9
    requires n in s.resend && a.now >= s.resend[n].nextAction
    ensures Carries(Resent(s, a, mtu).out, s.resend[n].t)
  {
    ResendFrames(s, a, mtu, net);
    AllFramesCarried(Resent(s, a, mtu).out, s.resend[n].t);
    DueFramesAre(s.resend, a.order, s.resend[n].t);
    assert n in a.order;
    var i :| 0 <= i < |a.order| && a.order[i] == n;
    assert s.resend[a.order[i]].t == s.resend[n].t;
  }

  lemma CarriedIsDue(s: Sender, a: Action, mtu: int, net: Net, t: TFrame)
    requires SenderOk(s, net) && a.Tick? && Enabled(s, a, mtu) && mtu > UDP_HEADER_SIZE + 9
    requires Carries(Resent(s, a, mtu).out, t)
    ensures var n := t.f.reliableNumber; n in s.resend && s.resend[n].t == t && a.now >= s.resend[n].nextAction
  {
    ResendFrames(s, a, mtu, net);
    AllFramesCarried(Resent(s, a, mtu).out, t);
    DueFramesAre(s.resend, a.order, t);
    var i :| 0 <= i < |a.order| && s.resend[a.order[i]].t == t;
    NumberIsKey(s, net, a.order[i]);
  }

  /** New frames carry no number given out before. */
  ghost predicate Above(out: seq<Packet>, next: int) {
    forall i, j :: 0 <= i < |out| && 0 <= j < |out[i].frames| && out[i].frames[j].f.reliability.IsReliable() ==>
                     out[i].frames[j].f.reliableNumber >= next
  }

  lemma {:induction false} NumberedAbove(ts: seq<TFrame>, next: nat)
    requires Unnumbered(ts)
    ensures forall j :: 0 <= j < |ts| && Number(ts, next)[j].f.reliability.IsReliable() ==>
              Number(ts, next)[j].f.reliableNumber >= next
    decreases |ts|
  {
    if ts != [] {
      NumberedAbove(ts[1..], if NeedsNumber(ts[0]) then next + 1 else next);
    }
  }

  lemma {:induction false} PassAbove(p: Packing, c: Pass, olds: seq<int>, next: nat)
    requires Turns(p, c, olds) && p.out == [] && Unnumbered(p.rest) && next <= p.s.nextReliable
    ensures var q := Packed(p, c, olds); Above(q.out, next) && Unnumbered(q.rest) && next <= q.s.nextReliable
    decreases |olds|
  {
    if olds != [] {
      var q := Packed(p, c, olds[..|olds| - 1]);
      var k := Fill(q.rest, c.max, 0);
      PassAbove(p, c, olds[..|olds| - 1], next);
      UnnumberedSplit(q.rest, k);
      NumberedAbove(q.rest[..k], q.s.nextReliable);
    }
  }

  lemma NewAbove(s: Sender, a: Action, mtu: int, net: Net)
    requires SenderOk(s, net) && a.Tick? && Enabled(s, a, mtu) && mtu > UDP_HEADER_SIZE + 9
    ensures Above(Renewed(s, a, mtu).out, s.nextReliable)
  {
    var again := Resent(s, a, mtu);
    ResendFrames(s, a, mtu, net);
    ResentReady(s, a, mtu, net, SenderReach.All());
    DrainedUnnumbered(again.s);
    PassAbove(Drained(again.s), NewPass(a, mtu), a.newOlds, s.nextReliable);
  }

  /** A tick sends a tracked number again, with the frame it was given to, exactly
      when its time has come. */
  lemma TickResends(s: Sender, a: Action, mtu: int, net: Net, n: int)
    requires SenderOk(s, net) && a.Tick? && Enabled(s, a, mtu) && mtu > UDP_HEADER_SIZE + 9 && n in s.resend
    ensures Sends(Emitted(s, a, mtu), n) <==> a.now >= s.resend[n].nextAction
    ensures Carries(Emitted(s, a, mtu), s.resend[n].t) <==> a.now >= s.resend[n].nextAction
  {
    var again, renewed := Resent(s, a, mtu).out, Renewed(s, a, mtu).out;
    var t := s.resend[n].t;
    NumberIsKey(s, net, n);
    NewAbove(s, a, mtu, net);
    if a.now >= s.resend[n].nextAction {
      DueIsCarried(s, a, mtu, net, n);
      var i :| 0 <= i < |again| && t in again[i].frames;
      assert Emitted(s, a, mtu)[i] == again[i];
      var j :| 0 <= j < |again[i].frames| && again[i].frames[j] == t;
    }
    if Carries(Emitted(s, a, mtu), t) {
      var i :| 0 <= i < |Emitted(s, a, mtu)| && t in Emitted(s, a, mtu)[i].frames;
      var j :| 0 <= j < |Emitted(s, a, mtu)[i].frames| && Emitted(s, a, mtu)[i].frames[j] == t;
      assert Sends(Emitted(s, a, mtu), n);
    }
    if Sends(Emitted(s, a, mtu), n) {
      SentIsAgain(again, renewed, n, s.nextReliable);
      var i, j :| 0 <= i < |again| && 0 <= j < |again[i].frames|
                  && again[i].frames[j].f.reliability.IsReliable() && again[i].frames[j].f.reliableNumber == n;
      assert Carries(again, again[i].frames[j]);
      CarriedIsDue(s, a, mtu, net, again[i].frames[j]);
    }
  }

  lemma SentIsAgain(again: seq<Packet>, renewed: seq<Packet>, n: int, next: int)
    requires Sends(again + renewed, n) && Above(renewed, next) && n < next
    ensures Sends(again, n)
  {
    var out := again + renewed;
    var i, j :| 0 <= i < |out| && 0 <= j < |out[i].frames|
                && out[i].frames[j].f.reliability.IsReliable() && out[i].frames[j].f.reliableNumber == n;
    assert i < |again|;
  }

  /** In every run of a new sender a tick sends a tracked number again exactly
      when, after its kth transmission at t under the timeout rto, the time is
      t + rto * 2 ^ min(k - 1, 5) or later, or a NAK has named a datagram that
      carried it since; and it sends the frame the number was given to. */
  lemma ResendsExactly(actions: seq<Action>, a: Action, mtu: int, n: int)
    requires Shaped(NewSender()) && SenderQueue.RunEnabled(NewSender(), actions, mtu) && mtu > UDP_HEADER_SIZE + 9
    requires var s := SenderQueue.Run(NewSender(), actions, mtu); a.Tick? && Enabled(s, a, mtu) && n in s.resend
    ensures var s, log := SenderQueue.Run(NewSender(), actions, mtu), RunLog(NewSender(), actions, mtu);
      (Sends(Emitted(s, a, mtu), n) <==> a.now >= DueAt(log, n))
      && (Carries(Emitted(s, a, mtu), s.resend[n].t) <==> a.now >= DueAt(log, n))
      && Times(log, n) >= 1
  {
    var net := FromNew(actions, mtu);
    TickResends(SenderQueue.Run(NewSender(), actions, mtu), a, mtu, net, n);
  }

  lemma NewIsOk()
    ensures SenderOk(NewSender(), []) && TimerInv(NewSender(), [])
  {
    Transport.NewSenderBlank();
    SenderQueue.NewSenderLine();
    Transport.BlankOk(NewSender());
  }

  /** What every run of a new sender keeps. */
  lemma FromNew(actions: seq<Action>, mtu: int) returns (net: Net)
    requires Shaped(NewSender()) && SenderQueue.RunEnabled(NewSender(), actions, mtu) && mtu > UDP_HEADER_SIZE + 9
    ensures SenderOk(SenderQueue.Run(NewSender(), actions, mtu), net)
    ensures TimerInv(SenderQueue.Run(NewSender(), actions, mtu), RunLog(NewSender(), actions, mtu))
  {
    NewIsOk();
    NewOnTime(actions, mtu);
    SenderReach.RunOk(NewSender(), actions, mtu, []);
    net := SenderReach.RunNet(NewSender(), actions, mtu, []);
  }

  lemma NewOnTime(actions: seq<Action>, mtu: int)
    requires Shaped(NewSender()) && SenderQueue.RunEnabled(NewSender(), actions, mtu) && mtu > UDP_HEADER_SIZE + 9
    ensures TimerInv(SenderQueue.Run(NewSender(), actions, mtu), RunLog(NewSender(), actions, mtu))
  {
    NewIsOk();
    RunOnTime(NewSender(), actions, mtu, [], []);
    EmptyFront(RunLog(NewSender(), actions, mtu));
  }

  lemma EmptyFront(log: Log)
    ensures [] + log == log
  {
  }

  /** The controller hears of a resend in exactly the ticks in which some tracked
      number's time has come. */
  lemma ResendHeard(actions: seq<Action>, a: Action, mtu: int)
    requires Shaped(NewSender()) && SenderQueue.RunEnabled(NewSender(), actions, mtu) && mtu > UDP_HEADER_SIZE + 9
    requires var s := SenderQueue.Run(NewSender(), actions, mtu); a.Tick? && Enabled(s, a, mtu)
    ensures var s, log := SenderQueue.Run(NewSender(), actions, mtu), RunLog(NewSender(), actions, mtu);
      a.order != [] <==> exists n :: n in s.resend && a.now >= DueAt(log, n)
  {
    NewOnTime(actions, mtu);
    DueOrderHas(SenderQueue.Run(NewSender(), actions, mtu), a.now, a.order, RunLog(NewSender(), actions, mtu));
  }

  lemma DueOrderHas(s: Sender, now: real, order: seq<int>, log: Log)
    requires DueOrder(s, now, order) && OnTime(s.resend, log)
    ensures order != [] <==> exists n :: n in s.resend && now >= DueAt(log, n)
  {
    if order != [] {
      var n := order[0];
      assert n in s.resend && now >= DueAt(log, n);
    }
    if exists n :: n in s.resend && now >= DueAt(log, n) {
      var n :| n in s.resend && now >= DueAt(log, n);
      assert n in order;
    }
  }

  /** In every run of a new sender the time of the last reliable send is that of
      the last tick that sent or resent a reliable frame. */
  lemma LastReliableOfRuns(actions: seq<Action>, mtu: int)
    requires Shaped(NewSender()) && SenderQueue.RunEnabled(NewSender(), actions, mtu) && mtu > UDP_HEADER_SIZE + 9
    ensures SenderQueue.Run(NewSender(), actions, mtu).lastReliableSend == LastLeft(RunLog(NewSender(), actions, mtu))
  {
    NewOnTime(actions, mtu);
  }

  // ---------- NAKs ----------

  /** A record named by ns carried the number k. */
  ghost predicate NamedWith(history: map<int, Record>, ns: seq<int>, k: int) {
    exists i :: 0 <= i < |ns| && ns[i] in history && k in history[ns[i]].numbers
  }

  lemma {:induction false} NakExactly(s: Sender, ns: seq<int>, k: int)
    requires k in s.resend
    ensures var s' := NakAll(s, ns);
      s' == s.(resend := s'.resend) && s'.resend.Keys == s.resend.Keys
      && s'.resend[k] == if NamedWith(s.history, ns, k) then s.resend[k].(nextAction := 0.0) else s.resend[k]
    decreases |ns|
  {
    if ns != [] {
      var front, n := ns[..|ns| - 1], ns[|ns| - 1];
      NakExactly(s, front, k);
      NamedSnoc(s.history, front, n, k);
      assert ns == front + [n];
    }
  }

  lemma NamedSnoc(history: map<int, Record>, ns: seq<int>, n: int, k: int)
    ensures NamedWith(history, ns + [n], k) <==> NamedWith(history, ns, k) || (n in history && k in history[n].numbers)
  {
    var all := ns + [n];
    if NamedWith(history, ns, k) {
      var i :| 0 <= i < |ns| && ns[i] in history && k in history[ns[i]].numbers;
      assert all[i] == ns[i];
    }
    if n in history && k in history[n].numbers {
      assert all[|ns|] == n;
    }
    if NamedWith(history, all, k) && !(n in history && k in history[n].numbers) {
      var i :| 0 <= i < |all| && all[i] in history && k in history[all[i]].numbers;
      assert ns[i] == all[i];
    }
  }

  /** A record the packet names, among its first 512 numbers, carried k. */
  ghost predicate ReportedWith(s: Sender, rs: seq<Range>, k: int) {
    exists m :: m in Sending.NamedRecords(s, rs) && k in s.history[m].numbers
  }

  lemma ReportedIsNamed(s: Sender, rs: seq<Range>, k: int)
    requires Sending.Narrow(s, 0)
    ensures ReportedWith(s, rs, k) <==> NamedWith(s.history, Sending.NamedBy(s, rs), k)
  {
    var ns := Sending.NamedBy(s, rs);
    if NamedWith(s.history, ns, k) {
      var i :| 0 <= i < |ns| && ns[i] in s.history && k in s.history[ns[i]].numbers;
      Sending.NamedRecordsAre(s, rs, ns[i]);
      assert ns[i] in Sending.NamedRecords(s, rs);
    }
    if ReportedWith(s, rs, k) {
      var m :| m in Sending.NamedRecords(s, rs) && k in s.history[m].numbers;
      Sending.NamedRecordsAre(s, rs, m);
      var i :| 0 <= i < |ns| && ns[i] == m;
    }
  }

  /** After a NAK packet every tracked frame carried by a record it names (among
      its first 512 numbers) leaves in the next tick, whatever its timer said;
      every other frame keeps its time, and nothing else changes. */
  lemma NakResends(s: Sender, rs: seq<Range>, a: Action, mtu: int, net: Net, k: int)
    requires SenderOk(s, net) && Sending.Narrow(s, 0) && k in s.resend && mtu > UDP_HEADER_SIZE + 9
    requires a.Tick? && a.now >= 0.0 && Enabled(NakAll(s, Sending.NamedBy(s, rs)), a, mtu)
    ensures var s' := NakAll(s, Sending.NamedBy(s, rs));
      s' == s.(resend := s'.resend) && s'.resend.Keys == s.resend.Keys && s'.resend[k].t == s.resend[k].t
      && (ReportedWith(s, rs, k) ==> Carries(Emitted(s', a, mtu), s.resend[k].t))
      && (!ReportedWith(s, rs, k) ==>
            s'.resend[k] == s.resend[k]
            && (Carries(Emitted(s', a, mtu), s.resend[k].t) <==> a.now >= s.resend[k].nextAction))
  {
    NakEffect(s, rs, net, k);
    TickResends(NakAll(s, Sending.NamedBy(s, rs)), a, mtu, net, k);
  }

  lemma NakEffect(s: Sender, rs: seq<Range>, net: Net, k: int)
    requires SenderOk(s, net) && Sending.Narrow(s, 0) && k in s.resend
    ensures var s' := NakAll(s, Sending.NamedBy(s, rs));
      SenderOk(s', net) && s' == s.(resend := s'.resend) && s'.resend.Keys == s.resend.Keys
      && s'.resend[k] == if ReportedWith(s, rs, k) then s.resend[k].(nextAction := 0.0) else s.resend[k]
  {
    NakExactly(s, Sending.NamedBy(s, rs), k);
    ReportedIsNamed(s, rs, k);
    NakOk(s, Sending.NamedBy(s, rs), net, SenderReach.All());
  }
}

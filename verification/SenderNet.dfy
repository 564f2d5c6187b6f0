/** The datagrams a sender has emitted, and what it remembers of them. */
module SenderNet {
  import opened Types
  import opened Tags
  import opened SenderSpec
  import opened SenderQueue
  import opened SenderInv
  import SenderBytes

  /** The frames of every data datagram emitted so far, by number. */
  type Net = seq<seq<TFrame>>

  /** Reliable numbers are consecutive in order of first emission. */
  ghost predicate NumInv(s: Sender) {
    |s.numbered| == s.nextReliable && s.numbered == ReliableOnly(s.log, s.emitted) && Distinct(s.emitted)
    && forall i :: 0 <= i < |s.emitted| ==> s.emitted[i] < |s.log|
  }

  ghost predicate NetSound(log: seq<TFrame>, nums: seq<nat>, net: Net) {
    forall n :: 0 <= n < |net| ==> AllSound(log, nums, net[n])
  }

  ghost predicate NetEmitted(emitted: seq<nat>, net: Net) {
    forall n, i :: 0 <= n < |net| && 0 <= i < |net[n]| ==> Stands(emitted, net[n][i].fid)
  }

  /** An unreliable frame travels in one datagram only. */
  ghost predicate NetOnce(net: Net) {
    forall n, i, m, j ::
      (0 <= n < |net| && 0 <= i < |net[n]| && 0 <= m < |net| && 0 <= j < |net[m]|
       && net[n][i].fid == net[m][j].fid && !IsReliable(net[n][i])) ==> n == m && i == j
  }

  ghost predicate HistoryNet(history: map<int, Record>, net: Net) {
    forall k <- history :: 0 <= k < |net| && history[k].numbers == ReliableNumbers(net[k])
  }

  ghost predicate NetInv(s: Sender, net: Net) {
    |net| == s.sent && NumInv(s) && NetSound(s.log, s.numbered, net) && NetEmitted(s.emitted, net) && NetOnce(net)
    && HistoryNet(s.history, net) && ResendInv(s.log, s.numbered, s.resend)
  }

  /** Every number given out is tracked, or known to be untracked, or done with. */
  ghost predicate Tracked(s: Sender, done: iset<int>) {
    forall n: nat :: n < s.nextReliable ==> n in s.resend || n in s.untracked || n in done
  }

  // ---------- one datagram of new frames ----------

  ghost predicate AllNew(s: Sender, ts: seq<TFrame>) {
    Fresh(s.log, ts) && Distinct(s.emitted + Fids(ts))
  }

  lemma NewNumbers(s: Sender, ts: seq<TFrame>)
    requires NumInv(s) && AllNew(s, ts)
    ensures s.numbered + Newly(ts) == ReliableOnly(s.log, s.emitted + Fids(ts))
    ensures forall i :: 0 <= i < |s.emitted + Fids(ts)| ==> (s.emitted + Fids(ts))[i] < |s.log|
  {
    NewlyIsReliableOnly(s.log, ts);
    ReliableOnlyConcat(s.log, s.emitted, Fids(ts));
    forall i | 0 <= i < |ts|
      ensures Fids(ts)[i] < |s.log|
    {
      FidsAt(ts, i);
    }
  }

  lemma StandsLeft(a: seq<nat>, b: seq<nat>, f: nat)
    requires Stands(a, f)
    ensures Stands(a + b, f)
  {
    var i :| 0 <= i < |a| && a[i] == f;
    assert (a + b)[i] == f;
  }

  lemma StandsRight(a: seq<nat>, b: seq<nat>, i: nat)
    requires i < |b|
    ensures Stands(a + b, b[i])
  {
    assert (a + b)[|a| + i] == b[i];
  }

  lemma NetSoundGrows(log: seq<TFrame>, nums: seq<nat>, log': seq<TFrame>, nums': seq<nat>, net: Net)
    requires NetSound(log, nums, net) && log <= log' && nums <= nums'
    ensures NetSound(log', nums', net)
  {
    forall n, i | 0 <= n < |net| && 0 <= i < |net[n]|
      ensures Sound(log', nums', net[n][i])
    {
      assert AllSound(log, nums, net[n]);
      SoundGrows(log, nums, log', nums', net[n][i]);
    }
  }

  lemma NetEmittedGrows(emitted: seq<nat>, more: seq<nat>, net: Net, frames: seq<TFrame>)
    requires NetEmitted(emitted, net) && Fids(frames) == more
    ensures NetEmitted(emitted + more, net + [frames])
  {
    forall n, i | 0 <= n < |net + [frames]| && 0 <= i < |(net + [frames])[n]|
      ensures Stands(emitted + more, (net + [frames])[n][i].fid)
    {
      if n < |net| {
        StandsLeft(emitted, more, net[n][i].fid);
      } else {
        FidsAt(frames, i);
        StandsRight(emitted, more, i);
      }
    }
  }

  /** Frames not emitted before do not repeat any. */
  lemma NetOnceGrows(emitted: seq<nat>, net: Net, frames: seq<TFrame>)
    requires NetEmitted(emitted, net) && NetOnce(net) && Distinct(emitted + Fids(frames))
    ensures NetOnce(net + [frames])
  {
    forall i | 0 <= i < |frames|
      ensures frames[i].fid == Fids(frames)[i] && !Stands(emitted, frames[i].fid)
    {
      FidsAt(frames, i);
      NotBefore(emitted, Fids(frames), i);
    }
    forall i, j | 0 <= i < |frames| && 0 <= j < |frames| && frames[i].fid == frames[j].fid
      ensures i == j
    {
      SameSpot(emitted, Fids(frames), i, j);
    }
  }

  lemma NotBefore(a: seq<nat>, b: seq<nat>, i: nat)
    requires Distinct(a + b) && i < |b|
    ensures !Stands(a, b[i])
  {
    forall k | 0 <= k < |a|
      ensures a[k] != b[i]
    {
      assert (a + b)[k] != (a + b)[|a| + i];
    }
  }

  lemma SameSpot(a: seq<nat>, b: seq<nat>, i: nat, j: nat)
    requires Distinct(a + b) && i < |b| && j < |b| && b[i] == b[j]
    ensures i == j
  {
    assert (a + b)[|a| + i] == b[i] && (a + b)[|a| + j] == b[j];
  }

  /** Resent frames are reliable. */
  lemma NetOnceAgain(net: Net, frames: seq<TFrame>, log: seq<TFrame>, nums: seq<nat>)
    requires NetOnce(net) && NetSound(log, nums, net) && AllSound(log, nums, frames)
    requires forall i :: 0 <= i < |frames| ==> IsReliable(frames[i])
    ensures NetOnce(net + [frames])
  {
    forall n, i, j | 0 <= n < |net| && 0 <= i < |net[n]| && 0 <= j < |frames| && net[n][i].fid == frames[j].fid
      ensures IsReliable(net[n][i])
    {
      assert AllSound(log, nums, net[n]) && Sound(log, nums, net[n][i]) && Sound(log, nums, frames[j]);
    }
  }

  lemma HistoryGrows(history: map<int, Record>, net: Net, oldest: int, r: Record, frames: seq<TFrame>)
    requires HistoryNet(history, net) && r.numbers == ReliableNumbers(frames)
    ensures HistoryNet(Room(history, oldest)[|net| := r], net + [frames])
  {
  }

  ghost function AfterNew(s: Sender, c: Pass, ts: seq<TFrame>, more: bool, oldest: int): Sender {
    var s' := Emit(s, ts, more, c.now, c.rto, oldest).0;
    s'.(emitted := s'.emitted + Fids(ts))
  }

  lemma EmitNew(s: Sender, net: Net, c: Pass, ts: seq<TFrame>, more: bool, oldest: int)
    requires NetInv(s, net) && AllNew(s, ts)
    ensures NetInv(AfterNew(s, c, ts, more, oldest), net + [Emit(s, ts, more, c.now, c.rto, oldest).1.frames])
  {
    var frames := Number(ts, s.nextReliable);
    var nums := s.numbered + Newly(ts);
    NewNumbers(s, ts);
    NumberSound(s.log, s.numbered, ts);
    NumberFids(ts, s.nextReliable);
    NetSoundGrows(s.log, s.numbered, s.log, nums, net);
    NetEmittedGrows(s.emitted, Fids(ts), net, frames);
    NetOnceGrows(s.emitted, net, frames);
    ResendGrows(s.log, s.numbered, s.log, nums, s.resend);
    TrackKeeps(s.log, nums, s.resend, frames, c.now, c.rto);
    HistoryGrows(s.history, net, oldest, Emit(s, ts, more, c.now, c.rto, oldest).0.history[s.sent], frames);
  }

  /** A resent datagram: sound reliable frames, unchanged. */
  lemma EmitAgain(s: Sender, net: Net, c: Pass, ts: seq<TFrame>, more: bool, oldest: int)
    requires NetInv(s, net) && AllSound(s.log, s.numbered, ts)
    requires forall i :: 0 <= i < |ts| ==> IsReliable(ts[i])
    ensures Emit(s, ts, more, c.now, c.rto, oldest).1.frames == ts
    ensures NetInv(Emit(s, ts, more, c.now, c.rto, oldest).0, net + [ts])
  {
    NumberKeeps(ts, s.nextReliable);
    assert s.numbered + [] == s.numbered;
    NetOnceAgain(net, ts, s.log, s.numbered);
    TrackKeeps(s.log, s.numbered, s.resend, ts, c.now, c.rto);
    HistoryGrows(s.history, net, oldest, Emit(s, ts, more, c.now, c.rto, oldest).0.history[s.sent], ts);
    forall i | 0 <= i < |ts|
      ensures Stands(s.emitted, ts[i].fid)
    {
      var n := ts[i].f.reliableNumber;
      assert Sound(s.log, s.numbered, ts[i]) && s.numbered[n] == ts[i].fid;
      assert Stands(s.numbered, ts[i].fid);
      ReliableOnlyHas(s.log, s.emitted, ts[i].fid);
    }
  }

  lemma EmitTracked(s: Sender, ts: seq<TFrame>, more: bool, now: real, rto: real, oldest: int, done: iset<int>)
    requires Tracked(s, done)
    requires Newly(ts) == [] || forall i :: 0 <= i < |ts| ==> (IsReliable(ts[i]) <==> NeedsNumber(ts[i]))
    ensures Tracked(Emit(s, ts, more, now, rto, oldest).0, done)
  {
    var s' := Emit(s, ts, more, now, rto, oldest).0;
    TrackGrows(s.resend, Number(ts, s.nextReliable), now, rto);
    forall n: nat | s.nextReliable <= n < s'.nextReliable
      ensures n in s'.resend || n in s'.untracked
    {
      NewNumbersCarried(ts, s.nextReliable, n);
    }
  }

  lemma {:induction false} TrackGrows(resend: map<int, InFlight>, ts: seq<TFrame>, now: real, rto: real)
    ensures resend.Keys <= Track(resend, ts, now, rto).Keys
    decreases |ts|
  {
    if ts != [] {
      TrackGrows(TrackOne(resend, ts[0], now, rto), ts[1..], now, rto);
    }
  }

  // ---------- passes ----------

  function FramesOf(out: seq<Packet>): (r: Net)
    ensures |r| == |out|
  {
    if out == [] then [] else FramesOf(out[..|out| - 1]) + [out[|out| - 1].frames]
  }

  lemma FramesOfSnoc(net: Net, out: seq<Packet>, p: Packet)
    ensures net + FramesOf(out + [p]) == net + FramesOf(out) + [p.frames]
  {
    assert (out + [p])[..|out|] == out;
  }

  lemma {:induction false} FramesOfConcat(a: seq<Packet>, b: seq<Packet>)
    ensures FramesOf(a + b) == FramesOf(a) + FramesOf(b)
    decreases |b|
  {
    if b == [] {
      assert a + b == a;
    } else {
      FramesOfConcat(a, b[..|b| - 1]);
      assert (a + b)[..|a + b| - 1] == a + b[..|b| - 1];
    }
  }

  lemma SplitNew(s: Sender, ts: seq<TFrame>, k: nat)
    requires AllNew(s, ts) && k <= |ts|
    ensures AllNew(s, ts[..k])
    ensures Fresh(s.log, ts[k..]) && Distinct(s.emitted + Fids(ts[..k]) + Fids(ts[k..]))
  {
    FidsSplit(ts, k);
    assert s.emitted + Fids(ts[..k]) + Fids(ts[k..]) == s.emitted + Fids(ts);
    DistinctFront(s.emitted + Fids(ts[..k]), Fids(ts[k..]));
  }

  lemma DistinctFront(a: seq<nat>, b: seq<nat>)
    requires Distinct(a + b)
    ensures Distinct(a)
  {
    forall i, j | 0 <= i < j < |a|
      ensures a[i] != a[j]
    {
      assert (a + b)[i] == a[i] && (a + b)[j] == a[j];
    }
  }

  /** One turn over new frames. */
  lemma TurnNew(p: Packing, c: Pass, oldest: int, net: Net)
    requires Going(p, c) && c.limit.Some? && NetInv(p.s, net) && AllNew(p.s, p.rest)
    ensures var q := PackOne(p, c, oldest);
      NetInv(q.s, net + [q.out[|p.out|].frames]) && AllNew(q.s, q.rest)
  {
    var k := Fill(p.rest, c.max, 0);
    SplitNew(p.s, p.rest, k);
    EmitNew(p.s, net, c, p.rest[..k], k < |p.rest|, oldest);
  }

  lemma {:induction false} PassNew(p: Packing, c: Pass, olds: seq<int>, net: Net)
    requires Turns(p, c, olds) && c.limit.Some? && p.out == [] && NetInv(p.s, net) && AllNew(p.s, p.rest)
    ensures var q := Packed(p, c, olds);
      NetInv(q.s, net + FramesOf(q.out)) && AllNew(q.s, q.rest)
    decreases |olds|
  {
    if olds == [] {
      assert net + [] == net;
    } else {
      var q := Packed(p, c, olds[..|olds| - 1]);
      PassNew(p, c, olds[..|olds| - 1], net);
      TurnNew(q, c, olds[|olds| - 1], net + FramesOf(q.out));
      FramesOfSnoc(net, q.out, PackOne(q, c, olds[|olds| - 1]).out[|q.out|]);
    }
  }

  ghost predicate AllAgain(s: Sender, ts: seq<TFrame>) {
    AllSound(s.log, s.numbered, ts) && forall i :: 0 <= i < |ts| ==> IsReliable(ts[i])
  }

  /** One turn over resent frames: they go out as they are. */
  lemma TurnAgain(p: Packing, c: Pass, oldest: int, net: Net)
    requires Going(p, c) && c.limit.None? && NetInv(p.s, net) && AllAgain(p.s, p.rest)
    ensures var q := PackOne(p, c, oldest);
      NetInv(q.s, net + [q.out[|p.out|].frames]) && AllAgain(q.s, q.rest)
      && q.out[|p.out|].frames + q.rest == p.rest && q.s.nextReliable == p.s.nextReliable
  {
    var k := Fill(p.rest, c.max, 0);
    NumberKeeps(p.rest[..k], p.s.nextReliable);
    assert p.s.numbered + [] == p.s.numbered;
    EmitAgain(p.s, net, c, p.rest[..k], k < |p.rest|, oldest);
  }

  lemma {:induction false} PassAgain(p: Packing, c: Pass, olds: seq<int>, net: Net)
    requires Turns(p, c, olds) && c.limit.None? && p.out == [] && NetInv(p.s, net) && AllAgain(p.s, p.rest)
    ensures var q := Packed(p, c, olds);
      NetInv(q.s, net + FramesOf(q.out)) && AllAgain(q.s, q.rest)
    decreases |olds|
  {
    if olds == [] {
      assert net + [] == net;
    } else {
      var q := Packed(p, c, olds[..|olds| - 1]);
      PassAgain(p, c, olds[..|olds| - 1], net);
      TurnAgain(q, c, olds[|olds| - 1], net + FramesOf(q.out));
      FramesOfSnoc(net, q.out, PackOne(q, c, olds[|olds| - 1]).out[|q.out|]);
    }
  }

  function AllFrames(out: seq<Packet>): seq<TFrame> {
    if out == [] then [] else AllFrames(out[..|out| - 1]) + out[|out| - 1].frames
  }

  lemma AllFramesSnoc(out: seq<Packet>, p: Packet, rest: seq<TFrame>)
    ensures AllFrames(out + [p]) + rest == AllFrames(out) + (p.frames + rest)
  {
    assert (out + [p])[..|out|] == out;
    assert AllFrames(out) + p.frames + rest == AllFrames(out) + (p.frames + rest);
  }

  /** A resend pass sends every due frame again, in order, number and all. */
  lemma {:induction false} ResentUnchanged(p: Packing, c: Pass, olds: seq<int>, net: Net)
    requires Turns(p, c, olds) && c.limit.None? && p.out == [] && NetInv(p.s, net) && AllAgain(p.s, p.rest)
    ensures var q := Packed(p, c, olds);
      AllFrames(q.out) + q.rest == p.rest && q.s.nextReliable == p.s.nextReliable
    decreases |olds|
  {
    if olds != [] {
      var front := olds[..|olds| - 1];
      var q := Packed(p, c, front);
      ResentUnchanged(p, c, front, net);
      PassAgain(p, c, front, net);
      TurnAgain(q, c, olds[|olds| - 1], net + FramesOf(q.out));
      var q' := PackOne(q, c, olds[|olds| - 1]);
      AllFramesSnoc(q.out, q'.out[|q.out|], q'.rest);
    }
  }

  ghost predicate CleanTurn(p: Packing) {
    (forall i :: 0 <= i < |p.rest| ==> (IsReliable(p.rest[i]) <==> NeedsNumber(p.rest[i])))
    || forall i :: 0 <= i < |p.rest| ==> !NeedsNumber(p.rest[i])
  }

  lemma {:induction false} PassTracked(p: Packing, c: Pass, olds: seq<int>, done: iset<int>)
    requires Turns(p, c, olds) && CleanTurn(p) && Tracked(p.s, done)
    ensures Tracked(Packed(p, c, olds).s, done) && CleanTurn(Packed(p, c, olds))
    decreases |olds|
  {
    if olds != [] {
      PassTracked(p, c, olds[..|olds| - 1], done);
      var q := Packed(p, c, olds[..|olds| - 1]);
      var k := Fill(q.rest, c.max, 0);
      if forall i :: 0 <= i < |q.rest| ==> !NeedsNumber(q.rest[i]) {
        NumberKeeps(q.rest[..k], q.s.nextReliable);
      }
      EmitTracked(q.s, q.rest[..k], k < |q.rest|, c.now, c.rto, olds[|olds| - 1], done);
    }
  }

  // ---------- steps ----------

  ghost predicate SenderOk(s: Sender, net: Net) {
    LineInv(s) && LogInv(s.msgs, s.log) && KeysInv(s) && NetInv(s, net)
  }

  /** What was recorded stays recorded. */
  predicate Extends(a: Sender, b: Sender) {
    a.msgs <= b.msgs && a.log <= b.log && a.numbered <= b.numbered
  }

  lemma SubmitOk(s: Sender, a: Action, mtu: int, net: Net)
    requires SenderOk(s, net) && a.Submit? && Enabled(s, a, mtu)
    ensures SenderOk(Act(s, a, mtu), net) && Extends(s, Act(s, a, mtu))
    ensures forall done: iset<int> :: Tracked(s, done) ==> Tracked(Act(s, a, mtu), done)
  {
    SubmitLine(s, a, mtu, 0);
    SubmitRecorded(s, a, mtu, net);
    if 0 <= a.ch < NUMBER_OF_ORDERED_STREAMS {
      SubmitNet(s, Act(s, a, mtu), net);
    }
  }

  lemma SubmitRecorded(s: Sender, a: Action, mtu: int, net: Net)
    requires SenderOk(s, net) && a.Submit? && Enabled(s, a, mtu)
    ensures var s' := Act(s, a, mtu);
      LogInv(s'.msgs, s'.log) && KeysInv(s') && Extends(s, s')
      && s'.numbered == s.numbered && s'.emitted == s.emitted && s'.sent == s.sent && s'.nextReliable == s.nextReliable
      && s'.resend == s.resend && s'.history == s.history && s'.untracked == s.untracked
  {
    if 0 <= a.ch < NUMBER_OF_ORDERED_STREAMS {
      var m := NewMessage(s, a.data, a.rel, a.ch, mtu);
      NewMessageWellMade(s, a.data, a.rel, a.ch, mtu);
      EnqueueFromLog(Accepted(s, m), |s.msgs|, m, 0, a.priority);
      LogAppend(s.msgs, s.log, m);
      AcceptedKeys(s, a.data, a.rel, a.ch, mtu);
      KeysSame(Accepted(s, m), Act(s, a, mtu));
    }
  }

  lemma SubmitNet(s: Sender, s': Sender, net: Net)
    requires NetInv(s, net) && s.log <= s'.log && s'.numbered == s.numbered && s'.emitted == s.emitted
    requires s'.sent == s.sent && s'.nextReliable == s.nextReliable && s'.resend == s.resend && s'.history == s.history
    ensures NetInv(s', net)
  {
    ReliableOnlyGrows(s.log, s'.log, s.emitted);
    NetSoundGrows(s.log, s.numbered, s'.log, s'.numbered, net);
    ResendGrows(s.log, s.numbered, s'.log, s'.numbered, s.resend);
  }

  lemma {:induction false} FramesFresh(s: Sender, queue: seq<Queued>)
    requires LogInv(s.msgs, s.log) && forall e <- queue :: e.t.fid < |s.log| && e.t == s.log[e.t.fid]
    ensures Fresh(s.log, Frames(queue))
  {
    if queue != [] {
      var t := queue[0].t;
      assert queue[0] in queue && forall e <- queue[1..] :: e in queue;
      LogAt(s.msgs, s.log, t.fid);
      FramesFresh(s, queue[1..]);
      assert Frames(queue)[1..] == Frames(queue[1..]);
      forall i | 0 <= i < |Frames(queue)|
        ensures var u := Frames(queue)[i]; u.fid < |s.log| && u == s.log[u.fid] && (IsReliable(u) <==> NeedsNumber(u))
      {
        if i > 0 {
          assert Frames(queue)[i] == Frames(queue[1..])[i - 1];
        }
      }
    }
  }

  lemma DrainedNew(s: Sender)
    requires LineInv(s) && LogInv(s.msgs, s.log)
    ensures AllNew(Drained(s).s, Drained(s).rest)
  {
    FramesFresh(s, s.queue);
    FidsFrames(s.queue);
    var line := Line(s);
    forall i, j | 0 <= i < j < |line|
      ensures line[i] != line[j]
    {
    }
  }

  lemma {:induction false} DueAgain(s: Sender, order: seq<int>)
    requires ResendInv(s.log, s.numbered, s.resend) && forall i :: 0 <= i < |order| ==> order[i] in s.resend
    ensures AllAgain(s, DueFrames(s.resend, order))
  {
    if order != [] {
      var n := order[0];
      assert n in s.resend && Sound(s.log, s.numbered, s.resend[n].t) && IsReliable(s.resend[n].t);
      DueAgain(s, order[1..]);
      AllSoundCons(s.log, s.numbered, s.resend[n].t, DueFrames(s.resend, order[1..]));
    }
  }

  lemma AgainClean(s: Sender, ts: seq<TFrame>)
    requires AllAgain(s, ts)
    ensures forall i :: 0 <= i < |ts| ==> !NeedsNumber(ts[i])
  {
    forall i | 0 <= i < |ts|
      ensures !NeedsNumber(ts[i])
    {
      assert Sound(s.log, s.numbered, ts[i]);
    }
  }

  /** The resend pass of a tick. */
  lemma ResentOk(s: Sender, a: Action, mtu: int, net: Net, done: iset<int>)
    requires SenderOk(s, net) && a.Tick? && Enabled(s, a, mtu) && Tracked(s, done)
    ensures var q := Resent(s, a, mtu);
      SameLine(s, q.s) && SameQueue(s, q.s) && NetInv(q.s, net + FramesOf(q.out)) && Tracked(q.s, done)
      && s.numbered == q.s.numbered
  {
    var p := Resending(s, a);
    DueAgain(s, a.order);
    AgainClean(s, p.rest);
    PassMoves(p, ResendPass(a, mtu), a.olds);
    assert NetInv(p.s, net);
    PassAgain(p, ResendPass(a, mtu), a.olds, net);
    PassTracked(p, ResendPass(a, mtu), a.olds, done);
  }

  /** The pass over new frames, and what it puts back. */
  lemma RenewedOk(s: Sender, c: Pass, olds: seq<int>, net: Net, done: iset<int>)
    requires LineInv(s) && LogInv(s.msgs, s.log) && NetInv(s, net) && Tracked(s, done)
    requires c.limit.Some? && Passes(Drained(s), c, olds)
    ensures var q := Packed(Drained(s), c, olds);
      NetInv(Finish(q, c), net + FramesOf(q.out)) && Tracked(Finish(q, c), done) && s.numbered <= Finish(q, c).numbered
      && s.msgs == Finish(q, c).msgs && s.log == Finish(q, c).log
      && s.nextOrdering == Finish(q, c).nextOrdering && s.nextSequencing == Finish(q, c).nextSequencing
  {
    var p := Drained(s);
    var q := Packed(p, c, olds);
    DrainedNew(s);
    PassNew(p, c, olds, net);
    PassTracked(p, c, olds, done);
    PassMoves(p, c, olds);
    RequeueOnly(q.s, q.rest);
    NumberedGrows(p, c, olds);
  }

  lemma {:induction false} NumberedGrows(p: Packing, c: Pass, olds: seq<int>)
    requires Turns(p, c, olds)
    ensures p.s.numbered <= Packed(p, c, olds).s.numbered
    decreases |olds|
  {
    if olds != [] {
      NumberedGrows(p, c, olds[..|olds| - 1]);
    }
  }

  lemma KeysSame(a: Sender, b: Sender)
    requires KeysInv(a) && Shaped(b) && a.msgs == b.msgs
    requires a.nextOrdering == b.nextOrdering && a.nextSequencing == b.nextSequencing
    ensures KeysInv(b)
  {
  }

  lemma NetAssoc(net: Net, a: seq<Packet>, b: seq<Packet>)
    ensures net + FramesOf(a) + FramesOf(b) == net + FramesOf(a + b)
  {
    FramesOfConcat(a, b);
  }

  /** Both passes of a tick, one after the other. */
  lemma TickParts(s: Sender, a: Action, mtu: int, net: Net, done: iset<int>)
    requires SenderOk(s, net) && a.Tick? && Enabled(s, a, mtu) && Tracked(s, done)
    ensures var again, renewed := Resent(s, a, mtu), Renewed(s, a, mtu);
      var s' := Finish(renewed, NewPass(a, mtu));
      NetInv(s', net + FramesOf(again.out) + FramesOf(renewed.out)) && Tracked(s', done) && s.numbered <= s'.numbered
  {
    var again := Resent(s, a, mtu);
    ResentReady(s, a, mtu, net, done);
    RenewedOk(again.s, NewPass(a, mtu), a.newOlds, net + FramesOf(again.out), done);
  }

  /** After the resends the sender is ready for the pass over new frames. */
  lemma ResentReady(s: Sender, a: Action, mtu: int, net: Net, done: iset<int>)
    requires SenderOk(s, net) && a.Tick? && Enabled(s, a, mtu) && Tracked(s, done)
    ensures var again := Resent(s, a, mtu);
      LineInv(again.s) && LogInv(again.s.msgs, again.s.log) && NetInv(again.s, net + FramesOf(again.out))
      && Tracked(again.s, done) && s.numbered == again.s.numbered
  {
    ResentOk(s, a, mtu, net, done);
    LineSame(s, Resent(s, a, mtu).s);
  }

  lemma LineSame(s: Sender, s': Sender)
    requires LineInv(s) && SameLine(s, s')
    ensures LineInv(s')
  {
  }

  lemma TickNet(s: Sender, a: Action, mtu: int, net: Net, done: iset<int>)
    requires SenderOk(s, net) && a.Tick? && Enabled(s, a, mtu) && Tracked(s, done)
    ensures var s' := Act(s, a, mtu);
      NetInv(s', net + FramesOf(Emitted(s, a, mtu))) && Tracked(s', done) && s.numbered <= s'.numbered
  {
    TickParts(s, a, mtu, net, done);
    NetAssoc(net, Resent(s, a, mtu).out, Renewed(s, a, mtu).out);
  }

  /** A tick records no message. */
  lemma TickFields(s: Sender, a: Action, mtu: int)
    requires Shaped(s) && a.Tick? && Enabled(s, a, mtu)
    ensures SameRecords(s, Act(s, a, mtu))
  {
    RenewedFields(s, a, mtu);
    RequeueOnly(Renewed(s, a, mtu).s, Renewed(s, a, mtu).rest);
  }

  predicate SameRecords(s: Sender, s': Sender) {
    s.msgs == s'.msgs && s.log == s'.log && s.nextOrdering == s'.nextOrdering && s.nextSequencing == s'.nextSequencing
  }

  lemma ResentFields(s: Sender, a: Action, mtu: int)
    requires Shaped(s) && a.Tick? && Enabled(s, a, mtu)
    ensures SameRecords(s, Resent(s, a, mtu).s)
  {
    PassMoves(Resending(s, a), ResendPass(a, mtu), a.olds);
  }

  lemma RenewedFields(s: Sender, a: Action, mtu: int)
    requires Shaped(s) && a.Tick? && Enabled(s, a, mtu)
    ensures SameRecords(s, Renewed(s, a, mtu).s)
  {
    ResentFields(s, a, mtu);
    PassMoves(Drained(Resent(s, a, mtu).s), NewPass(a, mtu), a.newOlds);
  }

  lemma TickOk(s: Sender, a: Action, mtu: int, net: Net, done: iset<int>)
    requires SenderOk(s, net) && a.Tick? && Enabled(s, a, mtu) && mtu > UDP_HEADER_SIZE + 9 && Tracked(s, done)
    ensures var s' := Act(s, a, mtu);
      SenderOk(s', net + FramesOf(Emitted(s, a, mtu))) && Extends(s, s') && Tracked(s', done)
  {
    TickNet(s, a, mtu, net, done);
    TickFields(s, a, mtu);
    TickLine(s, a, mtu);
    KeysSame(s, Act(s, a, mtu));
  }

  lemma AckOk(s: Sender, ns: seq<int>, net: Net, done: iset<int>)
    requires SenderOk(s, net) && Tracked(s, done)
    requires forall k <- SenderBytes.NumbersOf(s.history, ns) :: k in done
    ensures SenderOk(AckAll(s, ns), net) && Tracked(AckAll(s, ns), done) && Extends(s, AckAll(s, ns))
  {
    SenderBytes.AckRemovesExactly(s, ns);
    AckAllLine(s, ns);
    AckKeepsRest(s, ns);
  }

  lemma {:induction false} AckKeepsRest(s: Sender, ns: seq<int>)
    ensures var a := AckAll(s, ns);
      Unqueued(s, a.(resend := s.resend, history := s.history))
    ensures var b := NakAll(s, ns);
      Unqueued(s, b.(resend := s.resend)) && b.resend.Keys == s.resend.Keys
      && forall n <- s.resend :: b.resend[n].t == s.resend[n].t
  {
    if ns != [] {
      AckKeepsRest(s, ns[..|ns| - 1]);
    }
  }

  lemma NakOk(s: Sender, ns: seq<int>, net: Net, done: iset<int>)
    requires SenderOk(s, net) && Tracked(s, done)
    ensures SenderOk(NakAll(s, ns), net) && Tracked(NakAll(s, ns), done) && Extends(s, NakAll(s, ns))
  {
    AckAllLine(s, ns);
    AckKeepsRest(s, ns);
  }
}

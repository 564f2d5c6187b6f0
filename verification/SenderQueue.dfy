/** The discipline of the send queue: every queued frame leaves exactly once,
    frames of one priority leave in send order, and a frame left over by a tick
    is never overtaken (_reliability.py:254-262, 309-313, 394-426). */
module SenderQueue {
  import opened Types
  import opened WireFormat
  import opened Tags
  import opened SenderSpec

  // ---------- the priority heap ----------

  ghost predicate Sorted(queue: seq<Queued>) {
    forall i, j :: 0 <= i < j < |queue| ==> QueuedLess(queue[i], queue[j])
  }

  /** Where e enters the queue. */
  function Rank(queue: seq<Queued>, e: Queued): (k: nat)
    ensures k <= |queue|
    ensures forall i :: 0 <= i < k ==> !QueuedLess(e, queue[i])
    ensures k < |queue| ==> QueuedLess(e, queue[k])
  {
    if queue == [] || QueuedLess(e, queue[0]) then 0 else 1 + Rank(queue[1..], e)
  }

  lemma {:induction false} PushAt(queue: seq<Queued>, e: Queued)
    ensures Push(queue, e) == queue[..Rank(queue, e)] + [e] + queue[Rank(queue, e)..]
  {
    if queue != [] && !QueuedLess(e, queue[0]) {
      PushAt(queue[1..], e);
      var k := Rank(queue[1..], e);
      assert queue[..k + 1] == [queue[0]] + queue[1..][..k];
      assert queue[k + 1..] == queue[1..][k..];
    }
  }

  /** The counter is new: no entry ties with e. */
  lemma PushSorted(queue: seq<Queued>, e: Queued)
    requires Sorted(queue) && forall x <- queue :: x.counter < e.counter
    ensures Sorted(Push(queue, e))
  {
    PushAt(queue, e);
    var k := Rank(queue, e);
    forall i | 0 <= i < k
      ensures QueuedLess(queue[i], e)
    {
      assert queue[i] in queue;
    }
    forall i | k <= i < |queue|
      ensures QueuedLess(e, queue[i])
    {
      assert i == k || QueuedLess(queue[k], queue[i]);
    }
  }

  /** The weight the nth message of a priority gets. */
  function NthWeight(p: nat, n: nat): nat
    requires p < PRIORITIES
  {
    if n == 0 then InitialWeight(p) else NthWeight(p, n - 1) + WeightStep(p)
  }

  lemma {:induction false} WeightsGrowEvenly(p: nat, n: nat)
    requires p < PRIORITIES
    ensures NthWeight(p, n) == [0, 3, 10, 27][p] + n * [1, 5, 14, 35][p]
  {
    if n > 0 {
      WeightsGrowEvenly(p, n - 1);
    }
  }

  function CountOf(prios: seq<nat>, p: nat): nat {
    if prios == [] then 0 else CountOf(prios[..|prios| - 1], p) + (if prios[|prios| - 1] == p then 1 else 0)
  }

  /** Each priority's next weight counts the frames it has queued. */
  ghost predicate WeightsInv(s: Sender) {
    Shaped(s) && forall p: nat :: p < PRIORITIES ==> s.weights[p] == NthWeight(p, CountOf(s.prios, p))
  }

  lemma EnqueueWeights(s: Sender, mid: nat, f: MessageFrame, p: nat)
    requires WeightsInv(s) && p < PRIORITIES
    ensures WeightsInv(Enqueue(s, mid, f, p))
  {
    assert (s.prios + [p])[..|s.prios|] == s.prios;
  }

  /** The nth weight of IMMEDIATE passes the first of LOW from n = 28 on. */
  lemma WeightsCross(n: nat)
    ensures NthWeight(0, n) > NthWeight(3, 0) <==> n >= 28
  {
    WeightsGrowEvenly(0, n);
    WeightsGrowEvenly(3, 0);
  }

  /** IMMEDIATE does not always go first: with nothing sent at LOW before, the
      next IMMEDIATE frame is queued behind the next LOW one exactly when at
      least 28 IMMEDIATE frames have been queued, ever. */
  lemma ImmediateYields(s: Sender, mid: nat, f: MessageFrame, g: MessageFrame)
    requires WeightsInv(s) && CountOf(s.prios, 3) == 0
    ensures QueuedLess(Entry(Enqueue(s, mid, f, 0), mid + 1, g, 3), Entry(s, mid, f, 0)) <==> CountOf(s.prios, 0) >= 28
  {
    WeightsCross(CountOf(s.prios, 0));
    WeightsGrowEvenly(0, CountOf(s.prios, 0));
    assert s.weights[0] == NthWeight(0, CountOf(s.prios, 0)) && s.weights[3] == NthWeight(3, 0);
  }

  lemma {:induction false} EnqueueFromWeights(s: Sender, mid: nat, m: Message, i: nat, p: nat)
    requires WeightsInv(s) && p < PRIORITIES && i <= |m.pieces|
    ensures WeightsInv(EnqueueFrom(s, mid, m, i, p))
    decreases |m.pieces| - i
  {
    if i < |m.pieces| {
      EnqueueWeights(s, mid, NewFrame(m, i), p);
      EnqueueFromWeights(Enqueue(s, mid, NewFrame(m, i), p), mid, m, i + 1, p);
    }
  }

  lemma SameWeights(s: Sender, s': Sender)
    requires WeightsInv(s) && Shaped(s') && s'.weights == s.weights && s'.prios == s.prios
    ensures WeightsInv(s')
  {
  }

  /** In every run the next weight of a priority is determined by how many
      frames of it were ever queued. */
  lemma ActWeights(s: Sender, a: Action, mtu: int)
    requires WeightsInv(s) && Enabled(s, a, mtu) && Shaped(Act(s, a, mtu))
    ensures WeightsInv(Act(s, a, mtu))
  {
    match a
    case Submit(data, rel, ch, p) =>
      if 0 <= ch < NUMBER_OF_ORDERED_STREAMS {
        var m := NewMessage(s, data, rel, ch, mtu);
        SameWeights(s, Accepted(s, m));
        EnqueueFromWeights(Accepted(s, m), |s.msgs|, m, 0, p);
      }
    case Tick(_, _, _, _, _, _, _) =>
      PassMoves(Resending(s, a), ResendPass(a, mtu), a.olds);
      PassMoves(Drained(Resent(s, a, mtu).s), NewPass(a, mtu), a.newOlds);
      RequeueOnly(Renewed(s, a, mtu).s, Renewed(s, a, mtu).rest);
      SameWeights(s, Act(s, a, mtu));
    case Acked(ns) =>
      AckAllLine(s, ns);
      SameWeights(s, Act(s, a, mtu));
    case Nakked(ns) =>
      AckAllLine(s, ns);
      SameWeights(s, Act(s, a, mtu));
  }

  lemma {:induction false} RunWeights(s: Sender, actions: seq<Action>, mtu: int)
    requires WeightsInv(s) && RunEnabled(s, actions, mtu)
    ensures WeightsInv(Run(s, actions, mtu))
    decreases |actions|
  {
    if actions != [] {
      ActWeights(s, actions[0], mtu);
      RunWeights(Act(s, actions[0], mtu), actions[1..], mtu);
    }
  }

  /** In every run of a new sender the next weight of a priority is start plus
      step times the number of its frames queued so far. */
  lemma WeightsOfRuns(actions: seq<Action>, mtu: int, p: nat)
    requires Shaped(NewSender()) && RunEnabled(NewSender(), actions, mtu) && p < PRIORITIES
    ensures var s := Run(NewSender(), actions, mtu);
      |s.weights| == PRIORITIES && s.weights[p] == [0, 3, 10, 27][p] + CountOf(s.prios, p) * [1, 5, 14, 35][p]
  {
    NewSenderWeights();
    RunWeights(NewSender(), actions, mtu);
    WeightsGrowEvenly(p, CountOf(Run(NewSender(), actions, mtu).prios, p));
  }

  lemma NewSenderWeights()
    ensures WeightsInv(NewSender())
  {
    assert NewSender().prios == [];
    forall p: nat | p < PRIORITIES
      ensures NewSender().weights[p] == NthWeight(p, 0)
    {
    }
  }

  // ---------- the line ----------

  function Waiting(queue: seq<Queued>): (r: seq<nat>)
    ensures |r| == |queue| && forall i :: 0 <= i < |queue| ==> r[i] == queue[i].t.fid
  {
    seq(|queue|, i requires 0 <= i < |queue| => queue[i].t.fid)
  }

  /** Every frame ever queued: those emitted, in order, then those waiting, in heap order. */
  function Line(s: Sender): seq<nat> {
    s.emitted + Waiting(s.queue)
  }

  /** Entries stand for logged frames and carry weights already given out. */
  ghost predicate QueueInv(s: Sender) {
    Shaped(s) && |s.prios| == |s.log| && (forall i :: 0 <= i < |s.prios| ==> s.prios[i] < PRIORITIES) && Sorted(s.queue)
    && (forall e <- s.queue :: e.counter <= s.counter)
    && (forall e <- s.queue :: e.t.fid < |s.log| && e.t == s.log[e.t.fid] && e.weight <= s.weights[s.prios[e.t.fid]])
  }

  ghost predicate Stands(line: seq<nat>, f: nat) {
    exists i :: 0 <= i < |line| && line[i] == f
  }

  /** Each of 0 .. n-1 stands in the line exactly once. */
  ghost predicate Permutation(line: seq<nat>, n: nat) {
    |line| == n && (forall i :: 0 <= i < n ==> line[i] < n) && (forall i, j :: 0 <= i < j < n ==> line[i] != line[j])
    && (forall f: nat :: f < n ==> Stands(line, f))
  }

  /** Frames of one priority stand in the order they were queued. */
  ghost predicate Fifo(line: seq<nat>, prios: seq<nat>) {
    forall i, j :: 0 <= i < j < |line| && line[i] < |prios| && line[j] < |prios| && prios[line[i]] == prios[line[j]]
      ==> line[i] < line[j]
  }

  ghost predicate LineInv(s: Sender) {
    QueueInv(s) && Permutation(Line(s), |s.log|) && Fifo(Line(s), s.prios)
  }

  lemma InsertStands(line: seq<nat>, k: nat, x: nat, f: nat)
    requires k <= |line| && (f == x || Stands(line, f))
    ensures Stands(line[..k] + [x] + line[k..], f)
  {
    var after := line[..k] + [x] + line[k..];
    if f == x {
      assert after[k] == f;
    } else {
      var i :| 0 <= i < |line| && line[i] == f;
      assert after[if i < k then i else i + 1] == f;
    }
  }

  /** A new frame goes in at place k, with none of its priority behind. */
  lemma InsertLine(line: seq<nat>, k: nat, prios: seq<nat>, p: nat)
    requires Permutation(line, |prios|) && Fifo(line, prios) && k <= |line|
    requires forall i :: k <= i < |line| ==> prios[line[i]] != p
    ensures Permutation(line[..k] + [|prios|] + line[k..], |prios| + 1)
    ensures Fifo(line[..k] + [|prios|] + line[k..], prios + [p])
  {
    forall f: nat | f < |prios| + 1
      ensures Stands(line[..k] + [|prios|] + line[k..], f)
    {
      InsertStands(line, k, |prios|, f);
    }
  }

  lemma WaitingInsert(queue: seq<Queued>, e: Queued, k: nat)
    requires k <= |queue|
    ensures Waiting(queue[..k] + [e] + queue[k..]) == Waiting(queue)[..k] + [e.t.fid] + Waiting(queue)[k..]
  {
    var q := queue[..k] + [e] + queue[k..];
    var a, b := Waiting(q), Waiting(queue)[..k] + [e.t.fid] + Waiting(queue)[k..];
    assert |a| == |b|;
    forall i | 0 <= i < |a|
      ensures a[i] == b[i]
    {
      assert a[i] == q[i].t.fid;
    }
  }

  /** The entry a new frame of priority p gets, and its place in the line. */
  function Entry(s: Sender, mid: nat, f: MessageFrame, p: nat): Queued
    requires Shaped(s) && p < PRIORITIES
  {
    Queued(s.weights[p], s.counter + 1, TFrame(|s.log|, mid, f))
  }

  function Slot(s: Sender, mid: nat, f: MessageFrame, p: nat): nat
    requires Shaped(s) && p < PRIORITIES
  {
    |s.emitted| + Rank(s.queue, Entry(s, mid, f, p))
  }

  lemma EnqueueLine(s: Sender, mid: nat, f: MessageFrame, p: nat)
    requires Shaped(s) && p < PRIORITIES
    ensures Slot(s, mid, f, p) <= |Line(s)|
    ensures Line(Enqueue(s, mid, f, p)) == Line(s)[..Slot(s, mid, f, p)] + [|s.log|] + Line(s)[Slot(s, mid, f, p)..]
  {
    var e := Entry(s, mid, f, p);
    var k := Rank(s.queue, e);
    PushAt(s.queue, e);
    WaitingInsert(s.queue, e, k);
    InsertBehind(s.emitted, Waiting(s.queue), k, |s.log|);
  }

  lemma InsertBehind(a: seq<nat>, w: seq<nat>, k: nat, x: nat)
    requires k <= |w|
    ensures a + (w[..k] + [x] + w[k..]) == (a + w)[..|a| + k] + [x] + (a + w)[|a| + k..]
  {
  }

  /** It goes behind all frames of its priority. */
  lemma BehindOwn(s: Sender, mid: nat, f: MessageFrame, p: nat, i: nat)
    requires QueueInv(s) && p < PRIORITIES && Slot(s, mid, f, p) <= i < |Line(s)|
    ensures Line(s)[i] < |s.prios| && s.prios[Line(s)[i]] != p
  {
    var x := s.queue[i - |s.emitted|];
    assert x in s.queue;
    assert Line(s)[i] == x.t.fid;
    Later(s.queue, Entry(s, mid, f, p), i - |s.emitted|);
  }

  lemma Later(queue: seq<Queued>, e: Queued, i: nat)
    requires Sorted(queue) && Rank(queue, e) <= i < |queue|
    ensures QueuedLess(e, queue[i])
  {
  }

  /** Queueing a frame inserts it into the line, behind all of its priority. */
  lemma EnqueueKeeps(s: Sender, mid: nat, f: MessageFrame, p: nat)
    requires LineInv(s) && p < PRIORITIES
    ensures LineInv(Enqueue(s, mid, f, p))
  {
    EnqueueLine(s, mid, f, p);
    forall i | Slot(s, mid, f, p) <= i < |Line(s)|
      ensures s.prios[Line(s)[i]] != p
    {
      BehindOwn(s, mid, f, p, i);
    }
    InsertLine(Line(s), Slot(s, mid, f, p), s.prios, p);
    EnqueueQueueInv(s, mid, f, p);
  }

  lemma EnqueueQueueInv(s: Sender, mid: nat, f: MessageFrame, p: nat)
    requires QueueInv(s) && p < PRIORITIES
    ensures QueueInv(Enqueue(s, mid, f, p))
  {
    var s' := Enqueue(s, mid, f, p);
    var e := Entry(s, mid, f, p);
    PushAt(s.queue, e);
    PushSorted(s.queue, e);
    forall x | x in s'.queue
      ensures x.counter <= s'.counter && x.t.fid < |s'.log| && x.t == s'.log[x.t.fid]
      ensures x.weight <= s'.weights[s'.prios[x.t.fid]]
    {
      if x != e {
        assert x in s.queue;
      }
    }
  }

  // ---------- requeueing ----------

  /** All weights are 0: what a tick leaves behind. */
  ghost predicate Settled(queue: seq<Queued>) {
    forall e <- queue :: e.weight == 0
  }

  lemma {:induction false} FidsFrames(queue: seq<Queued>)
    ensures Fids(Frames(queue)) == Waiting(queue)
  {
    if queue != [] {
      FidsFrames(queue[1..]);
      assert Waiting(queue) == [queue[0].t.fid] + Waiting(queue[1..]);
    }
  }

  lemma {:induction false} FidsAt(ts: seq<TFrame>, i: nat)
    requires i < |ts|
    ensures Fids(ts)[i] == ts[i].fid
  {
    if i > 0 {
      FidsAt(ts[1..], i - 1);
    }
  }

  lemma FidsSplit(ts: seq<TFrame>, k: nat)
    requires k <= |ts|
    ensures Fids(ts[..k]) + Fids(ts[k..]) == Fids(ts)
  {
    forall i | 0 <= i < |ts|
      ensures (Fids(ts[..k]) + Fids(ts[k..]))[i] == Fids(ts)[i]
    {
      FidsAt(ts, i);
      if i < k {
        FidsAt(ts[..k], i);
      } else {
        FidsAt(ts[k..], i - k);
      }
    }
  }

  /** The frames in rest stand for logged ones. */
  ghost predicate Logged(s: Sender, ts: seq<TFrame>) {
    forall t <- ts :: t.fid < |s.log| && t == s.log[t.fid]
  }

  function RequeueOne(s: Sender, t: TFrame): Sender {
    s.(counter := s.counter + 1, queue := Push(s.queue, Queued(0, s.counter + 1, t)))
  }

  lemma RequeueStep(s: Sender, t: TFrame)
    requires QueueInv(s) && Settled(s.queue) && t.fid < |s.log| && t == s.log[t.fid]
    ensures QueueInv(RequeueOne(s, t)) && Settled(RequeueOne(s, t).queue)
    ensures Waiting(RequeueOne(s, t).queue) == Waiting(s.queue) + [t.fid]
  {
    var e := Queued(0, s.counter + 1, t);
    AppendSettled(s.queue, e);
    PushSorted(s.queue, e);
    AppendedInv(s, e);
    WaitingSnoc(s.queue, e);
  }

  /** A settled queue takes an entry of weight 0 at its end. */
  lemma AppendedInv(s: Sender, e: Queued)
    requires QueueInv(s) && Settled(s.queue) && e.weight == 0 && e.counter == s.counter + 1 && Sorted(s.queue + [e])
    requires e.t.fid < |s.log| && e.t == s.log[e.t.fid]
    ensures var s' := s.(counter := e.counter, queue := s.queue + [e]); QueueInv(s') && Settled(s'.queue)
  {
    assert forall x <- s.queue + [e] :: x in s.queue || x == e;
  }

  lemma WaitingSnoc(queue: seq<Queued>, e: Queued)
    ensures Waiting(queue + [e]) == Waiting(queue) + [e.t.fid]
  {
  }

  /** Requeueing onto a settled queue appends, in order. */
  lemma {:induction false} RequeueKeeps(s: Sender, ts: seq<TFrame>)
    requires QueueInv(s) && Settled(s.queue) && Logged(s, ts)
    ensures QueueInv(Requeue(s, ts)) && Settled(Requeue(s, ts).queue)
    ensures Waiting(Requeue(s, ts).queue) == Waiting(s.queue) + Fids(ts)
    decreases |ts|
  {
    if ts == [] {
      assert Waiting(s.queue) + [] == Waiting(s.queue);
    } else {
      LoggedTail(s, ts);
      RequeueStep(s, ts[0]);
      RequeueKeeps(RequeueOne(s, ts[0]), ts[1..]);
      FidsAfter(Waiting(s.queue), ts);
    }
  }

  lemma LoggedTail(s: Sender, ts: seq<TFrame>)
    requires Logged(s, ts) && ts != []
    ensures ts[0].fid < |s.log| && ts[0] == s.log[ts[0].fid] && Logged(RequeueOne(s, ts[0]), ts[1..])
  {
    assert ts[0] in ts && forall t <- ts[1..] :: t in ts;
  }

  lemma FidsAfter(w: seq<nat>, ts: seq<TFrame>)
    requires ts != []
    ensures w + [ts[0].fid] + Fids(ts[1..]) == w + Fids(ts)
  {
  }

  lemma AppendSettled(queue: seq<Queued>, e: Queued)
    requires Settled(queue) && forall x <- queue :: x.counter < e.counter
    ensures Push(queue, e) == queue + [e]
  {
    PushAt(queue, e);
    var k := Rank(queue, e);
    assert k == |queue|;
    assert queue[..k] + [e] + queue[k..] == queue + [e];
  }

  lemma {:induction false} RequeueOnly(s: Sender, ts: seq<TFrame>)
    ensures Requeue(s, ts) == s.(queue := Requeue(s, ts).queue, counter := Requeue(s, ts).counter)
    decreases |ts|
  {
    if ts != [] {
      RequeueOnly(RequeueOne(s, ts[0]), ts[1..]);
    }
  }

  // ---------- a packing pass ----------

  /** Packing touches neither the queue nor the logs of what was queued. */
  predicate SameQueue(a: Sender, b: Sender) {
    a.queue == b.queue && a.counter == b.counter && a.weights == b.weights && a.log == b.log && a.prios == b.prios
    && a.msgs == b.msgs && a.nextOrdering == b.nextOrdering && a.nextSequencing == b.nextSequencing
    && a.nextSplit == b.nextSplit
  }

  lemma {:induction false} NumberFids(ts: seq<TFrame>, next: nat)
    ensures Fids(Number(ts, next)) == Fids(ts)
  {
    if ts != [] {
      NumberFids(ts[1..], if NeedsNumber(ts[0]) then next + 1 else next);
    }
  }

  /** The frames of a list of datagrams. */
  function Carried(out: seq<Packet>): seq<nat> {
    if out == [] then [] else Carried(out[..|out| - 1]) + Fids(out[|out| - 1].frames)
  }

  /** One turn moves frames from the rest into a datagram, in order. */
  lemma PackOneMoves(p: Packing, c: Pass, oldest: int)
    requires Going(p, c)
    ensures var q := PackOne(p, c, oldest);
      SameQueue(p.s, q.s) && Carried(q.out) + Fids(q.rest) == Carried(p.out) + Fids(p.rest)
      && (c.limit.Some? ==> q.s.emitted + Fids(q.rest) == p.s.emitted + Fids(p.rest))
      && (c.limit.None? ==> q.s.emitted == p.s.emitted)
      && forall t <- q.rest :: t in p.rest
  {
    var q := PackOne(p, c, oldest);
    var k := Fill(p.rest, c.max, 0);
    FidsSplit(p.rest, k);
    NumberFids(p.rest[..k], p.s.nextReliable);
    assert q.out[..|p.out|] == p.out;
    assert Carried(q.out) == Carried(p.out) + Fids(p.rest[..k]);
    assert Carried(p.out) + (Fids(p.rest[..k]) + Fids(p.rest[k..])) == Carried(p.out) + Fids(p.rest);
    assert p.s.emitted + (Fids(p.rest[..k]) + Fids(p.rest[k..])) == p.s.emitted + Fids(p.rest);
  }

  /** Over a pass the frames carried, followed by the rest, are the frames it started with. */
  lemma {:induction false} PassMoves(p: Packing, c: Pass, olds: seq<int>)
    requires Turns(p, c, olds)
    ensures var q := Packed(p, c, olds);
      SameQueue(p.s, q.s) && Carried(q.out) + Fids(q.rest) == Carried(p.out) + Fids(p.rest)
      && (c.limit.Some? ==> q.s.emitted + Fids(q.rest) == p.s.emitted + Fids(p.rest))
      && (c.limit.None? ==> q.s.emitted == p.s.emitted)
      && forall t <- q.rest :: t in p.rest
    decreases |olds|
  {
    if olds != [] {
      PassMoves(p, c, olds[..|olds| - 1]);
      PackOneMoves(Packed(p, c, olds[..|olds| - 1]), c, olds[|olds| - 1]);
    }
  }

  // ---------- whole steps ----------

  lemma {:induction false} FramesLogged(queue: seq<Queued>, t: TFrame)
    requires t in Frames(queue)
    ensures exists e <- queue :: e.t == t
  {
    if queue[0].t == t {
      assert queue[0] in queue;
    } else {
      FramesLogged(queue[1..], t);
      var e :| e in queue[1..] && e.t == t;
      assert e in queue;
    }
  }

  /** What a pass over new frames leaves: the rest, and the emitted frames logged. */
  lemma DrainMoves(s: Sender, c: Pass, olds: seq<int>)
    requires QueueInv(s) && c.limit.Some? && Turns(Drained(s), c, olds)
    ensures var q := Packed(Drained(s), c, olds);
      QueueInv(q.s) && q.s.queue == [] && Logged(q.s, q.rest) && q.s.emitted + Fids(q.rest) == Line(s)
      && q.s.emitted == s.emitted + Carried(q.out)
  {
    var p := Drained(s);
    var q := Packed(p, c, olds);
    PassMoves(p, c, olds);
    FidsFrames(s.queue);
    forall t | t in q.rest
      ensures t.fid < |s.log| && t == s.log[t.fid]
    {
      FramesLogged(s.queue, t);
    }
    assert [] + Fids(p.rest) == Fids(p.rest);
    assert s.emitted + (Carried(q.out) + Fids(q.rest)) == s.emitted + Carried(q.out) + Fids(q.rest);
    CancelTail(q.s.emitted, s.emitted + Carried(q.out), Fids(q.rest));
  }

  /** Packing drains the queue and puts back the rest: the line stands as it
      was, its emitted part grown by exactly the frames of the datagrams. */
  lemma FinishKeeps(s: Sender, c: Pass, olds: seq<int>)
    requires QueueInv(s) && c.limit.Some? && c.max > 0 && Passes(Drained(s), c, olds)
    ensures var q := Packed(Drained(s), c, olds);
      var s' := Finish(q, c);
      QueueInv(s') && Settled(s'.queue) && Line(s') == Line(s) && s'.log == s.log && s'.prios == s.prios
      && s'.emitted == s.emitted + Carried(q.out)
  {
    var q := Packed(Drained(s), c, olds);
    DrainMoves(s, c, olds);
    PassMoves(Drained(s), c, olds);
    if q.rest != [] {
      RequeueKeeps(q.s, q.rest);
      RequeueOnly(q.s, q.rest);
      assert Waiting([]) + Fids(q.rest) == Fids(q.rest);
    } else {
      assert q.s.emitted + [] == q.s.emitted;
    }
  }

  lemma CancelTail(a: seq<nat>, b: seq<nat>, tail: seq<nat>)
    requires a + tail == b + tail
    ensures a == b
  {
    assert |a + tail| == |b + tail|;
    assert a == (a + tail)[..|a|] && b == (b + tail)[..|b|];
  }

  // ---------- runs ----------

  /** The fields the line is made of. */
  predicate SameLine(a: Sender, b: Sender) {
    a.queue == b.queue && a.counter == b.counter && a.weights == b.weights && a.log == b.log && a.prios == b.prios
    && a.emitted == b.emitted && Shaped(a) == Shaped(b)
  }

  /** The first `front` places of the line are taken for good. */
  ghost predicate Fixed(s: Sender, front: nat) {
    front <= |Line(s)| && forall i :: 0 <= i < |s.queue| && |s.emitted| + i < front ==> s.queue[i].weight == 0
  }

  ghost predicate LineStep(s: Sender, s': Sender, front: nat)
    requires front <= |Line(s)|
  {
    LineInv(s') && Fixed(s', front) && Line(s')[..front] == Line(s)[..front]
  }

  lemma EnqueueFixed(s: Sender, mid: nat, f: MessageFrame, p: nat, front: nat)
    requires LineInv(s) && p < PRIORITIES && Fixed(s, front)
    ensures LineStep(s, Enqueue(s, mid, f, p), front)
  {
    var e := Entry(s, mid, f, p);
    var k := Rank(s.queue, e);
    EnqueueKeeps(s, mid, f, p);
    EnqueueLine(s, mid, f, p);
    PushAt(s.queue, e);
    assert forall i :: 0 <= i < |s.queue| ==> s.queue[i] in s.queue;
    assert Slot(s, mid, f, p) >= front;
  }

  lemma {:induction false} EnqueueFromFixed(s: Sender, mid: nat, m: Message, i: nat, p: nat, front: nat)
    requires LineInv(s) && p < PRIORITIES && i <= |m.pieces| && Fixed(s, front)
    ensures LineStep(s, EnqueueFrom(s, mid, m, i, p), front)
    decreases |m.pieces| - i
  {
    if i < |m.pieces| {
      EnqueueFixed(s, mid, NewFrame(m, i), p, front);
      EnqueueFromFixed(Enqueue(s, mid, NewFrame(m, i), p), mid, m, i + 1, p, front);
    }
  }

  lemma {:induction false} AckAllLine(s: Sender, ns: seq<int>)
    ensures SameLine(s, AckAll(s, ns)) && SameLine(s, NakAll(s, ns))
  {
    if ns != [] {
      AckAllLine(s, ns[..|ns| - 1]);
    }
  }

  lemma TickLine(s: Sender, a: Action, mtu: int)
    requires LineInv(s) && a.Tick? && Enabled(s, a, mtu) && mtu > UDP_HEADER_SIZE + 9
    ensures var s' := Act(s, a, mtu);
      LineInv(s') && Settled(s'.queue) && Line(s') == Line(s)
      && s'.emitted == s.emitted + Carried(Renewed(s, a, mtu).out)
  {
    PassMoves(Resending(s, a), ResendPass(a, mtu), a.olds);
    var mid := Resent(s, a, mtu).s;
    assert SameLine(s, mid);
    FinishKeeps(mid, NewPass(a, mtu), a.newOlds);
  }

  lemma SubmitLine(s: Sender, a: Action, mtu: int, front: nat)
    requires LineInv(s) && a.Submit? && Enabled(s, a, mtu) && Fixed(s, front)
    ensures LineStep(s, Act(s, a, mtu), front)
  {
    if 0 <= a.ch < NUMBER_OF_ORDERED_STREAMS {
      var m := NewMessage(s, a.data, a.rel, a.ch, mtu);
      var s1 := Accepted(s, m);
      assert SameLine(s, s1);
      EnqueueFromFixed(s1, |s.msgs|, m, 0, a.priority, front);
    }
  }

  lemma SettledFixed(s: Sender)
    requires Settled(s.queue)
    ensures Fixed(s, |Line(s)|)
  {
    assert forall i :: 0 <= i < |s.queue| ==> s.queue[i] in s.queue;
  }

  lemma FixedLess(s: Sender, front: nat, less: nat)
    requires Fixed(s, front) && less <= front
    ensures Fixed(s, less)
  {
  }

  lemma ActLine(s: Sender, a: Action, mtu: int, front: nat)
    requires LineInv(s) && Enabled(s, a, mtu) && mtu > UDP_HEADER_SIZE + 9 && Fixed(s, front)
    ensures LineStep(s, Act(s, a, mtu), front)
  {
    match a
    case Submit(_, _, _, _) => SubmitLine(s, a, mtu, front);
    case Tick(_, _, _, _, _, _, _) =>
      TickLine(s, a, mtu);
      SettledFixed(Act(s, a, mtu));
      FixedLess(Act(s, a, mtu), |Line(s)|, front);
    case Acked(ns) => AckAllLine(s, ns);
    case Nakked(ns) => AckAllLine(s, ns);
  }

  ghost predicate RunEnabled(s: Sender, actions: seq<Action>, mtu: int)
    requires Shaped(s)
    decreases |actions|
  {
    actions == []
    || (Enabled(s, actions[0], mtu) && Shaped(Act(s, actions[0], mtu))
        && RunEnabled(Act(s, actions[0], mtu), actions[1..], mtu))
  }

  ghost function Run(s: Sender, actions: seq<Action>, mtu: int): Sender
    requires Shaped(s) && RunEnabled(s, actions, mtu)
    decreases |actions|
  {
    if actions == [] then s else Run(Act(s, actions[0], mtu), actions[1..], mtu)
  }

  /** In every run the line keeps its first places; every queued frame is
      emitted once or still waits, and frames of one priority stay in order. */
  lemma {:induction false} RunLine(s: Sender, actions: seq<Action>, mtu: int, front: nat)
    requires LineInv(s) && RunEnabled(s, actions, mtu) && mtu > UDP_HEADER_SIZE + 9 && Fixed(s, front)
    ensures LineStep(s, Run(s, actions, mtu), front)
    decreases |actions|
  {
    if actions != [] {
      ActLine(s, actions[0], mtu, front);
      RunLine(Act(s, actions[0], mtu), actions[1..], mtu, front);
    }
  }

  /** No overtaking: after a tick, whatever happens next, the frames emitted
      and left over stand, in this order, before every frame queued later. */
  lemma NoOvertaking(s: Sender, tick: Action, actions: seq<Action>, mtu: int)
    requires LineInv(s) && tick.Tick? && Enabled(s, tick, mtu) && mtu > UDP_HEADER_SIZE + 9
    requires Shaped(Act(s, tick, mtu)) && RunEnabled(Act(s, tick, mtu), actions, mtu)
    ensures Line(s) <= Line(Run(Act(s, tick, mtu), actions, mtu))
  {
    TickLine(s, tick, mtu);
    SettledFixed(Act(s, tick, mtu));
    RunLine(Act(s, tick, mtu), actions, mtu, |Line(s)|);
    PrefixWhole(Line(s), Line(Run(Act(s, tick, mtu), actions, mtu)));
  }

  lemma PrefixWhole(a: seq<nat>, b: seq<nat>)
    requires |a| <= |b| && b[..|a|] == a[..|a|]
    ensures a <= b
  {
  }

  lemma NewSenderLine()
    ensures LineInv(NewSender())
  {
  }
}

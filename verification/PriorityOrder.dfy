/** The order in which waiting frames are served: left-overs of the last tick
    first, then by priority weight (_reliability.py:243-262, 309-313, 394-429). */
module PriorityOrder {
  import opened Types
  import opened WireFormat
  import opened Tags
  import opened SenderSpec
  import opened SenderQueue

  /** The weight of a frame: it is the nth of its priority. */
  function WeightOf(prios: seq<nat>, fid: nat): nat
    requires fid < |prios| && prios[fid] < PRIORITIES
  {
    var p := prios[fid];
    [0, 3, 10, 27][p] + CountOf(prios[..fid], p) * [1, 5, 14, 35][p]
  }

  /** Frames queued before front have been left over by a tick and weigh nothing. */
  predicate Weighed(e: Queued, prios: seq<nat>, front: nat) {
    e.t.fid < |prios| && prios[e.t.fid] < PRIORITIES
    && e.weight == (if e.t.fid < front then 0 else WeightOf(prios, e.t.fid))
  }

  ghost predicate AllWeighed(s: Sender, front: nat) {
    |s.prios| == |s.log| && front <= |s.log| && (forall i :: 0 <= i < |s.prios| ==> s.prios[i] < PRIORITIES)
    && forall e <- s.queue :: Weighed(e, s.prios, front)
  }

  lemma WeighedLater(e: Queued, prios: seq<nat>, front: nat, p: nat)
    requires Weighed(e, prios, front)
    ensures Weighed(e, prios + [p], front)
  {
    assert (prios + [p])[..e.t.fid] == prios[..e.t.fid];
  }

  lemma {:induction false} PushHas(queue: seq<Queued>, e: Queued)
    ensures forall x :: x in Push(queue, e) <==> x in queue || x == e
  {
    if queue != [] && !QueuedLess(e, queue[0]) {
      PushHas(queue[1..], e);
      assert queue == [queue[0]] + queue[1..];
    }
  }

  lemma EnqueueWeighed(s: Sender, mid: nat, f: MessageFrame, p: nat, front: nat)
    requires AllWeighed(s, front) && WeightsInv(s) && p < PRIORITIES
    ensures AllWeighed(Enqueue(s, mid, f, p), front) && WeightsInv(Enqueue(s, mid, f, p))
  {
    var s' := Enqueue(s, mid, f, p);
    var e := Queued(s.weights[p], s.counter + 1, TFrame(|s.log|, mid, f));
    EnqueueWeights(s, mid, f, p);
    PushHas(s.queue, e);
    WeightsGrowEvenly(p, CountOf(s.prios, p));
    assert (s.prios + [p])[..|s.prios|] == s.prios;
    assert Weighed(e, s'.prios, front);
    forall x | x in s'.queue
      ensures Weighed(x, s'.prios, front)
    {
      if x != e {
        WeighedLater(x, s.prios, front, p);
      }
    }
  }

  lemma {:induction false} EnqueueFromWeighed(s: Sender, mid: nat, m: Message, i: nat, p: nat, front: nat)
    requires AllWeighed(s, front) && WeightsInv(s) && p < PRIORITIES && i <= |m.pieces|
    ensures AllWeighed(EnqueueFrom(s, mid, m, i, p), front)
    decreases |m.pieces| - i
  {
    if i < |m.pieces| {
      EnqueueWeighed(s, mid, NewFrame(m, i), p, front);
      EnqueueFromWeighed(Enqueue(s, mid, NewFrame(m, i), p), mid, m, i + 1, p, front);
    }
  }

  /** What is put back weighs nothing. */
  lemma {:induction false} RequeueLight(s: Sender, ts: seq<TFrame>)
    requires (forall e <- s.queue :: e.weight == 0 && e.t.fid < |s.prios|) && forall t <- ts :: t.fid < |s.prios|
    ensures forall e <- Requeue(s, ts).queue :: e.weight == 0 && e.t.fid < |s.prios|
    decreases |ts|
  {
    if ts != [] {
      var e := Queued(0, s.counter + 1, ts[0]);
      assert ts[0] in ts && forall t <- ts[1..] :: t in ts;
      PushHas(s.queue, e);
      RequeueLight(s.(counter := s.counter + 1, queue := Push(s.queue, e)), ts[1..]);
    }
  }

  lemma {:induction false} FramesIn(queue: seq<Queued>, n: nat)
    requires forall e <- queue :: e.t.fid < n
    ensures forall t <- Frames(queue) :: t.fid < n
  {
    if queue != [] {
      assert queue[0] in queue && forall e <- queue[1..] :: e in queue;
      FramesIn(queue[1..], n);
    }
  }

  lemma TickWeighed(s: Sender, a: Action, mtu: int, front: nat)
    requires Shaped(s) && a.Tick? && Enabled(s, a, mtu) && AllWeighed(s, front)
    ensures AllWeighed(Act(s, a, mtu), |s.log|)
  {
    var again := Resent(s, a, mtu).s;
    PassMoves(Resending(s, a), ResendPass(a, mtu), a.olds);
    SameWeighed(s, again, front);
    LeftLight(again, NewPass(a, mtu), a.newOlds);
    AllLight(Act(s, a, mtu));
  }

  ghost predicate Light(s: Sender) {
    forall e <- s.queue :: e.weight == 0 && e.t.fid < |s.prios|
  }

  /** A pass over the queue leaves only light frames. */
  lemma LeftLight(s: Sender, c: Pass, olds: seq<int>)
    requires Passes(Drained(s), c, olds) && forall e <- s.queue :: e.t.fid < |s.prios|
    ensures var s' := Finish(Packed(Drained(s), c, olds), c); Light(s') && s'.prios == s.prios && s'.log == s.log
  {
    var q := Packed(Drained(s), c, olds);
    PassMoves(Drained(s), c, olds);
    FramesIn(s.queue, |s.prios|);
    RequeueLight(q.s, q.rest);
    RequeueOnly(q.s, q.rest);
  }

  lemma AllLight(s: Sender)
    requires Light(s) && |s.prios| == |s.log| && forall i :: 0 <= i < |s.prios| ==> s.prios[i] < PRIORITIES
    ensures AllWeighed(s, |s.log|)
  {
  }

  /** Where the frames begin that no tick has seen. */
  ghost function Front(s: Sender, actions: seq<Action>, mtu: int, front: nat): nat
    requires Shaped(s) && RunEnabled(s, actions, mtu)
    decreases |actions|
  {
    if actions == [] then front
    else Front(Act(s, actions[0], mtu), actions[1..], mtu, if actions[0].Tick? then |s.log| else front)
  }

  lemma SameWeighed(s: Sender, s': Sender, front: nat)
    requires AllWeighed(s, front) && s'.queue == s.queue && s'.prios == s.prios && s'.log == s.log
    ensures AllWeighed(s', front)
  {
  }

  lemma StepWeighed(s: Sender, a: Action, mtu: int, front: nat)
    requires AllWeighed(s, front) && WeightsInv(s) && Enabled(s, a, mtu) && Shaped(Act(s, a, mtu))
    ensures AllWeighed(Act(s, a, mtu), if a.Tick? then |s.log| else front)
  {
    match a
    case Submit(data, rel, ch, p) =>
      if 0 <= ch < NUMBER_OF_ORDERED_STREAMS {
        var m := NewMessage(s, data, rel, ch, mtu);
        SameWeighed(s, Accepted(s, m), front);
        SameWeights(s, Accepted(s, m));
        EnqueueFromWeighed(Accepted(s, m), |s.msgs|, m, 0, p, front);
      }
    case Tick(_, _, _, _, _, _, _) => TickWeighed(s, a, mtu, front);
    case Acked(ns) =>
      AckAllLine(s, ns);
      SameWeighed(s, Act(s, a, mtu), front);
    case Nakked(ns) =>
      AckAllLine(s, ns);
      SameWeighed(s, Act(s, a, mtu), front);
  }

  lemma {:induction false} RunWeighed(s: Sender, actions: seq<Action>, mtu: int, front: nat)
    requires AllWeighed(s, front) && WeightsInv(s) && RunEnabled(s, actions, mtu)
    ensures AllWeighed(Run(s, actions, mtu), Front(s, actions, mtu, front))
    decreases |actions|
  {
    if actions != [] {
      StepWeighed(s, actions[0], mtu, front);
      ActWeights(s, actions[0], mtu);
      RunWeighed(Act(s, actions[0], mtu), actions[1..], mtu, if actions[0].Tick? then |s.log| else front);
    }
  }

  /** In every run of a new sender frames wait in this order: what the last tick
      left over, then by the weight start + step * n of the nth frame of each
      priority, with equal weights in the order they were queued. */
  lemma ServedByWeight(actions: seq<Action>, mtu: int, i: nat, j: nat)
    requires Shaped(NewSender()) && RunEnabled(NewSender(), actions, mtu) && mtu > UDP_HEADER_SIZE + 9
    requires i < j < |Run(NewSender(), actions, mtu).queue|
    ensures var s, front := Run(NewSender(), actions, mtu), Front(NewSender(), actions, mtu, 0);
      var a, b := s.queue[i].t.fid, s.queue[j].t.fid;
      a < |s.prios| && b < |s.prios| && s.prios[a] < PRIORITIES && s.prios[b] < PRIORITIES
      && (a >= front && b < front ==> WeightOf(s.prios, a) == 0)
      && (a >= front && b >= front ==> WeightOf(s.prios, a) <= WeightOf(s.prios, b))
  {
    var s := Run(NewSender(), actions, mtu);
    NewSenderWeights();
    NewSenderLine();
    RunWeighed(NewSender(), actions, mtu, 0);
    RunSorted(NewSender(), actions, mtu);
    assert s.queue[i] in s.queue && s.queue[j] in s.queue;
    assert QueuedLess(s.queue[i], s.queue[j]);
  }

  lemma RunSorted(s: Sender, actions: seq<Action>, mtu: int)
    requires LineInv(s) && RunEnabled(s, actions, mtu) && mtu > UDP_HEADER_SIZE + 9
    ensures LineInv(Run(s, actions, mtu))
  {
    RunLine(s, actions, mtu, 0);
  }
}

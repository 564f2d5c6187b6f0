/** The class of the send side can be driven through whole runs: what its
    methods ask of the counters follows from what every run keeps and from one
    bound on the run. */
module SenderReach {
  import opened SeqNum
  import opened Types
  import opened SenderSpec
  import opened SenderQueue
  import opened SenderNet
  import opened Sending
  import SenderInv
  import Transport

  /** Tracked frames carry their number and queued ones none: no frame ever
      changes its number, on resends either. */
  lemma OkIsProper(s: Sender, net: Net)
    requires SenderOk(s, net)
    ensures Proper(s)
  {
    forall n | n in s.resend
      ensures s.resend[n].t.f.reliableNumber == n && 0 <= n
    {
      assert SenderInv.Sound(s.log, s.numbered, s.resend[n].t);
    }
    forall e | e in s.queue && e.t.f.reliability.IsReliable()
      ensures NeedsNumber(e.t)
    {
      SenderInv.LogAt(s.msgs, s.log, e.t.fid);
    }
  }

  // ---------- every step keeps the span ----------

  lemma NarrowLess(s: Sender, more: nat, less: nat)
    requires Narrow(s, more) && less <= more
    ensures Narrow(s, less)
  {
  }

  /** What Narrow looks at has not grown. */
  ghost predicate NoWider(s: Sender, s': Sender) {
    s'.sent == s.sent && s'.nextReliable == s.nextReliable && s'.resend.Keys <= s.resend.Keys
    && s'.history.Keys <= s.history.Keys && forall k <- s'.history :: s'.history[k] == s.history[k]
  }

  lemma NarrowKept(s: Sender, s': Sender, more: nat)
    requires Narrow(s, more) && NoWider(s, s')
    ensures Narrow(s', more)
  {
    forall k, i | k in s'.history && 0 <= i < |s'.history[k].numbers|
      ensures s.nextReliable + more - SEQ_MOD <= s'.history[k].numbers[i] < s.nextReliable
    {
      assert k in s.history;
    }
  }

  lemma {:induction false} EnqueueFromNoWider(s: Sender, mid: nat, m: Message, i: nat, p: nat)
    requires Shaped(s) && p < PRIORITIES && i <= |m.pieces|
    ensures NoWider(s, EnqueueFrom(s, mid, m, i, p))
    decreases |m.pieces| - i
  {
    if i < |m.pieces| {
      EnqueueFromNoWider(Enqueue(s, mid, NewFrame(m, i), p), mid, m, i + 1, p);
    }
  }

  lemma {:induction false} AckNoWider(s: Sender, ns: seq<int>)
    ensures NoWider(s, AckAll(s, ns)) && NoWider(s, NakAll(s, ns)) && NakAll(s, ns).history == s.history
    decreases |ns|
  {
    if ns != [] {
      AckNoWider(s, ns[..|ns| - 1]);
    }
  }

  /** The frames a tick may send use up as much of the span. */
  lemma TickNarrow(s: Sender, a: Action, mtu: int, more: nat)
    requires Proper(s) && Shaped(s) && a.Tick? && Enabled(s, a, mtu) && Narrow(s, |s.resend| + |s.queue| + more)
    ensures Narrow(Act(s, a, mtu), more)
  {
    DueReach(s, a.now, a.timeout, a.order, |s.queue| + more);
    QueueReach(s, Resending(s, a), ResendPass(a, mtu), a.olds, more);
    DrainedNarrow(Resent(s, a, mtu).s, NewPass(a, mtu), a.newOlds, more);
    RequeueOnly(Renewed(s, a, mtu).s, Renewed(s, a, mtu).rest);
  }

  lemma DrainedNarrow(s: Sender, c: Pass, olds: seq<int>, more: nat)
    requires InReach(s, Frames(s.queue), more) && Turns(Drained(s), c, olds)
    ensures Narrow(Packed(Drained(s), c, olds).s, more)
  {
    PassInReach(Drained(s), c, olds, more);
    NarrowLess(Packed(Drained(s), c, olds).s, |Packed(Drained(s), c, olds).rest| + more, more);
  }

  /** Frames a step may send. */
  function Demand(s: Sender, a: Action): nat {
    if a.Tick? then |s.resend| + |s.queue| else 0
  }

  lemma StepNarrow(s: Sender, a: Action, mtu: int, more: nat)
    requires Proper(s) && Shaped(s) && Enabled(s, a, mtu) && Narrow(s, Demand(s, a) + more)
    ensures Narrow(Act(s, a, mtu), more)
  {
    match a
    case Submit(data, rel, ch, p) =>
      if 0 <= ch < NUMBER_OF_ORDERED_STREAMS {
        var m := NewMessage(s, data, rel, ch, mtu);
        EnqueueFromNoWider(Accepted(s, m), |s.msgs|, m, 0, p);
        NarrowKept(s, Act(s, a, mtu), more);
      }
    case Tick(_, _, _, _, _, _, _) => TickNarrow(s, a, mtu, more);
    case Acked(ns) =>
      AckNoWider(s, ns);
      NarrowKept(s, AckAll(s, ns), more);
    case Nakked(ns) =>
      AckNoWider(s, ns);
      NarrowKept(s, NakAll(s, ns), more);
  }

  // ---------- runs ----------

  ghost function All(): iset<int> {
    iset n: int | 0 <= Wire(n)
  }

  lemma StepOk(s: Sender, a: Action, mtu: int, net: Net)
    requires SenderOk(s, net) && Enabled(s, a, mtu) && mtu > UDP_HEADER_SIZE + 9
    ensures SenderOk(Act(s, a, mtu), net + FramesOf(Emitted(s, a, mtu)))
  {
    match a
    case Submit(_, _, _, _) =>
      SubmitOk(s, a, mtu, net);
      assert net + [] == net;
    case Tick(_, _, _, _, _, _, _) => TickOk(s, a, mtu, net, All());
    case Acked(ns) =>
      AckOk(s, ns, net, All());
      assert net + [] == net;
    case Nakked(ns) =>
      NakOk(s, ns, net, All());
      assert net + [] == net;
  }

  /** Frames the ticks of a run may send, all together. */
  ghost function RunDemand(s: Sender, actions: seq<Action>, mtu: int): nat
    requires Shaped(s) && RunEnabled(s, actions, mtu)
    decreases |actions|
  {
    if actions == [] then 0 else Demand(s, actions[0]) + RunDemand(Act(s, actions[0], mtu), actions[1..], mtu)
  }

  /** Every method of the class may be called when its turn comes. */
  ghost predicate Drivable(s: Sender, actions: seq<Action>, mtu: int)
    requires Shaped(s) && RunEnabled(s, actions, mtu)
    decreases |actions|
  {
    actions == []
    || (Narrow(s, 0) && (actions[0].Tick? ==> CanTick(s)) && Drivable(Act(s, actions[0], mtu), actions[1..], mtu))
  }

  /** A span with room for the frames of the run lets every step of it happen,
      and each step leaves what the next one needs. */
  lemma {:induction false} RunDrivable(s: Sender, actions: seq<Action>, mtu: int, net: Net)
    requires SenderOk(s, net) && RunEnabled(s, actions, mtu) && mtu > UDP_HEADER_SIZE + 9
    requires Narrow(s, RunDemand(s, actions, mtu))
    ensures Drivable(s, actions, mtu)
    decreases |actions|
  {
    if actions != [] {
      var a := actions[0];
      var later := RunDemand(Act(s, a, mtu), actions[1..], mtu);
      OkIsProper(s, net);
      NarrowLess(s, Demand(s, a) + later, 0);
      NarrowLess(s, Demand(s, a) + later, Demand(s, a));
      StepNarrow(s, a, mtu, later);
      StepOk(s, a, mtu, net);
      RunDrivable(Act(s, a, mtu), actions[1..], mtu, net + FramesOf(Emitted(s, a, mtu)));
    }
  }

  /** A new sender can be driven through any run whose ticks handle fewer than
      2^24 frames; after that a record or a tracked frame could still hold a
      number that comes round again. */
  lemma FirstCircle(actions: seq<Action>, mtu: int)
    requires Shaped(NewSender()) && RunEnabled(NewSender(), actions, mtu) && mtu > UDP_HEADER_SIZE + 9
    requires RunDemand(NewSender(), actions, mtu) < SEQ_MOD
    ensures Drivable(NewSender(), actions, mtu)
  {
    Transport.NewSenderBlank();
    NewSenderLine();
    Transport.BlankOk(NewSender());
    RunDrivable(NewSender(), actions, mtu, []);
  }

  // ---------- across wraps ----------

  /** What is still outstanding is less than 2^24, less room for `more`, behind
      the counters. */
  ghost predicate InSpan(s: Sender, more: nat) {
    more < SEQ_MOD
    && (forall k <- s.history :: s.sent + more - SEQ_MOD <= k)
    && (forall n <- s.resend :: s.nextReliable + more - SEQ_MOD <= n)
    && (forall k <- s.history, i | 0 <= i < |s.history[k].numbers| :: s.nextReliable + more - SEQ_MOD <= s.history[k].numbers[i])
  }

  lemma RecordBelow(s: Sender, net: Net, k: int, i: nat)
    requires SenderOk(s, net) && k in s.history && i < |s.history[k].numbers|
    ensures s.history[k].numbers[i] < s.nextReliable
  {
    var n := s.history[k].numbers[i];
    assert SenderInv.HasNumber(net[k], n);
    SenderInv.NumbersCarried(net[k], n);
    var j :| 0 <= j < |net[k]| && SenderInv.IsReliable(net[k][j]) && net[k][j].f.reliableNumber == n;
    assert SenderInv.AllSound(s.log, s.numbered, net[k]) && SenderInv.Sound(s.log, s.numbered, net[k][j]);
  }

  /** In a run only the oldest outstanding numbers matter. */
  lemma SpanIsNarrow(s: Sender, net: Net, more: nat)
    requires SenderOk(s, net)
    ensures Narrow(s, more) <==> InSpan(s, more)
  {
    forall k, i | k in s.history && 0 <= i < |s.history[k].numbers|
      ensures s.history[k].numbers[i] < s.nextReliable
    {
      RecordBelow(s, net, k, i);
    }
    forall n | n in s.resend
      ensures n < s.nextReliable
    {
      assert SenderInv.Sound(s.log, s.numbered, s.resend[n].t);
    }
  }

  /** At every step what is outstanding leaves room for what the step may send. */
  ghost predicate KeepsPace(s: Sender, actions: seq<Action>, mtu: int)
    requires Shaped(s) && RunEnabled(s, actions, mtu)
    decreases |actions|
  {
    actions == [] || (InSpan(s, Demand(s, actions[0])) && KeepsPace(Act(s, actions[0], mtu), actions[1..], mtu))
  }

  /** A run of any length, across any number of wraps, can be driven if and only
      if at each step the oldest outstanding number keeps within the span. */
  lemma {:induction false} DrivableExactly(s: Sender, actions: seq<Action>, mtu: int, net: Net)
    requires SenderOk(s, net) && RunEnabled(s, actions, mtu) && mtu > UDP_HEADER_SIZE + 9
    ensures Drivable(s, actions, mtu) <==> KeepsPace(s, actions, mtu)
    decreases |actions|
  {
    if actions != [] {
      var a := actions[0];
      OkIsProper(s, net);
      SpanIsNarrow(s, net, Demand(s, a));
      if Narrow(s, Demand(s, a)) {
        NarrowLess(s, Demand(s, a), 0);
      }
      StepOk(s, a, mtu, net);
      DrivableExactly(Act(s, a, mtu), actions[1..], mtu, net + FramesOf(Emitted(s, a, mtu)));
    }
  }

  /** With nothing outstanding the next 2^24 frames can be handled, whatever the counters. */
  lemma NextCircle(s: Sender, actions: seq<Action>, mtu: int, net: Net)
    requires SenderOk(s, net) && RunEnabled(s, actions, mtu) && mtu > UDP_HEADER_SIZE + 9
    requires s.history == map[] && s.resend == map[] && RunDemand(s, actions, mtu) < SEQ_MOD
    ensures Drivable(s, actions, mtu)
  {
    RunDrivable(s, actions, mtu, net);
  }

  // ---------- reliable numbers over runs ----------

  /** The frames of all data datagrams after the run. */
  ghost function RunNet(s: Sender, actions: seq<Action>, mtu: int, net: Net): Net
    requires Shaped(s) && RunEnabled(s, actions, mtu)
    decreases |actions|
  {
    if actions == [] then net
    else RunNet(Act(s, actions[0], mtu), actions[1..], mtu, net + FramesOf(Emitted(s, actions[0], mtu)))
  }

  lemma {:induction false} RunOk(s: Sender, actions: seq<Action>, mtu: int, net: Net)
    requires SenderOk(s, net) && RunEnabled(s, actions, mtu) && mtu > UDP_HEADER_SIZE + 9
    ensures SenderOk(Run(s, actions, mtu), RunNet(s, actions, mtu, net))
    decreases |actions|
  {
    if actions != [] {
      StepOk(s, actions[0], mtu, net);
      RunOk(Act(s, actions[0], mtu), actions[1..], mtu, net + FramesOf(Emitted(s, actions[0], mtu)));
    }
  }

  /** Number n belongs to the n-th reliable frame taken from the queue, and to no other. */
  ghost predicate NumbersInOrder(s: Sender, net: Net) {
    s.nextReliable == |s.numbered| && s.numbered == SenderInv.ReliableOnly(s.log, s.emitted)
    && SenderInv.Distinct(s.numbered) && |net| == s.sent
    && (forall n <- s.resend :: 0 <= n < |s.numbered| && s.resend[n].t.fid == s.numbered[n]
                                && s.resend[n].t.f.reliableNumber == n)
    && (forall d, i :: 0 <= d < |net| && 0 <= i < |net[d]| && net[d][i].f.reliability.IsReliable() ==>
          0 <= net[d][i].f.reliableNumber < |s.numbered| && s.numbered[net[d][i].f.reliableNumber] == net[d][i].fid)
  }

  lemma OkNumbers(s: Sender, net: Net)
    requires SenderOk(s, net)
    ensures NumbersInOrder(s, net)
  {
    SenderInv.ReliableOnlyDistinct(s.log, s.emitted);
    forall n | n in s.resend
      ensures 0 <= n < |s.numbered| && s.resend[n].t.fid == s.numbered[n] && s.resend[n].t.f.reliableNumber == n
    {
      assert SenderInv.Sound(s.log, s.numbered, s.resend[n].t);
    }
    forall d, i | 0 <= d < |net| && 0 <= i < |net[d]| && net[d][i].f.reliability.IsReliable()
      ensures 0 <= net[d][i].f.reliableNumber < |s.numbered| && s.numbered[net[d][i].f.reliableNumber] == net[d][i].fid
    {
      assert SenderInv.AllSound(s.log, s.numbered, net[d]) && SenderInv.Sound(s.log, s.numbered, net[d][i]);
    }
  }

  /** In every run of a new sender reliable numbers are given out consecutively,
      only to frames that leave, in the order they leave; and wherever a frame
      appears again, tracked or in any datagram, it carries the same number. */
  lemma NumbersOfRuns(actions: seq<Action>, mtu: int)
    requires Shaped(NewSender()) && RunEnabled(NewSender(), actions, mtu) && mtu > UDP_HEADER_SIZE + 9
    ensures NumbersInOrder(Run(NewSender(), actions, mtu), RunNet(NewSender(), actions, mtu, []))
  {
    Transport.NewSenderBlank();
    NewSenderLine();
    Transport.BlankOk(NewSender());
    RunOk(NewSender(), actions, mtu, []);
    OkNumbers(Run(NewSender(), actions, mtu), RunNet(NewSender(), actions, mtu, []));
  }
}

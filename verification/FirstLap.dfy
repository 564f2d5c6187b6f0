/** Before any counter has come round the hypotheses of the receiver hold in
    every run: no fragment meets the tracker of another message, and whatever
    arrives is fit for the class that reads it. */
module FirstLap {
  import opened SeqNum
  import opened Types
  import opened Tags
  import opened SenderSpec
  import S = SenderSpec
  import opened SenderInv
  import opened SenderNet
  import opened ReceiverSpec
  import opened ReceiverInv
  import opened DeliveryInv
  import opened Transport
  import SenderQueue
  import Ordering
  import Splitting
  import Congestion
  import Receiving
  import ReceiverGaps

  // ---------- split identifiers ----------

  predicate IsSplit(m: Message) {
    |m.pieces| > 1
  }

  ghost predicate SplitDistinct(msgs: seq<Message>) {
    forall a, b :: 0 <= a < |msgs| && 0 <= b < |msgs| && IsSplit(msgs[a]) && IsSplit(msgs[b]) && msgs[a].splitId == msgs[b].splitId
      ==> a == b
  }

  function SplitCount(msgs: seq<Message>): nat {
    if msgs == [] then 0
    else SplitCount(msgs[..|msgs| - 1]) + (if IsSplit(msgs[|msgs| - 1]) then 1 else 0)
  }

  /** The n-th split message has identifier n modulo 65536. */
  ghost predicate SplitInv(s: Sender) {
    s.nextSplit == SplitCount(s.msgs)
    && forall mid :: 0 <= mid < |s.msgs| && IsSplit(s.msgs[mid]) ==> s.msgs[mid].splitId == SplitCount(s.msgs[..mid]) % 0x10000
  }

  lemma {:induction false} CountRises(msgs: seq<Message>, a: nat, b: nat)
    requires a < b <= |msgs|
    ensures SplitCount(msgs[..a]) + (if IsSplit(msgs[a]) then 1 else 0) <= SplitCount(msgs[..b])
    decreases b
  {
    assert msgs[..b][..b - 1] == msgs[..b - 1];
    if a < b - 1 {
      CountRises(msgs, a, b - 1);
    }
  }

  /** Each count below the total is that of a split message. */
  lemma {:induction false} CountReached(msgs: seq<Message>, k: nat) returns (mid: nat)
    requires k < SplitCount(msgs)
    ensures mid < |msgs| && IsSplit(msgs[mid]) && SplitCount(msgs[..mid]) == k
  {
    var front := msgs[..|msgs| - 1];
    if k < SplitCount(front) {
      mid := CountReached(front, k);
      assert front[..mid] == msgs[..mid];
    } else {
      mid := |msgs| - 1;
    }
  }

  /** Split messages have identifiers of their own if and only if there are at
      most 65536 of them. */
  lemma DistinctExactly(s: Sender)
    requires SplitInv(s)
    ensures SplitDistinct(s.msgs) <==> s.nextSplit <= 0x10000
  {
    var msgs := s.msgs;
    assert msgs[..|msgs|] == msgs;
    if s.nextSplit <= 0x10000 {
      forall a, b | 0 <= a < b < |msgs| && IsSplit(msgs[a]) && IsSplit(msgs[b])
        ensures msgs[a].splitId != msgs[b].splitId
      {
        CountRises(msgs, a, b);
        CountRises(msgs, b, |msgs|);
      }
    } else {
      var a := CountReached(msgs, 0);
      var b := CountReached(msgs, 0x10000);
      assert msgs[a].splitId == msgs[b].splitId && a != b;
    }
  }

  lemma {:induction false} EnqueueFromSplits(s: Sender, mid: nat, m: Message, i: nat, p: nat)
    requires S.Shaped(s) && p < PRIORITIES && i <= |m.pieces|
    ensures EnqueueFrom(s, mid, m, i, p).nextSplit == s.nextSplit && EnqueueFrom(s, mid, m, i, p).msgs == s.msgs
    decreases |m.pieces| - i
  {
    if i < |m.pieces| {
      EnqueueFromSplits(S.Enqueue(s, mid, NewFrame(m, i), p), mid, m, i + 1, p);
    }
  }

  lemma {:induction false} AckSplits(s: Sender, ns: seq<int>)
    ensures AckAll(s, ns).nextSplit == s.nextSplit && AckAll(s, ns).msgs == s.msgs
    ensures NakAll(s, ns).nextSplit == s.nextSplit && NakAll(s, ns).msgs == s.msgs
  {
    if ns != [] {
      AckSplits(s, ns[..|ns| - 1]);
    }
  }

  lemma AcceptedSplits(s: Sender, data: Bytes, rel: Reliability, ch: nat, mtu: int)
    requires S.Shaped(s) && SplitInv(s) && ch < NUMBER_OF_ORDERED_STREAMS
    ensures SplitInv(Accepted(s, NewMessage(s, data, rel, ch, mtu)))
  {
    Splitting.PiecesJoin(data, MaxPayload(mtu));
    var m := NewMessage(s, data, rel, ch, mtu);
    SplitMore(s, Accepted(s, m), m);
  }

  lemma SplitMore(s: Sender, s': Sender, m: Message)
    requires SplitInv(s) && s'.msgs == s.msgs + [m] && |m.pieces| > 0
    requires s'.nextSplit == if |m.pieces| == 1 then s.nextSplit else s.nextSplit + 1
    requires IsSplit(m) ==> m.splitId == s.nextSplit % 0x10000
    ensures SplitInv(s')
  {
    assert s'.msgs[..|s.msgs|] == s.msgs;
    forall mid | 0 <= mid < |s.msgs|
      ensures s'.msgs[..mid] == s.msgs[..mid]
    {
    }
  }

  /** What a tick leaves alone. */
  lemma TickSplits(s: Sender, a: Action, mtu: int)
    requires S.Shaped(s) && a.Tick? && Enabled(s, a, mtu)
    ensures Act(s, a, mtu).nextSplit == s.nextSplit && Act(s, a, mtu).msgs == s.msgs
  {
    SenderQueue.PassMoves(Resending(s, a), ResendPass(a, mtu), a.olds);
    SenderQueue.PassMoves(Drained(Resent(s, a, mtu).s), NewPass(a, mtu), a.newOlds);
    SenderQueue.RequeueOnly(Renewed(s, a, mtu).s, Renewed(s, a, mtu).rest);
  }

  lemma ActSplits(s: Sender, a: Action, mtu: int)
    requires S.Shaped(s) && SplitInv(s) && Enabled(s, a, mtu)
    ensures SplitInv(Act(s, a, mtu)) && Act(s, a, mtu).nextSplit >= s.nextSplit && s.msgs <= Act(s, a, mtu).msgs
  {
    match a
    case Submit(data, rel, ch, p) =>
      if 0 <= ch < NUMBER_OF_ORDERED_STREAMS {
        var m := NewMessage(s, data, rel, ch, mtu);
        AcceptedSplits(s, data, rel, ch, mtu);
        EnqueueFromSplits(Accepted(s, m), |s.msgs|, m, 0, p);
      }
    case Tick(_, _, _, _, _, _, _) => TickSplits(s, a, mtu);
    case Acked(ns) => AckSplits(s, ns);
    case Nakked(ns) => AckSplits(s, ns);
  }

  // ---------- frames ----------

  /** With identifiers of their own, a fragment meets only its message's tracker. */
  lemma FrameUnmixed(r: Receiver, t: TFrame, now: real, timeout: real, victim: int, msgs: Messages, nums: seq<nat>)
    requires Orderly(r, msgs) && Known(msgs, nums, t) && ChannelFits(t) && SplitDistinct(msgs) && !r.mixed
    ensures !HandleFrame(r, t, now, timeout, victim).mixed
  {
    if t.f.splitCount > 0 && t.f.splitId in r.trackers {
      assert TrackerOk(r, msgs, t.f.splitId);
    }
  }

  /** What the receiver holds together with what was sent, before any wrap. */
  ghost predicate Sane(r: Receiver, msgs: Messages, nums: seq<nat>) {
    World(msgs, nums) && ProcInv(r, msgs, nums) && Orderly(r, msgs) && Keyed(msgs) && SplitDistinct(msgs) && !r.mixed
    && 0 <= r.seen.base && |nums| < HALF_SEQ && Low(msgs)
  }

  /** No ordering index has reached half the circle. */
  ghost predicate Low(msgs: Messages) {
    forall mid :: 0 <= mid < |msgs| && msgs[mid].rel.IsOrdered() ==> msgs[mid].oi + 1 < HALF_SEQ
  }

  /** Nothing seen is forgotten, so the base never falls. */
  lemma BaseRises(r: Receiver, r': Receiver)
    requires r.seen.Valid() && r'.seen.Valid() && Remembers(r, r')
    ensures r.seen.base <= r'.seen.base
  {
    assert !r'.seen.Has(r'.seen.base);
    assert r.seen.Has(r'.seen.base) ==> r'.seen.Has(r'.seen.base);
  }

  lemma SaneKeeps(r: Receiver, t: TFrame, now: real, timeout: real, victim: int, msgs: Messages, nums: seq<nat>)
    requires Sane(r, msgs, nums) && Known(msgs, nums, t) && ChannelFits(t) && (!Reliable(t) ==> !Processed(r, t.fid))
    ensures Sane(HandleFrame(r, t, now, timeout, victim), msgs, nums)
  {
    FrameUnmixed(r, t, now, timeout, victim, msgs, nums);
    FrameOrderly(r, t, now, timeout, victim, msgs, nums);
    FrameKeeps(r, t, now, timeout, victim, msgs, nums);
    BaseRises(r, HandleFrame(r, t, now, timeout, victim));
  }

  lemma NumberReadable(r: Receiver, t: TFrame, msgs: Messages, nums: seq<nat>)
    requires Sane(r, msgs, nums) && Known(msgs, nums, t)
    ensures Receiving.NumberOk(r, t)
  {
    if r.seen.base > 0 {
      var below: nat := r.seen.base - 1;
      assert r.seen.Has(below);
    }
  }

  /** The channel has not passed what was sent on it. */
  lemma ExpectedLow(c: Ordering.Channel, handed: seq<nat>, msgs: Messages, ch: nat)
    requires ChannelHolds(c, handed, msgs, ch) && Low(msgs)
    ensures 0 <= c.expected < HALF_SEQ
  {
    assert |Ordering.OrderedOf(c.out)| == c.expected;
    if c.expected > 0 {
      var h := Ordering.OrderedOf(c.out)[c.expected - 1];
      OrderedOfIn(c.out, h);
      assert Authentic(handed, msgs, ch, h);
    }
  }

  /** A message not handed on yet is admitted by its channel. */
  lemma Admitted(r: Receiver, t: TFrame, msgs: Messages, nums: seq<nat>)
    requires Sane(r, msgs, nums) && Known(msgs, nums, t) && ChannelFits(t) && t.f.reliability.IsOrdered()
    requires !Processed(r, t.fid)
    ensures Receiving.Admits(r.chans[t.f.orderingChannel], Deliverable(t, t.f.data))
  {
    var m, ch := msgs[t.mid], t.f.orderingChannel;
    var c, h := r.chans[ch], HandedOf(m, t.mid);
    NotHandedYet(r, msgs, t);
    DeliverableIs(msgs, t);
    assert ChannelHolds(c, r.handed, msgs, ch);
    FitsInRuns(c, r.handed, msgs, ch, t.mid);
    ExpectedLow(c, r.handed, msgs, ch);
    forall e | e in c.heap
      ensures Receiving.SameEpoch(e.h.oi, h.oi) && !Ordering.SameKey(e.h, Deliverable(t, t.f.data))
    {
      assert Authentic(r.handed, msgs, ch, e.h);
    }
  }

  lemma FrameReadable(r: Receiver, t: TFrame, now: real, timeout: real, msgs: Messages, nums: seq<nat>)
    requires Sane(r, msgs, nums) && Known(msgs, nums, t) && ChannelFits(t) && (!Reliable(t) ==> !Processed(r, t.fid))
    ensures Receiving.FrameOk(r, t, now, timeout)
  {
    NumberReadable(r, t, msgs, nums);
    FilterKeeps(r, t, msgs, nums);
    if Filtered(r, t).1 && t.f.reliability.IsOrdered() {
      Admitted(r, t, msgs, nums);
    }
  }

  lemma {:induction false} FramesReadable(r: Receiver, ts: seq<TFrame>, now: real, timeout: real, msgs: Messages, nums: seq<nat>)
    requires Sane(r, msgs, nums) && AllKnown(msgs, nums, ts) && Novel(r, ts)
    ensures Receiving.FramesOk(r, ts, now, timeout)
    decreases |ts|
  {
    if ts != [] {
      FrameReadable(r, ts[0], now, timeout, msgs, nums);
      forall v | Splitting.VictimOk(r.trackers, FragmentOf(ts[0].f), now, timeout, v)
        ensures Receiving.FramesOk(HandleFrame(r, ts[0], now, timeout, v), ts[1..], now, timeout)
      {
        NextReadable(r, ts, now, timeout, v, msgs, nums);
        FramesReadable(HandleFrame(r, ts[0], now, timeout, v), ts[1..], now, timeout, msgs, nums);
      }
    }
  }

  lemma NextReadable(r: Receiver, ts: seq<TFrame>, now: real, timeout: real, v: int, msgs: Messages, nums: seq<nat>)
    requires Sane(r, msgs, nums) && AllKnown(msgs, nums, ts) && Novel(r, ts) && ts != []
    ensures ChannelFits(ts[0])
    ensures var r1 := HandleFrame(r, ts[0], now, timeout, v);
      Sane(r1, msgs, nums) && AllKnown(msgs, nums, ts[1..]) && Novel(r1, ts[1..])
  {
    SaneKeeps(r, ts[0], now, timeout, v, msgs, nums);
    FrameKeeps(r, ts[0], now, timeout, v, msgs, nums);
    NovelTail(r, HandleFrame(r, ts[0], now, timeout, v), ts);
  }

  /** Reading a datagram mixes nothing. */
  lemma {:induction false} FramesUnmixed(r: Receiver, ts: seq<TFrame>, now: real, timeout: real, victims: seq<int>,
                                         msgs: Messages, nums: seq<nat>)
    requires World(msgs, nums) && ProcInv(r, msgs, nums) && AllKnown(msgs, nums, ts) && Novel(r, ts)
    requires |victims| == |ts| && forall t <- ts :: ChannelFits(t)
    requires Orderly(r, msgs) && Keyed(msgs) && SplitDistinct(msgs) && !r.mixed
    ensures !HandleFrames(r, ts, now, timeout, victims).mixed
    decreases |ts|
  {
    if ts != [] {
      var r1 := HandleFrame(r, ts[0], now, timeout, victims[0]);
      FrameUnmixed(r, ts[0], now, timeout, victims[0], msgs, nums);
      FrameOrderly(r, ts[0], now, timeout, victims[0], msgs, nums);
      FrameKeeps(r, ts[0], now, timeout, victims[0], msgs, nums);
      NovelTail(r, r1, ts);
      assert forall t <- ts[1..] :: t in ts;
      FramesUnmixed(r1, ts[1..], now, timeout, victims[1..], msgs, nums);
    }
  }

  // ---------- runs ----------

  /** Where the receiver's counters stand against what was sent. */
  ghost predicate Bounded(r: Receiver, sent: nat) {
    ReceiverGaps.Tidy(r) && 0 <= r.recent.base && r.expected <= sent && 0 <= r.seen.base
  }

  ghost predicate LapInv(s: State) {
    Inv(s) && Bounded(s.rx, |s.net|) && SplitInv(s.tx)
    && (s.tx.nextSplit <= 0x10000 && Shallow(s.tx.msgs) ==> !s.rx.mixed)
  }

  lemma SenderLap(s: State, a: Action, mtu: int)
    requires LapInv(s) && Possible(s, SenderActs(a, mtu))
    ensures LapInv(Step(s, SenderActs(a, mtu)))
  {
    SenderStep(s, a, mtu);
    ActSplits(s.tx, a, mtu);
    if Shallow(Act(s.tx, a, mtu).msgs) {
      ShallowBefore(s.tx.msgs, Act(s.tx, a, mtu).msgs);
    }
  }

  lemma DataBounded(s: State, e: Event)
    requires LapInv(s) && e.Arrives? && Possible(s, e)
    ensures Bounded(Step(s, e).rx, |s.net|)
  {
    NetReadable(s, e.n);
    DataKeeps(s.rx, e.n, s.net, e.now, e.timeout, e.victims, s.tx.msgs, s.tx.numbered);
    ReceiverGaps.DataReports(s.rx, e.n, Arriving(s.net[e.n]), e.now, e.timeout, e.victims);
    BaseRises(s.rx, Step(s, e).rx);
  }

  lemma DataUnmixed(s: State, e: Event)
    requires LapInv(s) && e.Arrives? && Possible(s, e) && s.tx.nextSplit <= 0x10000 && Shallow(s.tx.msgs)
    ensures !Step(s, e).rx.mixed
  {
    NetReadable(s, e.n);
    WorldFrom(s.tx, s.net);
    DistinctExactly(s.tx);
    DatagramUnmixed(s.rx, e.n, s.net, e.now, e.timeout, e.victims, s.tx.msgs, s.tx.numbered);
  }

  lemma DatagramUnmixed(r: Receiver, n: nat, net: SenderNet.Net, now: real, timeout: real, victims: seq<int>,
                        msgs: Messages, nums: seq<nat>)
    requires World(msgs, nums) && Readable(r, n, net, msgs, nums) && |victims| == |net[n]|
    requires Orderly(r, msgs) && Keyed(msgs) && SplitDistinct(msgs) && !r.mixed
    ensures !ReceiverSpec.HandleData(r, n, Arriving(net[n]), now, timeout, victims).mixed
  {
    if Congestion.Got(r.expected, n).1.Some? && !r.recent.Has(n) {
      ReadableNovel(r, n, net, msgs, nums);
      var r1 := Receiving.Opening(r, n);
      SameOrderly(r, r1, msgs);
      FramesUnmixed(r1, Arriving(net[n]), now, timeout, victims, msgs, nums);
    }
  }

  lemma ArrivalLap(s: State, e: Event)
    requires LapInv(s) && e.Arrives? && Possible(s, e)
    ensures LapInv(Step(s, e))
  {
    ArrivalStep(s, e);
    DataBounded(s, e);
    if s.tx.nextSplit <= 0x10000 && Shallow(s.tx.msgs) {
      DataUnmixed(s, e);
    }
  }

  lemma StepLap(s: State, e: Event)
    requires LapInv(s) && Possible(s, e)
    ensures LapInv(Step(s, e))
  {
    match e
    case SenderActs(a, mtu) => SenderLap(s, a, mtu);
    case Arrives(_, _, _, _) => ArrivalLap(s, e);
    case _ => QuietLap(s, e);
  }

  lemma QuietLap(s: State, e: Event)
    requires LapInv(s) && (e.ReceiverTicks? || e.Polled?) && Possible(s, e)
    ensures LapInv(Step(s, e))
  {
    QuietStep(s, e);
    QuietSame(s, e);
  }

  /** Ticks and polls leave the filters and all that was sent alone. */
  lemma QuietSame(s: State, e: Event)
    requires Inv(s) && (e.ReceiverTicks? || e.Polled?) && Possible(s, e)
    ensures var s' := Step(s, e);
      s'.tx == s.tx && s'.net == s.net && s'.rx.recent == s.rx.recent && s'.rx.expected == s.rx.expected
      && s'.rx.seen == s.rx.seen && s'.rx.mixed == s.rx.mixed && s'.rx.chans == s.rx.chans
  {
  }

  lemma {:induction false} RunLap(s: State, es: seq<Event>)
    requires LapInv(s) && Runnable(s, es)
    ensures LapInv(Run(s, es))
    decreases |es|
  {
    if es != [] {
      StepLap(s, es[0]);
      RunLap(Step(s, es[0]), es[1..]);
    }
  }

  lemma InitialLap(s: State)
    requires Initial(s)
    ensures LapInv(s)
  {
    InitialInv(s);
    NewReceiverBounded(s.rx);
    NothingSplit(s.tx);
  }

  lemma NewReceiverBounded(r: Receiver)
    requires r == NewReceiver()
    ensures Bounded(r, 0) && !r.mixed
  {
  }

  lemma NothingSplit(s: Sender)
    requires |s.msgs| == 0 && s.nextSplit == 0
    ensures SplitInv(s)
  {
  }

  lemma ReachableLap(s: State)
    requires Reachable(s)
    ensures LapInv(s)
  {
    var s0, es :| Initial(s0) && S.Shaped(s0.tx) && ReceiverSpec.Shaped(s0.rx) && Runnable(s0, es) && Run(s0, es) == s;
    InitialLap(s0);
    RunLap(s0, es);
  }

  /** In every run identifiers tell split messages apart if and only if there
      are at most 65536 of them. */
  lemma IdentifiersOfRuns(s: State)
    requires Reachable(s)
    ensures SplitDistinct(s.tx.msgs) <==> SplitCount(s.tx.msgs) <= 0x10000
  {
    ReachableLap(s);
    DistinctExactly(s.tx);
  }

  /** As long as at most 65536 messages were split, no fragment ever meets the
      tracker of another message. */
  lemma NeverMixed(s: State)
    requires Reachable(s) && s.tx.nextSplit <= 0x10000 && Shallow(s.tx.msgs)
    ensures !s.rx.mixed
  {
    ReachableLap(s);
  }

  /** Counters of the sender that have not passed half their circle. */
  ghost predicate Young(s: Sender) {
    s.sent < HALF_SEQ && s.nextReliable < HALF_SEQ && s.nextSplit <= 0x10000
    && |s.nextOrdering| == NUMBER_OF_ORDERED_STREAMS
    && forall ch :: 0 <= ch < NUMBER_OF_ORDERED_STREAMS ==> s.nextOrdering[ch] + 1 < HALF_SEQ
  }

  lemma YoungIsLow(s: Sender, net: Net)
    requires SenderOk(s, net) && Young(s)
    ensures Low(s.msgs) && |s.numbered| < HALF_SEQ
  {
    forall mid | 0 <= mid < |s.msgs| && s.msgs[mid].rel.IsOrdered()
      ensures s.msgs[mid].oi + 1 < HALF_SEQ
    {
      assert Channelled(s.msgs[mid]);
    }
  }

  lemma StateSane(s: State)
    requires LapInv(s) && Young(s.tx) && Shallow(s.tx.msgs)
    ensures Sane(s.rx, s.tx.msgs, s.tx.numbered)
  {
    YoungIsLow(s.tx, s.net);
    DistinctExactly(s.tx);
    WorldFrom(s.tx, s.net);
  }

  lemma OpeningSane(r: Receiver, n: int, msgs: Messages, nums: seq<nat>)
    requires Sane(r, msgs, nums)
    ensures Sane(Receiving.Opening(r, n), msgs, nums)
  {
    SameOrderly(r, Receiving.Opening(r, n), msgs);
  }

  /** On the first lap every datagram the network may deliver is one the class
      can read: all its hypotheses on numbers, keys and buffered indices hold. */
  lemma ArrivalsReadable(s: State, n: nat, now: real, timeout: real)
    requires Reachable(s) && Young(s.tx) && Shallow(s.tx.msgs) && n < |s.net|
    ensures Receiving.DataOk(s.rx, n, Arriving(s.net[n]), now, timeout)
  {
    ReachableLap(s);
    ArrivalsFit(s, n);
    if !s.rx.recent.Has(n) {
      OpeningReadable(s, n, now, timeout);
    }
  }

  lemma OpeningReadable(s: State, n: nat, now: real, timeout: real)
    requires LapInv(s) && Young(s.tx) && Shallow(s.tx.msgs) && n < |s.net| && !s.rx.recent.Has(n)
    ensures Receiving.FramesOk(Receiving.Opening(s.rx, n), Arriving(s.net[n]), now, timeout)
  {
    StateSane(s);
    NetReadable(s, n);
    ReadableNovel(s.rx, n, s.net, s.tx.msgs, s.tx.numbered);
    OpeningSane(s.rx, n, s.tx.msgs, s.tx.numbered);
    FramesReadable(Receiving.Opening(s.rx, n), Arriving(s.net[n]), now, timeout, s.tx.msgs, s.tx.numbered);
  }

  /** End to end on the first lap: order and content as promised, under a
      condition on the sender's counters alone. */
  lemma FirstLapDelivery(s: State, ch: nat)
    requires Reachable(s) && s.tx.nextSplit <= 0x10000 && Shallow(s.tx.msgs) && ch < NUMBER_OF_ORDERED_STREAMS
    ensures ReceiverSpec.Shaped(s.rx) && InSendOrder(s.rx.chans[ch].out, s.tx.msgs, ch)
    ensures Distinct(s.rx.handed) && GivenAsSent(s.rx.handed, s.rx.given, s.tx.msgs)
    ensures forall mid: nat :: mid < |s.tx.msgs| && OrderedAt(s.tx.msgs[mid], ch, s.tx.msgs[mid].oi) ==>
      (DeliveredOn(s.rx.chans[ch].out, mid) <==> s.tx.msgs[mid].oi < s.rx.chans[ch].expected)
  {
    NeverMixed(s);
    DeliveryInOrder(s, ch);
  }
}

/** From the sender's messages to the answers of the receiver's application. */
module EndToEnd {
  import opened Types
  import opened WireFormat
  import opened Tags
  import opened ReceiverSpec
  import opened ReceiverInv
  import opened DeliveryInv
  import opened Transport
  import opened Application
  import opened Handover
  import SenderSpec
  import SenderQueue
  import Ordering
  import Windows
  import Congestion

  // ---------- messages that came without a channel ----------

  /** Messages and bytes of what came without a channel. */
  function DirectOnes(ms: seq<Moment>): seq<(nat, Bytes)> {
    if ms == [] then []
    else
      var last := ms[|ms| - 1];
      DirectOnes(ms[..|ms| - 1]) + (if last.Direct? then [(last.t.mid, last.data)] else [])
  }

  predicate Unordered(msgs: Messages, mid: nat) {
    mid < |msgs| && !msgs[mid].rel.IsOrdered()
  }

  /** The unordered messages among those handed on, with the bytes handed on. */
  function UnorderedGiven(handed: seq<nat>, given: seq<Bytes>, msgs: Messages): seq<(nat, Bytes)>
    requires |given| == |handed|
    decreases |handed|
  {
    if handed == [] then []
    else
      var n := |handed| - 1;
      UnorderedGiven(handed[..n], given[..n], msgs) + (if Unordered(msgs, handed[n]) then [(handed[n], given[n])] else [])
  }

  /** An unordered frame carries no channel. */
  predicate Plain(t: TFrame) {
    !t.f.reliability.IsOrdered() ==> t.f.orderingChannel == 0
  }

  ghost predicate MatchInv(r: Receiver, msgs: Messages) {
    (forall i :: 0 <= i < |r.moments| && r.moments[i].Direct? ==> r.moments[i].t.f.orderingChannel == 0)
    && |r.given| == |r.handed| && (forall j :: 0 <= j < |r.handed| ==> r.handed[j] < |msgs|)
    && DirectOnes(r.moments) == UnorderedGiven(r.handed, r.given, msgs)
  }

  lemma DirectSnoc(ms: seq<Moment>, m: Moment)
    ensures DirectOnes(ms + [m]) == DirectOnes(ms) + (if m.Direct? then [(m.t.mid, m.data)] else [])
  {
    assert (ms + [m])[..|ms|] == ms;
  }

  lemma {:induction false} DirectLeaving(ms: seq<Moment>, items: seq<Ordering.Handed>, ch: int)
    ensures DirectOnes(ms + Leaving(items, ch)) == DirectOnes(ms)
    decreases |items|
  {
    if items == [] {
      assert ms + Leaving(items, ch) == ms;
    } else {
      LeavingCons(ms, items, ch);
      DirectSnoc(ms, Through(ch, items[0]));
      DirectLeaving(ms + [Through(ch, items[0])], items[1..], ch);
    }
  }

  lemma GivenSnoc(handed: seq<nat>, given: seq<Bytes>, msgs: Messages, mid: nat, data: Bytes)
    requires |given| == |handed|
    ensures UnorderedGiven(handed + [mid], given + [data], msgs)
            == UnorderedGiven(handed, given, msgs) + (if Unordered(msgs, mid) then [(mid, data)] else [])
  {
    assert (handed + [mid])[..|handed|] == handed && (given + [data])[..|given|] == given;
  }

  lemma {:induction false} GivenGrows(handed: seq<nat>, given: seq<Bytes>, msgs: Messages, msgs': Messages)
    requires |given| == |handed| && msgs <= msgs' && forall j :: 0 <= j < |handed| ==> handed[j] < |msgs|
    ensures UnorderedGiven(handed, given, msgs') == UnorderedGiven(handed, given, msgs)
    decreases |handed|
  {
    if handed != [] {
      GivenGrows(handed[..|handed| - 1], given[..|given| - 1], msgs, msgs');
    }
  }

  lemma RouteMatch(r: Receiver, t: TFrame, data: Bytes, msgs: Messages)
    requires MatchInv(r, msgs) && Shaped(r) && ChannelFits(t) && Reads(msgs, t) && Plain(t)
    ensures MatchInv(Route(r, t, data), msgs)
  {
    if t.f.reliability.IsOrdered() {
      ThroughMatch(r, Route(r, t, data), t, data, NewlyOut(r, t, data), msgs);
    } else {
      DirectMatch(r, Route(r, t, data), t, data, msgs);
    }
  }

  /** What an ordered message makes its channel deliver. */
  function NewlyOut(r: Receiver, t: TFrame, data: Bytes): seq<Ordering.Handed>
    requires Shaped(r) && ChannelFits(t) && t.f.reliability.IsOrdered()
  {
    var c := r.chans[t.f.orderingChannel];
    var c' := Ordering.Accept(c, Deliverable(t, data), r.heapCounter + 1);
    c'.out[Min(|c.out|, |c'.out|)..]
  }

  lemma ThroughMatch(r: Receiver, r': Receiver, t: TFrame, data: Bytes, items: seq<Ordering.Handed>, msgs: Messages)
    requires MatchInv(r, msgs) && Reads(msgs, t) && t.f.reliability.IsOrdered()
    requires r'.handed == r.handed + [t.mid] && r'.given == r.given + [data]
    requires r'.moments == r.moments + Leaving(items, t.f.orderingChannel)
    ensures MatchInv(r', msgs)
  {
    GivenSnoc(r.handed, r.given, msgs, t.mid, data);
    DirectLeaving(r.moments, items, t.f.orderingChannel);
  }

  lemma DirectMatch(r: Receiver, r': Receiver, t: TFrame, data: Bytes, msgs: Messages)
    requires MatchInv(r, msgs) && Reads(msgs, t) && !t.f.reliability.IsOrdered() && t.f.orderingChannel == 0
    requires r'.handed == r.handed + [t.mid] && r'.given == r.given + [data] && r'.moments == r.moments + [Direct(t, data)]
    ensures MatchInv(r', msgs)
  {
    GivenSnoc(r.handed, r.given, msgs, t.mid, data);
    DirectSnoc(r.moments, Direct(t, data));
  }

  lemma SameMatch(r: Receiver, r': Receiver, msgs: Messages)
    requires MatchInv(r, msgs) && r'.handed == r.handed && r'.given == r.given && r'.moments == r.moments
    ensures MatchInv(r', msgs)
  {
  }

  lemma FrameMatch(r: Receiver, t: TFrame, now: real, timeout: real, victim: int, msgs: Messages)
    requires MatchInv(r, msgs) && Shaped(r) && ChannelFits(t) && Reads(msgs, t) && Plain(t)
    ensures MatchInv(HandleFrame(r, t, now, timeout, victim), msgs)
  {
    var r1 := Filtered(r, t).0;
    SameMatch(r, r1, msgs);
    if t.f.splitCount > 0 {
      var (r2, out) := Reassembled(r1, t, now, timeout, victim);
      SameMatch(r1, r2, msgs);
      if out.Some? {
        RouteMatch(r2, t, out.value, msgs);
      }
    } else {
      RouteMatch(r1, t, t.f.data, msgs);
    }
  }

  lemma {:induction false} FramesMatch(r: Receiver, ts: seq<TFrame>, now: real, timeout: real, victims: seq<int>, msgs: Messages)
    requires MatchInv(r, msgs) && Shaped(r) && |victims| == |ts| && (forall t <- ts :: ChannelFits(t))
    requires forall i :: 0 <= i < |ts| ==> Reads(msgs, ts[i]) && Plain(ts[i])
    ensures MatchInv(HandleFrames(r, ts, now, timeout, victims), msgs)
    decreases |ts|
  {
    if ts != [] {
      assert ts[0] in ts && forall t <- ts[1..] :: t in ts;
      FrameMatch(r, ts[0], now, timeout, victims[0], msgs);
      FramesMatch(HandleFrame(r, ts[0], now, timeout, victims[0]), ts[1..], now, timeout, victims[1..], msgs);
    }
  }

  lemma DataMatch(r: Receiver, n: int, ts: seq<TFrame>, now: real, timeout: real, victims: seq<int>, msgs: Messages)
    requires MatchInv(r, msgs) && Shaped(r) && |victims| == |ts| && (forall t <- ts :: ChannelFits(t))
    requires forall i :: 0 <= i < |ts| ==> Reads(msgs, ts[i]) && Plain(ts[i])
    ensures MatchInv(HandleData(r, n, ts, now, timeout, victims), msgs)
  {
    match Congestion.Got(r.expected, n)
    case (_, None) =>
    case (e, Some(skipped)) =>
      if !r.recent.Has(n) {
        var r1 := r.(expected := e, acks := r.acks + {n}, naks := r.naks + ReceiverSpec.Missing(r.recent, n, skipped));
        var r2 := r1.(recent := Windows.Record(r.recent, RECEIVED_WINDOW_SIZE, n));
        SameMatch(r, r2, msgs);
        FramesMatch(r2, ts, now, timeout, victims, msgs);
      }
  }

  // ---------- what every step of the system keeps ----------

  ghost predicate EndInv(s: State) {
    Inv(s) && AppInv(s.rx) && MatchInv(s.rx, s.tx.msgs)
    && (!s.rx.mixed && Shallow(s.tx.msgs) ==> HandInv(s.rx, s.tx.msgs))
  }

  /** Messages recorded later own no frame that has been read. */
  lemma HandGrows(r: Receiver, msgs: Messages, nums: seq<nat>, msgs': Messages, nums': seq<nat>)
    requires ProcInv(r, msgs, nums) && World(msgs', nums') && msgs <= msgs' && HandInv(r, msgs)
    ensures HandInv(r, msgs')
  {
    forall mid: nat, fid: nat | mid < |msgs'| && Read(r, msgs', mid, fid)
      ensures mid < |msgs|
    {
      var i :| 0 <= i < |r.processed| && r.processed[i].fid == fid;
      assert Known(msgs, nums, r.processed[i]);
      assert Owns(msgs'[r.processed[i].mid], fid);
    }
    forall mid: nat, fid: nat | IsSplit(msgs', mid) && mid !in r.discarded && !SenderQueue.Stands(r.handed, mid)
                                && Read(r, msgs', mid, fid)
      ensures Held(r, msgs', mid, fid)
    {
      assert IsSplit(msgs, mid) && Read(r, msgs, mid, fid);
      assert Held(r, msgs, mid, fid);
    }
    forall mid | mid in r.discarded
      ensures IsSplit(msgs', mid) && Spoilt(r, msgs', mid)
    {
      var fid: nat :| Read(r, msgs, mid, fid) && !Held(r, msgs, mid, fid);
      assert Read(r, msgs', mid, fid) && !Held(r, msgs', mid, fid);
    }
  }

  lemma SenderEnd(s: State, a: SenderSpec.Action, mtu: int)
    requires EndInv(s) && Possible(s, SenderActs(a, mtu))
    ensures EndInv(Step(s, SenderActs(a, mtu)))
  {
    var s' := Step(s, SenderActs(a, mtu));
    SenderStep(s, a, mtu);
    ActOk(s, a, mtu);
    GivenGrows(s.rx.handed, s.rx.given, s.tx.msgs, s'.tx.msgs);
    if !s'.rx.mixed && Shallow(s'.tx.msgs) {
      ShallowBefore(s.tx.msgs, s'.tx.msgs);
      HandGrows(s.rx, s.tx.msgs, s.tx.numbered, s'.tx.msgs, s'.tx.numbered);
    }
  }

  lemma ArrivalHand(s: State, e: Event)
    requires EndInv(s) && e.Arrives? && Possible(s, e) && !Step(s, e).rx.mixed && Shallow(s.tx.msgs)
    ensures HandInv(Step(s, e).rx, s.tx.msgs)
  {
    NetReadable(s, e.n);
    WorldFrom(s.tx, s.net);
    MixedBefore(s.rx, e.n, Arriving(s.net[e.n]), e.now, e.timeout, e.victims);
    DataHand(s.rx, e.n, s.net, e.now, e.timeout, e.victims, s.tx.msgs, s.tx.numbered);
  }

  lemma MixedBefore(r: Receiver, n: int, ts: seq<TFrame>, now: real, timeout: real, victims: seq<int>)
    requires Shaped(r) && |victims| == |ts| && (forall t <- ts :: ChannelFits(t))
    ensures r.mixed ==> HandleData(r, n, ts, now, timeout, victims).mixed
  {
    match Congestion.Got(r.expected, n)
    case (_, None) =>
    case (e, Some(skipped)) =>
      var r1 := r.(expected := e, acks := r.acks + {n}, naks := r.naks + ReceiverSpec.Missing(r.recent, n, skipped));
      MixedStaysAll(r1.(recent := Windows.Record(r.recent, RECEIVED_WINDOW_SIZE, n)), ts, now, timeout, victims);
  }

  lemma ArrivalEnd(s: State, e: Event)
    requires EndInv(s) && e.Arrives? && Possible(s, e)
    ensures EndInv(Step(s, e))
  {
    var ts := Arriving(s.net[e.n]);
    ArrivalStep(s, e);
    NetReadable(s, e.n);
    DataApp(s.rx, e.n, ts, e.now, e.timeout, e.victims);
    forall i | 0 <= i < |ts|
      ensures Reads(s.tx.msgs, ts[i]) && Plain(ts[i])
    {
      assert Known(s.tx.msgs, s.tx.numbered, ts[i]);
      BaseKeepsFields(s.net[e.n][i].f.reliability);
    }
    DataMatch(s.rx, e.n, ts, e.now, e.timeout, e.victims, s.tx.msgs);
    if !Step(s, e).rx.mixed && Shallow(s.tx.msgs) {
      ArrivalHand(s, e);
    }
  }

  lemma PollMatch(r: Receiver, msgs: Messages)
    requires MatchInv(r, msgs)
    ensures MatchInv(Poll(r).0, msgs)
  {
    DirectSnoc(r.moments, Taken);
  }

  lemma PollEnd(s: State)
    requires EndInv(s) && Possible(s, Event.Polled)
    ensures EndInv(Step(s, Event.Polled))
  {
    QuietStep(s, Event.Polled);
    PollApp(s.rx);
    PollMatch(s.rx, s.tx.msgs);
    if !s.rx.mixed && Shallow(s.tx.msgs) {
      SameHand(s.rx, Poll(s.rx).0, s.tx.msgs);
    }
  }

  lemma TickEnd(s: State, e: Event)
    requires EndInv(s) && e.ReceiverTicks? && Possible(s, e)
    ensures EndInv(Step(s, e))
  {
    var r' := Ticked(s.rx, e.now, e.timeout, e.sendAcks);
    QuietStep(s, e);
    AppSame(s.rx, r');
    SameMatch(s.rx, r', s.tx.msgs);
    if !s.rx.mixed && Shallow(s.tx.msgs) {
      TickHand(s.rx, e.now, e.timeout, e.sendAcks, s.tx.msgs);
    }
  }

  lemma StepEnd(s: State, e: Event)
    requires EndInv(s) && Possible(s, e)
    ensures EndInv(Step(s, e))
  {
    match e
    case SenderActs(a, mtu) => SenderEnd(s, a, mtu);
    case Arrives(_, _, _, _) => ArrivalEnd(s, e);
    case ReceiverTicks(_, _, _) => TickEnd(s, e);
    case Polled => PollEnd(s);
  }

  // ---------- runs ----------

  /** What the polls of a run answer, in order. */
  ghost function Answers(s: State, es: seq<Event>): seq<Pair>
    requires SenderSpec.Shaped(s.tx) && Shaped(s.rx) && Runnable(s, es)
    decreases |es|
  {
    if es == [] then []
    else (if es[0].Polled? && Poll(s.rx).1.Some? then [Poll(s.rx).1.value] else []) + Answers(Step(s, es[0]), es[1..])
  }

  /** Only a poll takes from the queue. */
  lemma StepAnswers(s: State, e: Event)
    requires EndInv(s) && Possible(s, e)
    ensures Fifo(Step(s, e).rx.moments).0
            == Fifo(s.rx.moments).0 + (if e.Polled? && Poll(s.rx).1.Some? then [Poll(s.rx).1.value] else [])
  {
    match e
    case SenderActs(a, mtu) =>
    case Arrives(n, now, timeout, victims) => DataAnswers(s.rx, n, Arriving(s.net[n]), now, timeout, victims);
    case ReceiverTicks(_, _, _) =>
    case Polled => PollApp(s.rx);
  }

  lemma RouteAnswers(r: Receiver, t: TFrame, data: Bytes)
    requires Shaped(r) && ChannelFits(t)
    ensures Fifo(Route(r, t, data).moments).0 == Fifo(r.moments).0
  {
    if t.f.reliability.IsOrdered() {
      LeavingEnters(r.moments, NewlyOut(r, t, data), t.f.orderingChannel);
    } else {
      FifoSnoc(r.moments, Direct(t, data));
    }
  }

  lemma DispatchAnswers(r: Receiver, t: TFrame, now: real, timeout: real, victim: int)
    requires Shaped(r) && ChannelFits(t)
    ensures Fifo(Dispatch(r, t, now, timeout, victim).moments).0 == Fifo(r.moments).0
  {
    if t.f.splitCount > 0 {
      var (r1, out) := Reassembled(r, t, now, timeout, victim);
      if out.Some? {
        RouteAnswers(r1, t, out.value);
      }
    } else {
      RouteAnswers(r, t, t.f.data);
    }
  }

  lemma FrameAnswers(r: Receiver, t: TFrame, now: real, timeout: real, victim: int)
    requires Shaped(r) && ChannelFits(t)
    ensures Fifo(HandleFrame(r, t, now, timeout, victim).moments).0 == Fifo(r.moments).0
  {
    var (r1, passed) := Filtered(r, t);
    assert r1.moments == r.moments;
    if passed {
      DispatchAnswers(r1, t, now, timeout, victim);
    }
  }

  lemma {:induction false} FramesAnswers(r: Receiver, ts: seq<TFrame>, now: real, timeout: real, victims: seq<int>)
    requires Shaped(r) && |victims| == |ts| && (forall t <- ts :: ChannelFits(t))
    ensures Fifo(HandleFrames(r, ts, now, timeout, victims).moments).0 == Fifo(r.moments).0
    decreases |ts|
  {
    if ts != [] {
      assert ts[0] in ts && forall t <- ts[1..] :: t in ts;
      FrameAnswers(r, ts[0], now, timeout, victims[0]);
      FramesAnswers(HandleFrame(r, ts[0], now, timeout, victims[0]), ts[1..], now, timeout, victims[1..]);
    }
  }

  lemma DataAnswers(r: Receiver, n: int, ts: seq<TFrame>, now: real, timeout: real, victims: seq<int>)
    requires Shaped(r) && |victims| == |ts| && (forall t <- ts :: ChannelFits(t))
    ensures Fifo(HandleData(r, n, ts, now, timeout, victims).moments).0 == Fifo(r.moments).0
  {
    match Congestion.Got(r.expected, n)
    case (_, None) =>
    case (e, Some(skipped)) =>
      if !r.recent.Has(n) {
        var r1 := r.(expected := e, acks := r.acks + {n}, naks := r.naks + ReceiverSpec.Missing(r.recent, n, skipped));
        FramesAnswers(r1.(recent := Windows.Record(r.recent, RECEIVED_WINDOW_SIZE, n)), ts, now, timeout, victims);
      }
  }

  lemma {:induction false} RunEnd(s: State, es: seq<Event>)
    requires EndInv(s) && Runnable(s, es)
    ensures EndInv(Run(s, es)) && Fifo(Run(s, es).rx.moments).0 == Fifo(s.rx.moments).0 + Answers(s, es)
    ensures s.rx.moments == [] ==> Fifo(Run(s, es).rx.moments).0 == Answers(s, es)
    decreases |es|
  {
    if es == [] {
      assert Fifo(s.rx.moments).0 + [] == Fifo(s.rx.moments).0;
    } else {
      StepEnd(s, es[0]);
      StepAnswers(s, es[0]);
      RunEnd(Step(s, es[0]), es[1..]);
      AnswersJoin(Fifo(s.rx.moments).0, if es[0].Polled? && Poll(s.rx).1.Some? then [Poll(s.rx).1.value] else [],
                  Answers(Step(s, es[0]), es[1..]));
    }
  }

  lemma AnswersJoin(a: seq<Pair>, b: seq<Pair>, c: seq<Pair>)
    ensures a + b + c == a + (b + c)
  {
  }
  lemma InitialEnd(s: State)
    requires Initial(s)
    ensures EndInv(s) && s.rx.moments == [] && s.rx.queue == []
  {
    InitialInv(s);
    NewReceiverEnd();
  }

  lemma NewReceiverEnd()
    ensures AppInv(NewReceiver()) && MatchInv(NewReceiver(), []) && HandInv(NewReceiver(), [])
  {
  }

  /** In every run what the polls have answered, followed by what waits in the
      receive queue, is exactly what came while fewer than 16384 messages waited,
      each once, in the order it came. */
  lemma AnswersOfRuns(s0: State, es: seq<Event>)
    requires Initial(s0) && SenderSpec.Shaped(s0.tx) && Shaped(s0.rx) && Runnable(s0, es)
    ensures var ms := Run(s0, es).rx.moments;
      (Answers(s0, es), Run(s0, es).rx.queue) == Fifo(ms) && Answers(s0, es) + Run(s0, es).rx.queue == Kept(ms)
  {
    InitialEnd(s0);
    RunEnd(s0, es);
    WaitingIs(Run(s0, es));
    AnswersThenWaiting(Run(s0, es).rx.moments);
  }

  lemma WaitingIs(s: State)
    requires EndInv(s)
    ensures Fifo(s.rx.moments).1 == s.rx.queue
  {
  }

  lemma ReachableEnd(s: State)
    requires Reachable(s)
    ensures EndInv(s)
  {
    var s0, es :| Initial(s0) && SenderSpec.Shaped(s0.tx) && Shaped(s0.rx) && Runnable(s0, es) && Run(s0, es) == s;
    InitialEnd(s0);
    RunEnd(s0, es);
  }

  /** And what came is: of a channel, what it delivered; without a channel, the
      unordered messages handed on, with the bytes handed on; and among these the
      unsplit ones are the whole unordered frames processed, each once, in order,
      with their own bytes. */
  lemma CameExactly(s: State)
    requires Reachable(s)
    ensures Shaped(s.rx) && forall ch: nat :: ch < NUMBER_OF_ORDERED_STREAMS ==> OutOf(s.rx.moments, ch) == s.rx.chans[ch].out
    ensures |s.rx.given| == |s.rx.handed|
            && DirectOnes(s.rx.moments) == UnorderedGiven(s.rx.handed, s.rx.given, s.tx.msgs)
    ensures WholeDirect(s.rx.moments) == WholeAmong(s.rx.processed)
  {
    ReachableEnd(s);
  }

  /** A message all of whose frames have been processed has been handed on, if
      and only if none of its fragments was given up. */
  lemma HandedOnExactly(s: State, mid: nat)
    requires Reachable(s) && !s.rx.mixed && Shallow(s.tx.msgs)
    requires mid < |s.tx.msgs| && AllProcessed(s.rx, s.tx.msgs[mid])
    ensures SenderQueue.Stands(s.rx.handed, mid) <==> mid !in s.rx.discarded
  {
    ReachableEnd(s);
    WorldFrom(s.tx, s.net);
    HandedExactly(s.rx, s.tx.msgs, s.tx.numbered, mid);
  }

  // ---------- one unordered message ----------

  ghost predicate CameAt(ms: seq<Moment>, i: int, mid: nat, data: Bytes) {
    0 <= i < |ms| && ms[i].Direct? && ms[i].t.mid == mid && ms[i].data == data
  }

  lemma {:induction false} GivenHas(handed: seq<nat>, given: seq<Bytes>, msgs: Messages, j: nat)
    requires |given| == |handed| && j < |handed| && Unordered(msgs, handed[j])
    ensures (handed[j], given[j]) in UnorderedGiven(handed, given, msgs)
    decreases |handed|
  {
    if j < |handed| - 1 {
      GivenHas(handed[..|handed| - 1], given[..|given| - 1], msgs, j);
    }
  }

  lemma {:induction false} DirectCame(ms: seq<Moment>, mid: nat, data: Bytes) returns (i: nat)
    requires (mid, data) in DirectOnes(ms)
    ensures CameAt(ms, i, mid, data)
    decreases |ms|
  {
    var last := ms[|ms| - 1];
    if last.Direct? && last.t.mid == mid && last.data == data {
      i := |ms| - 1;
    } else {
      i := DirectCame(ms[..|ms| - 1], mid, data);
    }
  }

  /** What came at i while fewer than 16384 waited stands among what was kept. */
  lemma {:induction false} KeptAt(ms: seq<Moment>, i: nat)
    requires i < |ms| && !ms[i].Taken? && |Fifo(ms[..i]).1| < 16384
    ensures |Kept(ms[..i])| < |Kept(ms)| && Kept(ms)[|Kept(ms[..i])|] == PairOf(ms[i])
    decreases |ms|
  {
    if i < |ms| - 1 {
      assert ms[..|ms| - 1][..i] == ms[..i];
      KeptAt(ms[..|ms| - 1], i);
    }
  }

  /** Whatever the network does, an unordered message all of whose frames have
      been processed, none of them given up, came with exactly its bytes; if fewer
      than 16384 waited then, it has been polled or waits still. */
  lemma UnorderedArrives(s0: State, es: seq<Event>, mid: nat) returns (i: nat)
    requires Initial(s0) && SenderSpec.Shaped(s0.tx) && Shaped(s0.rx) && Runnable(s0, es)
    requires !Run(s0, es).rx.mixed && Shallow(Run(s0, es).tx.msgs) && Unordered(Run(s0, es).tx.msgs, mid)
    requires AllProcessed(Run(s0, es).rx, Run(s0, es).tx.msgs[mid]) && mid !in Run(s0, es).rx.discarded
    ensures var s := Run(s0, es);
      var ms, all := s.rx.moments, Answers(s0, es) + s.rx.queue;
      CameAt(ms, i, mid, s.tx.msgs[mid].data)
      && (|Fifo(ms[..i]).1| < 16384 ==>
            |Kept(ms[..i])| < |all| && all[|Kept(ms[..i])|] == (s.tx.msgs[mid].data, 0))
  {
    var s := Run(s0, es);
    assert Reachable(s);
    AnswersOfRuns(s0, es);
    i := DirectlyCame(s, mid);
    if |Fifo(s.rx.moments[..i]).1| < 16384 {
      KeptAt(s.rx.moments, i);
    }
  }

  lemma DirectlyCame(s: State, mid: nat) returns (i: nat)
    requires Reachable(s) && !s.rx.mixed && Shallow(s.tx.msgs)
    requires Unordered(s.tx.msgs, mid) && AllProcessed(s.rx, s.tx.msgs[mid]) && mid !in s.rx.discarded
    ensures CameAt(s.rx.moments, i, mid, s.tx.msgs[mid].data) && s.rx.moments[i].t.f.orderingChannel == 0
  {
    ReachableEnd(s);
    WorldFrom(s.tx, s.net);
    HandedOnExactly(s, mid);
    var j :| 0 <= j < |s.rx.handed| && s.rx.handed[j] == mid;
    GivenHas(s.rx.handed, s.rx.given, s.tx.msgs, j);
    i := DirectCame(s.rx.moments, mid, s.tx.msgs[mid].data);
  }
}

/** One sender, one receiver, and a network that holds every data datagram ever
    emitted and may deliver any of them, any number of times, or never.  The
    receiver's ACKs may reach the sender in any order, repeatedly, or never. */
module Transport {
  import opened Types
  import opened SeqNum
  import opened BitSpec
  import opened WireFormat
  import opened Tags
  import opened SenderSpec
  import opened SenderInv
  import opened SenderNet
  import SenderBytes
  import SenderQueue
  import Ordering
  import Splitting
  import Congestion
  import Windows
  import R = ReceiverSpec
  import RI = ReceiverInv
  import D = DeliveryInv

  /** acked: the datagram numbers named by ACKs emitted so far. */
  datatype State = State(tx: Sender, rx: R.Receiver, net: Net, acked: set<int>)

  datatype Event =
    | SenderActs(a: Action, mtu: int)
    | Arrives(n: nat, now: real, timeout: real, victims: seq<int>)
    | ReceiverTicks(now: real, timeout: real, sendAcks: bool)
    | Polled

  /** The MTU may differ from step to step.  NAKs name what they like; ACKs only what the receiver acknowledged.
      Arrivals are fit for a channel because the decoder rejects others
      (ArrivalsFit shows that none is). */
  ghost predicate Possible(s: State, e: Event) {
    match e
    case SenderActs(a, mtu) =>
      UDP_HEADER_SIZE + 9 < mtu <= 8251 && Enabled(s.tx, a, mtu) && (a.Submit? ==> 0 < |a.data| < 0x100000000)
      && (a.Acked? ==> forall i :: 0 <= i < |a.ns| ==> a.ns[i] in s.acked)
    case Arrives(n, _, _, victims) =>
      n < |s.net| && |victims| == |s.net[n]| && forall t <- RI.Arriving(s.net[n]) :: R.ChannelFits(t)
    case _ => true
  }

  ghost function Step(s: State, e: Event): State
    requires Shaped(s.tx) && R.Shaped(s.rx) && Possible(s, e)
  {
    match e
    case SenderActs(a, mtu) => s.(tx := Act(s.tx, a, mtu), net := s.net + FramesOf(Emitted(s.tx, a, mtu)))
    case Arrives(n, now, timeout, victims) =>
      s.(rx := R.HandleData(s.rx, n, RI.Arriving(s.net[n]), now, timeout, victims))
    case ReceiverTicks(now, timeout, sendAcks) =>
      s.(rx := R.Ticked(s.rx, now, timeout, sendAcks), acked := if sendAcks then s.acked + s.rx.acks else s.acked)
    case Polled => s.(rx := R.Poll(s.rx).0)
  }

  ghost predicate Initial(s: State) {
    s == State(NewSender(), R.NewReceiver(), [], {})
  }

  // ---------- what every step keeps ----------

  ghost function Done(r: R.Receiver): iset<int> {
    iset n | r.seen.Has(n) || n in r.refused
  }

  /** Everything acknowledged has been read. */
  ghost predicate AckInv(s: State) {
    forall n <- s.rx.acks + s.acked :: 0 <= n < |s.net| && RI.AllCovered(s.rx, RI.Arriving(s.net[n]))
  }

  /** Every frame survives its encoding. */
  ghost predicate Encodable(m: Message) {
    |m.pieces| < 0x100000000 && forall i :: 0 <= i < |m.pieces| ==> 0 < |m.pieces[i]| < 0x2000
  }

  ghost predicate AllEncodable(msgs: seq<Message>) {
    forall mid :: 0 <= mid < |msgs| ==> Encodable(msgs[mid])
  }

  ghost predicate Inv(s: State) {
    SenderOk(s.tx, s.net) && AllEncodable(s.tx.msgs) && RI.World(s.tx.msgs, s.tx.numbered)
    && RI.ProcInv(s.rx, s.tx.msgs, s.tx.numbered) && RI.OnceInv(s.rx, s.net) && Tracked(s.tx, Done(s.rx)) && AckInv(s)
    && (!s.rx.mixed && D.Shallow(s.tx.msgs) ==> D.Orderly(s.rx, s.tx.msgs))
  }

  // ---------- the sender's steps ----------

  lemma WorldFrom(s: Sender, net: Net)
    requires SenderOk(s, net)
    ensures RI.World(s.msgs, s.numbered) && D.KeyOrder(s.msgs)
  {
    ReliableOnlyDistinct(s.log, s.emitted);
    forall a, b, fid: nat | 0 <= a < |s.msgs| && 0 <= b < |s.msgs| && RI.Owns(s.msgs[a], fid) && RI.Owns(s.msgs[b], fid)
      ensures a == b
    {
      assert s.log[s.msgs[a].first + (fid - s.msgs[a].first)] == FrameOf(s.msgs[a], a, fid - s.msgs[a].first);
      assert s.log[s.msgs[b].first + (fid - s.msgs[b].first)] == FrameOf(s.msgs[b], b, fid - s.msgs[b].first);
    }
  }

  lemma KnownGrows(msgs: seq<Message>, nums: seq<nat>, msgs': seq<Message>, nums': seq<nat>, t: TFrame)
    requires RI.Known(msgs, nums, t) && msgs <= msgs' && nums <= nums'
    ensures RI.Known(msgs', nums', t)
  {
  }

  lemma ProcGrows(r: R.Receiver, msgs: seq<Message>, nums: seq<nat>, msgs': seq<Message>, nums': seq<nat>)
    requires RI.ProcInv(r, msgs, nums) && msgs <= msgs' && nums <= nums'
    ensures RI.ProcInv(r, msgs', nums')
  {
    forall i | 0 <= i < |r.processed|
      ensures RI.Known(msgs', nums', r.processed[i])
    {
      KnownGrows(msgs, nums, msgs', nums', r.processed[i]);
    }
  }

  lemma OnceGrows(r: R.Receiver, net: Net, net': Net)
    requires RI.OnceInv(r, net) && net <= net'
    ensures RI.OnceInv(r, net')
  {
    forall i | 0 <= i < |r.processed| && !RI.Reliable(r.processed[i])
      ensures RI.ReceivedWith(r.recent, net', r.processed[i].fid)
    {
      var n :| 0 <= n < |net| && r.recent.Has(n) && RI.Carries(net[n], r.processed[i].fid);
      assert net'[n] == net[n];
    }
  }

  lemma ShallowBefore(msgs: seq<Message>, msgs': seq<Message>)
    requires D.Shallow(msgs') && msgs <= msgs'
    ensures D.Shallow(msgs)
  {
    forall mid | 0 <= mid < |msgs| && msgs[mid].rel.IsSequenced()
      ensures msgs[mid].sub < Ordering.ORDERED_SUBKEY
    {
      assert msgs'[mid] == msgs[mid];
    }
  }

  lemma OrderlyGrows(r: R.Receiver, msgs: seq<Message>, msgs': seq<Message>)
    requires D.Orderly(r, msgs) && msgs <= msgs'
    ensures D.Orderly(r, msgs')
  {
    forall k | k in r.trackers
      ensures D.TrackerOk(r, msgs', k)
    {
      assert D.TrackerOk(r, msgs, k);
    }
    forall j | 0 <= j < |r.handed|
      ensures r.handed[j] < |msgs'| && D.AllProcessed(r, msgs'[r.handed[j]])
    {
      assert D.AllProcessed(r, msgs[r.handed[j]]);
    }
    forall ch: nat | ch < NUMBER_OF_ORDERED_STREAMS
      ensures D.ChannelHolds(r.chans[ch], r.handed, msgs', ch)
    {
      ChannelGrows(r.chans[ch], r.handed, msgs, msgs', ch);
    }
  }

  lemma ChannelGrows(c: Ordering.Channel, handed: seq<nat>, msgs: seq<Message>, msgs': seq<Message>, ch: nat)
    requires D.ChannelHolds(c, handed, msgs, ch) && msgs <= msgs'
    ensures D.ChannelHolds(c, handed, msgs', ch)
  {
    forall h | h in c.out
      ensures D.Authentic(handed, msgs', ch, h)
    {
      assert D.Authentic(handed, msgs, ch, h);
    }
    forall e | e in c.heap
      ensures D.Authentic(handed, msgs', ch, e.h)
    {
      assert D.Authentic(handed, msgs, ch, e.h);
    }
  }

  lemma NewEncodable(s: Sender, a: Action, mtu: int)
    requires Shaped(s) && a.Submit? && Enabled(s, a, mtu) && 0 < |a.data| < 0x100000000 && mtu <= 8251
    requires AllEncodable(s.msgs)
    ensures AllEncodable(Act(s, a, mtu).msgs)
  {
    if 0 <= a.ch < NUMBER_OF_ORDERED_STREAMS {
      var m := NewMessage(s, a.data, a.rel, a.ch, mtu);
      Splitting.PiecesJoin(a.data, MaxPayload(mtu));
      assert Encodable(m);
      EnqueueFromLog(Accepted(s, m), |s.msgs|, m, 0, a.priority);
    }
  }

  /** Everything the sender acknowledges as gone has been covered by the receiver. */
  lemma {:induction false} AckedAreDone(s: State, ns: seq<int>, k: int)
    requires HistoryNet(s.tx.history, s.net) && AckInv(s) && NetSound(s.tx.log, s.tx.numbered, s.net)
    requires LogInv(s.tx.msgs, s.tx.log)
    requires forall i :: 0 <= i < |ns| ==> ns[i] in s.acked
    requires k in SenderBytes.NumbersOf(s.tx.history, ns)
    ensures k in Done(s.rx)
  {
    var n := ns[|ns| - 1];
    if k in SenderBytes.NumbersOf(s.tx.history, ns[..|ns| - 1]) {
      AckedAreDone(s, ns[..|ns| - 1], k);
    } else {
      assert n in s.rx.acks + s.acked;
      assert n in s.tx.history;
      assert HasNumber(s.net[n], k);
      NumbersCarried(s.net[n], k);
      var i :| 0 <= i < |s.net[n]| && IsReliable(s.net[n][i]) && s.net[n][i].f.reliableNumber == k;
      assert AllSound(s.tx.log, s.tx.numbered, s.net[n]) && Sound(s.tx.log, s.tx.numbered, s.net[n][i]);
      RI.SoundArrives(s.tx.msgs, s.tx.log, s.tx.numbered, s.net[n][i]);
      assert RI.Covered(s.rx, RI.Arriving(s.net[n])[i]);
    }
  }

  lemma ActOk(s: State, a: Action, mtu: int)
    requires Inv(s) && Possible(s, SenderActs(a, mtu))
    ensures var s' := Step(s, SenderActs(a, mtu));
      SenderOk(s'.tx, s'.net) && Extends(s.tx, s'.tx) && Tracked(s'.tx, Done(s.rx)) && AllEncodable(s'.tx.msgs)
  {
    match a
    case Submit(_, _, _, _) =>
      SubmitOk(s.tx, a, mtu, s.net);
      NewEncodable(s.tx, a, mtu);
      assert s.net + [] == s.net;
    case Tick(_, _, _, _, _, _, _) =>
      TickOk(s.tx, a, mtu, s.net, Done(s.rx));
      TickFields(s.tx, a, mtu);
    case Acked(ns) =>
      forall k | k in SenderBytes.NumbersOf(s.tx.history, ns)
        ensures k in Done(s.rx)
      {
        AckedAreDone(s, ns, k);
      }
      AckOk(s.tx, ns, s.net, Done(s.rx));
      AckKeepsRest(s.tx, ns);
      assert s.net + [] == s.net;
    case Nakked(ns) =>
      NakOk(s.tx, ns, s.net, Done(s.rx));
      AckKeepsRest(s.tx, ns);
      assert s.net + [] == s.net;
  }

  lemma AckInvGrows(s: State, s': State)
    requires AckInv(s) && s'.rx == s.rx && s'.acked == s.acked && s.net <= s'.net
    ensures AckInv(s')
  {
    forall n | n in s'.rx.acks + s'.acked
      ensures 0 <= n < |s'.net| && RI.AllCovered(s'.rx, RI.Arriving(s'.net[n]))
    {
      assert s'.net[n] == s.net[n];
    }
  }

  lemma SenderStep(s: State, a: Action, mtu: int)
    requires Inv(s) && Possible(s, SenderActs(a, mtu))
    ensures Inv(Step(s, SenderActs(a, mtu)))
  {
    var s' := Step(s, SenderActs(a, mtu));
    ActOk(s, a, mtu);
    WorldFrom(s'.tx, s'.net);
    ProcGrows(s.rx, s.tx.msgs, s.tx.numbered, s'.tx.msgs, s'.tx.numbered);
    OnceGrows(s.rx, s.net, s'.net);
    AckInvGrows(s, s');
    if !s.rx.mixed && D.Shallow(s'.tx.msgs) {
      ShallowBefore(s.tx.msgs, s'.tx.msgs);
      OrderlyGrows(s.rx, s.tx.msgs, s'.tx.msgs);
    }
  }

  // ---------- the receiver's steps ----------

  /** Every frame on the network is fit to be read. */
  lemma NetReadable(s: State, n: nat)
    requires Inv(s) && n < |s.net|
    ensures RI.Readable(s.rx, n, s.net, s.tx.msgs, s.tx.numbered)
  {
    forall i | 0 <= i < |s.net[n]|
      ensures RI.Known(s.tx.msgs, s.tx.numbered, RI.Arriving(s.net[n])[i]) && R.ChannelFits(RI.Arriving(s.net[n])[i])
      ensures RI.Reliable(RI.Arrived(s.net[n][i])) == RI.Reliable(s.net[n][i])
    {
      assert AllSound(s.tx.log, s.tx.numbered, s.net[n]);
      RI.SoundArrives(s.tx.msgs, s.tx.log, s.tx.numbered, s.net[n][i]);
    }
  }

  /** No datagram of the network is stopped by the channel check. */
  lemma ArrivalsFit(s: State, n: nat)
    requires Inv(s) && n < |s.net|
    ensures forall t <- RI.Arriving(s.net[n]) :: R.ChannelFits(t)
  {
    NetReadable(s, n);
    forall t | t in RI.Arriving(s.net[n])
      ensures R.ChannelFits(t)
    {
      var i :| 0 <= i < |s.net[n]| && RI.Arriving(s.net[n])[i] == t;
      assert RI.Known(s.tx.msgs, s.tx.numbered, RI.Arriving(s.net[n])[i]);
    }
  }

  lemma CoveredStays(r: R.Receiver, r': R.Receiver, ts: seq<TFrame>)
    requires RI.AllCovered(r, ts) && RI.Remembers(r, r')
    ensures RI.AllCovered(r', ts)
  {
    forall i | 0 <= i < |ts|
      ensures RI.Covered(r', ts[i])
    {
      assert RI.Covered(r, ts[i]);
    }
  }

  lemma DoneGrows(s: Sender, r: R.Receiver, r': R.Receiver)
    requires Tracked(s, Done(r)) && RI.Remembers(r, r')
    ensures Tracked(s, Done(r'))
  {
  }

  lemma {:induction false} FramesKeepAcks(r: R.Receiver, ts: seq<TFrame>, now: real, timeout: real, victims: seq<int>)
    requires R.Shaped(r) && |victims| == |ts| && forall t <- ts :: R.ChannelFits(t)
    ensures R.HandleFrames(r, ts, now, timeout, victims).acks == r.acks
    decreases |ts|
  {
    if ts != [] {
      R.DispatchSameFilter(R.Filtered(r, ts[0]).0, ts[0], now, timeout, victims[0]);
      FramesKeepAcks(R.HandleFrame(r, ts[0], now, timeout, victims[0]), ts[1..], now, timeout, victims[1..]);
    }
  }

  lemma DataAcks(r: R.Receiver, n: nat, ts: seq<TFrame>, now: real, timeout: real, victims: seq<int>)
    requires R.Shaped(r) && |victims| == |ts| && forall t <- ts :: R.ChannelFits(t)
    ensures var r' := R.HandleData(r, n, ts, now, timeout, victims);
      r'.acks == (if Congestion.Got(r.expected, n).1.Some? then r.acks + {n} else r.acks)
  {
    match Congestion.Got(r.expected, n)
    case (_, None) =>
    case (e, Some(skipped)) =>
      var r1 := r.(expected := e, acks := r.acks + {n}, naks := r.naks + R.Missing(r.recent, n, skipped));
      if !r.recent.Has(n) {
        FramesKeepAcks(r1.(recent := RecordOf(r, n)), ts, now, timeout, victims);
      }
  }

  function RecordOf(r: R.Receiver, n: int): Windows.Recent {
    Windows.Record(r.recent, RECEIVED_WINDOW_SIZE, n)
  }

  lemma ArrivalAcks(s: State, e: Event)
    requires Inv(s) && e.Arrives? && Possible(s, e)
    requires RI.Remembers(s.rx, Step(s, e).rx)
    requires Congestion.Got(s.rx.expected, e.n).1.Some? ==>
      RI.AllCovered(Step(s, e).rx, RI.Arriving(s.net[e.n]))
    ensures AckInv(Step(s, e))
  {
    var s' := Step(s, e);
    DataAcks(s.rx, e.n, RI.Arriving(s.net[e.n]), e.now, e.timeout, e.victims);
    forall k | k in s'.rx.acks + s'.acked
      ensures 0 <= k < |s'.net| && RI.AllCovered(s'.rx, RI.Arriving(s'.net[k]))
    {
      if k in s.rx.acks + s.acked {
        CoveredStays(s.rx, s'.rx, RI.Arriving(s.net[k]));
      }
    }
  }

  lemma MixedBefore(r: R.Receiver, n: nat, ts: seq<TFrame>, now: real, timeout: real, victims: seq<int>)
    requires R.Shaped(r) && |victims| == |ts| && forall t <- ts :: R.ChannelFits(t)
    ensures r.mixed ==> R.HandleData(r, n, ts, now, timeout, victims).mixed
  {
    match Congestion.Got(r.expected, n)
    case (_, None) =>
    case (e, Some(skipped)) =>
      var r1 := r.(expected := e, acks := r.acks + {n}, naks := r.naks + R.Missing(r.recent, n, skipped));
      if !r.recent.Has(n) {
        D.MixedStaysAll(r1.(recent := RecordOf(r, n)), ts, now, timeout, victims);
      }
  }

  lemma ArrivalStep(s: State, e: Event)
    requires Inv(s) && e.Arrives? && Possible(s, e)
    ensures Inv(Step(s, e))
  {
    var s' := Step(s, e);
    NetReadable(s, e.n);
    RI.DataKeeps(s.rx, e.n, s.net, e.now, e.timeout, e.victims, s.tx.msgs, s.tx.numbered);
    DoneGrows(s.tx, s.rx, s'.rx);
    ArrivalAcks(s, e);
    MixedBefore(s.rx, e.n, RI.Arriving(s.net[e.n]), e.now, e.timeout, e.victims);
    if !s'.rx.mixed && D.Shallow(s.tx.msgs) {
      WorldFrom(s.tx, s.net);
      D.DataOrderly(s.rx, e.n, s.net, e.now, e.timeout, e.victims, s.tx.msgs, s.tx.numbered);
    }
  }

  /** The rest of a tick touches no filter and no channel. */
  lemma QuietStep(s: State, e: Event)
    requires Inv(s) && (e.ReceiverTicks? || e.Polled?) && Possible(s, e)
    ensures Inv(Step(s, e))
  {
    var s' := Step(s, e);
    QuietAcks(s, s');
    if !s.rx.mixed && D.Shallow(s.tx.msgs) {
      FewerTracks(s.rx, s'.rx, s.tx.msgs);
    }
  }

  lemma QuietAcks(s: State, s': State)
    requires AckInv(s) && s'.net == s.net && s'.rx.acks + s'.acked <= s.rx.acks + s.acked && RI.Remembers(s.rx, s'.rx)
    ensures AckInv(s')
  {
    forall n | n in s'.rx.acks + s'.acked
      ensures 0 <= n < |s'.net| && RI.AllCovered(s'.rx, RI.Arriving(s'.net[n]))
    {
      assert n in s.rx.acks + s.acked;
      CoveredStays(s.rx, s'.rx, RI.Arriving(s.net[n]));
    }
  }

  lemma FewerTracks(r: R.Receiver, r': R.Receiver, msgs: seq<Message>)
    requires D.Orderly(r, msgs) && r'.processed == r.processed && r'.handed == r.handed && r'.given == r.given && r'.chans == r.chans
    requires r'.owners == r.owners && forall k <- r'.trackers :: k in r.trackers && r'.trackers[k] == r.trackers[k]
    ensures D.Orderly(r', msgs)
  {
    forall k | k in r'.trackers
      ensures D.TrackerOk(r', msgs, k)
    {
      assert D.TrackerOk(r, msgs, k);
    }
    assert forall fid :: RI.Processed(r, fid) ==> RI.Processed(r', fid);
    D.RouteHanded(r, r', msgs);
  }

  /** Whatever happens next, the invariant stays. */
  lemma StepKeeps(s: State, e: Event)
    requires Inv(s) && Possible(s, e)
    ensures Inv(Step(s, e))
  {
    match e
    case SenderActs(a, mtu) => SenderStep(s, a, mtu);
    case Arrives(_, _, _, _) => ArrivalStep(s, e);
    case _ => QuietStep(s, e);
  }

  // ---------- runs ----------

  ghost predicate Runnable(s: State, es: seq<Event>)
    requires Shaped(s.tx) && R.Shaped(s.rx)
    decreases |es|
  {
    es == []
    || (Possible(s, es[0])
        && var s' := Step(s, es[0]); Shaped(s'.tx) && R.Shaped(s'.rx) && Runnable(s', es[1..]))
  }

  ghost function Run(s: State, es: seq<Event>): State
    requires Shaped(s.tx) && R.Shaped(s.rx) && Runnable(s, es)
    decreases |es|
  {
    if es == [] then s else Run(Step(s, es[0]), es[1..])
  }

  lemma {:induction false} RunKeeps(s: State, es: seq<Event>)
    requires Inv(s) && Runnable(s, es)
    ensures Inv(Run(s, es))
    decreases |es|
  {
    if es != [] {
      StepKeeps(s, es[0]);
      RunKeeps(Step(s, es[0]), es[1..]);
    }
  }

  /** Nothing sent, nothing recorded. */
  predicate Blank(s: Sender) {
    Shaped(s) && s.msgs == [] && s.log == [] && s.numbered == [] && s.emitted == [] && s.nextReliable == 0 && s.sent == 0
    && s.resend == map[] && s.history == map[] && forall ch :: 0 <= ch < NUMBER_OF_ORDERED_STREAMS ==> s.nextOrdering[ch] == 0
  }

  lemma BlankLog(msgs: seq<Message>, log: seq<TFrame>)
    requires |msgs| == 0 && |log| == 0
    ensures LogInv(msgs, log)
  {
  }

  lemma BlankKeys(s: Sender)
    requires Blank(s)
    ensures KeysInv(s)
  {
  }

  lemma BlankNet(s: Sender)
    requires Blank(s)
    ensures NetInv(s, [])
  {
  }

  lemma BlankOk(s: Sender)
    requires Blank(s) && SenderQueue.LineInv(s)
    ensures SenderOk(s, [])
  {
    BlankLog(s.msgs, s.log);
    BlankKeys(s);
    BlankNet(s);
  }

  lemma NewSenderBlank()
    ensures Blank(NewSender())
  {
  }

  lemma InitialReceiver(r: R.Receiver, msgs: seq<Message>, nums: seq<nat>, net: Net)
    requires r == R.NewReceiver() && |msgs| == 0 && |nums| == 0 && |net| == 0
    ensures RI.ProcInv(r, msgs, nums) && RI.OnceInv(r, net) && D.Orderly(r, msgs) && r.acks == {}
  {
    assert Ordering.OrderedOf([]) == [];
  }

  lemma BlankInv(s: State)
    requires |s.tx.msgs| == 0 && |s.tx.numbered| == 0 && s.tx.nextReliable == 0 && |s.net| == 0
    requires SenderOk(s.tx, s.net) && s.acked == {} && s.rx.acks == {}
    requires RI.ProcInv(s.rx, s.tx.msgs, s.tx.numbered) && RI.OnceInv(s.rx, s.net) && D.Orderly(s.rx, s.tx.msgs)
    ensures Inv(s)
  {
  }

  lemma InitialInv(s: State)
    requires Initial(s)
    ensures Inv(s)
  {
    NewSenderBlank();
    SenderQueue.NewSenderLine();
    BlankOk(s.tx);
    InitialReceiver(s.rx, s.tx.msgs, s.tx.numbered, s.net);
    BlankInv(s);
  }

  /** The states a system can get into. */
  ghost predicate Reachable(s: State) {
    exists s0, es :: Initial(s0) && Shaped(s0.tx) && R.Shaped(s0.rx) && Runnable(s0, es) && Run(s0, es) == s
  }

  lemma ReachableInv(s: State)
    requires Reachable(s)
    ensures Inv(s)
  {
    var s0, es :| Initial(s0) && Shaped(s0.tx) && R.Shaped(s0.rx) && Runnable(s0, es) && Run(s0, es) == s;
    InitialInv(s0);
    RunKeeps(s0, es);
  }

  // ---------- no reliable message is lost ----------

  ghost predicate Queued(s: Sender, fid: nat) {
    exists i :: 0 <= i < |s.queue| && s.queue[i].t.fid == fid
  }

  /** The frame has the number n, and it is being resent, has been processed,
      was sent while the resend buffer was full, or was refused: by a gap of
      over a million, or in a datagram acknowledged below the window base. */
  ghost predicate Settled(s: State, fid: nat, n: nat) {
    n < |s.tx.numbered| && s.tx.numbered[n] == fid
    && ((n in s.tx.resend && s.tx.resend[n].t.fid == fid) || RI.Processed(s.rx, fid)
        || n in s.tx.untracked || n in s.rx.refused)
  }

  ghost predicate Accounted(s: State, fid: nat) {
    Queued(s.tx, fid) || exists n :: Settled(s, fid, n)
  }

  lemma LossInState(s: State, fid: nat)
    requires Inv(s) && fid < |s.tx.log| && IsReliable(s.tx.log[fid])
    ensures Accounted(s, fid)
  {
    var line := SenderQueue.Line(s.tx);
    assert SenderQueue.Stands(line, fid);
    var i :| 0 <= i < |line| && line[i] == fid;
    if i < |s.tx.emitted| {
      assert s.tx.emitted[i] == fid;
      ReliableOnlyHas(s.tx.log, s.tx.emitted, fid);
      var n :| 0 <= n < |s.tx.numbered| && s.tx.numbered[n] == fid;
      NumberSettled(s, fid, n);
    } else {
      assert s.tx.queue[i - |s.tx.emitted|].t.fid == fid;
    }
  }

  /** In every reachable state every reliable frame ever sent is queued, being
      resent, processed, or one of the two stated exceptions. */
  lemma NoReliableLoss(s: State, fid: nat)
    requires Reachable(s) && fid < |s.tx.log| && IsReliable(s.tx.log[fid])
    ensures Accounted(s, fid)
  {
    ReachableInv(s);
    LossInState(s, fid);
  }

  lemma NumberSettled(s: State, fid: nat, n: nat)
    requires Inv(s) && n < |s.tx.numbered| && s.tx.numbered[n] == fid
    ensures Settled(s, fid, n)
  {
    if n in s.tx.resend {
      assert Sound(s.tx.log, s.tx.numbered, s.tx.resend[n].t);
    }
  }

  // ---------- order ----------

  /** Deliveries on a channel, as messages: each was sent there, in this order, with these bytes. */
  ghost predicate InSendOrder(out: seq<Ordering.Handed>, msgs: seq<Message>, ch: nat) {
    (forall i :: 0 <= i < |out| ==> out[i].mid < |msgs| && msgs[out[i].mid].ch == ch && out[i].data == msgs[out[i].mid].data)
    && (forall i, j :: 0 <= i < j < |out| ==> out[i].mid < out[j].mid)
  }

  ghost predicate DeliveredOn(out: seq<Ordering.Handed>, mid: nat) {
    exists i :: 0 <= i < |out| && out[i].mid == mid
  }

  lemma {:induction false} OrderedOfIn(out: seq<Ordering.Handed>, h: Ordering.Handed)
    requires h in Ordering.OrderedOf(out)
    ensures h in out && h.isOrdered
  {
    var last := out[|out| - 1];
    assert out == out[..|out| - 1] + [last];
    if h in Ordering.OrderedOf(out[..|out| - 1]) {
      OrderedOfIn(out[..|out| - 1], h);
    }
  }

  lemma OneOrderedAt(msgs: seq<Message>, a: nat, b: nat, ch: nat, k: nat)
    requires D.KeyOrder(msgs) && a < |msgs| && b < |msgs| && OrderedAt(msgs[a], ch, k) && OrderedAt(msgs[b], ch, k)
    ensures a == b
  {
    assert a < b ==> Precedes(msgs[a], msgs[b]);
    assert b < a ==> Precedes(msgs[b], msgs[a]);
  }

  /** Messages of one channel have keys in the order they were sent. */
  lemma KeysFollow(msgs: seq<Message>, a: nat, b: nat)
    requires D.KeyOrder(msgs) && D.Shallow(msgs) && a < b < |msgs| && msgs[a].ch == msgs[b].ch
    requires msgs[a].rel.IsOrdered() && msgs[b].rel.IsOrdered()
    ensures Ordering.KeyLess(D.HandedOf(msgs[a], a), D.HandedOf(msgs[b], b))
  {
    assert Precedes(msgs[a], msgs[b]);
  }

  lemma DeliveriesAscend(s: State, ch: nat)
    requires Inv(s) && !s.rx.mixed && D.Shallow(s.tx.msgs) && ch < NUMBER_OF_ORDERED_STREAMS
    ensures InSendOrder(s.rx.chans[ch].out, s.tx.msgs, ch)
  {
    var c := s.rx.chans[ch];
    var msgs := s.tx.msgs;
    WorldFrom(s.tx, s.net);
    assert D.ChannelHolds(c, s.rx.handed, msgs, ch);
    forall i | 0 <= i < |c.out|
      ensures D.Authentic(s.rx.handed, msgs, ch, c.out[i])
    {
      assert c.out[i] in c.out;
    }
    forall i, j | 0 <= i < j < |c.out|
      ensures c.out[i].mid < c.out[j].mid
    {
      assert Ordering.KeyLess(c.out[i], c.out[j]);
      var a, b := c.out[i].mid, c.out[j].mid;
      if b < a {
        KeysFollow(msgs, b, a);
      }
    }
  }

  /** The ordered deliveries are exactly the ordered messages before the expected index. */
  lemma OrderedPrefix(s: State, ch: nat, mid: nat)
    requires Inv(s) && !s.rx.mixed && D.Shallow(s.tx.msgs) && ch < NUMBER_OF_ORDERED_STREAMS
    requires mid < |s.tx.msgs| && OrderedAt(s.tx.msgs[mid], ch, s.tx.msgs[mid].oi)
    ensures DeliveredOn(s.rx.chans[ch].out, mid) <==> s.tx.msgs[mid].oi < s.rx.chans[ch].expected
  {
    var c := s.rx.chans[ch];
    var msgs := s.tx.msgs;
    var k := msgs[mid].oi;
    WorldFrom(s.tx, s.net);
    assert D.ChannelHolds(c, s.rx.handed, msgs, ch);
    if DeliveredOn(c.out, mid) {
      var i :| 0 <= i < |c.out| && c.out[i].mid == mid;
      assert c.out[i] in c.out;
      assert D.Authentic(s.rx.handed, msgs, ch, c.out[i]) && Ordering.Reached(c, c.out[i]);
    }
    if k < c.expected {
      var h := Ordering.OrderedOf(c.out)[k];
      OrderedOfIn(c.out, h);
      assert D.Authentic(s.rx.handed, msgs, ch, h) && h.oi == 0 + k;
      OneOrderedAt(msgs, h.mid, mid, ch, k);
    }
  }

  /** End to end, under any loss, duplication and reordering: what a channel has
      delivered is a subsequence of what was sent on it, in send order and with
      the bytes sent; its ordered part is a prefix of the ordered messages; and
      no message at all, ordered or not, was handed on twice or with other bytes. */
  lemma DeliveryInOrder(s: State, ch: nat)
    requires Reachable(s) && !s.rx.mixed && D.Shallow(s.tx.msgs) && ch < NUMBER_OF_ORDERED_STREAMS
    ensures R.Shaped(s.rx) && InSendOrder(s.rx.chans[ch].out, s.tx.msgs, ch)
    ensures Distinct(s.rx.handed) && D.GivenAsSent(s.rx.handed, s.rx.given, s.tx.msgs)
    ensures forall mid: nat :: mid < |s.tx.msgs| && OrderedAt(s.tx.msgs[mid], ch, s.tx.msgs[mid].oi) ==>
      (DeliveredOn(s.rx.chans[ch].out, mid) <==> s.tx.msgs[mid].oi < s.rx.chans[ch].expected)
  {
    ReachableInv(s);
    DeliveriesAscend(s, ch);
    forall mid: nat | mid < |s.tx.msgs| && OrderedAt(s.tx.msgs[mid], ch, s.tx.msgs[mid].oi)
      ensures DeliveredOn(s.rx.chans[ch].out, mid) <==> s.tx.msgs[mid].oi < s.rx.chans[ch].expected
    {
      OrderedPrefix(s, ch, mid);
    }
  }

  // ---------- the bytes in between ----------

  lemma FrameTravels(msgs: seq<Message>, log: seq<TFrame>, nums: seq<nat>, t: TFrame)
    requires LogInv(msgs, log) && Sound(log, nums, t) && Encodable(msgs[log[t.fid].mid])
    ensures FieldsFit(WireFrame(t.f)) && t.f.data != []
    ensures Canonical(WireFrame(t.f)) == WireFrame(RI.Arrived(t).f)
  {
    LogAt(msgs, log, t.fid);
    BaseKeepsFields(t.f.reliability);
  }

  lemma {:induction false} SameWireFrames(us: seq<TFrame>, fs: seq<MessageFrame>)
    requires |fs| == |us| && forall i :: 0 <= i < |us| ==> fs[i] == WireFrame(us[i].f)
    ensures fs == WireFrames(us)
  {
    if us != [] {
      SameWireFrames(us[1..], fs[1..]);
    }
  }

  lemma SoundTravels(msgs: seq<Message>, log: seq<TFrame>, nums: seq<nat>, ts: seq<TFrame>, i: nat)
    requires LogInv(msgs, log) && AllEncodable(msgs) && AllSound(log, nums, ts) && i < |ts|
    ensures FieldsFit(WireFrames(ts)[i]) && WireFrames(ts)[i].data != []
    ensures Canonical(WireFrames(ts)[i]) == WireFrame(RI.Arriving(ts)[i].f)
  {
    WireFramesAt(ts, i);
    assert Sound(log, nums, ts[i]);
    LogAt(msgs, log, ts[i].fid);
    FrameTravels(msgs, log, nums, ts[i]);
  }

  lemma SoundParses(msgs: seq<Message>, log: seq<TFrame>, nums: seq<nat>, ts: seq<TFrame>, d: Datagram)
    requires LogInv(msgs, log) && AllEncodable(msgs) && AllSound(log, nums, ts)
    requires d.Data? && 0 <= d.number < 0x1000000 && d.frames == WireFrames(ts)
    ensures Parse(DatagramBytes(d))
            == Some(Datagram.Data(d.number, d.packetPair, d.continuousSend, d.needsBandwidth, WireFrames(RI.Arriving(ts))))
  {
    forall i | 0 <= i < |ts|
      ensures FieldsFit(d.frames[i]) && d.frames[i].data != []
      ensures Canonical(d.frames[i]) == WireFrame(RI.Arriving(ts)[i].f)
    {
      SoundTravels(msgs, log, nums, ts, i);
    }
    assert forall f <- d.frames :: exists i :: 0 <= i < |ts| && f == d.frames[i];
    ParseBack(d);
    UntilEmptyAll(d.frames);
    SameWireFrames(RI.Arriving(ts), UntilEmpty(d.frames));
  }

  /** The bytes of every datagram on the network parse back to its number and to
      exactly the frames the receiver is given. */
  lemma BytesArrive(s: State, n: nat, continuous: bool)
    requires Reachable(s) && n < |s.net|
    ensures Parse(SenderBytes.Encoded(Packet(n, s.net[n], continuous)))
            == Some(Datagram.Data(Wire(n), false, continuous, false, WireFrames(RI.Arriving(s.net[n]))))
  {
    ReachableInv(s);
    SoundParses(s.tx.msgs, s.tx.log, s.tx.numbered, s.net[n],
                Datagram.Data(Wire(n), false, continuous, false, WireFrames(s.net[n])));
  }

  // ---------- the exceptions, exactly ----------

  /** A reliable number is refused by the filter exactly when it is new and
      more than a million ahead of the window. */
  lemma RefusedByGap(r: R.Receiver, t: TFrame)
    requires r.seen.Valid()
    ensures R.Filtered(r, t).0.refused
            == r.refused + (if RI.Reliable(t) && !r.seen.Has(t.f.reliableNumber)
                               && t.f.reliableNumber > r.seen.base + Windows.MAX_GAP
                            then {t.f.reliableNumber} else {})
  {
    Windows.MarkAdds(r.seen, t.f.reliableNumber);
  }

  /** A datagram below the window base is acknowledged although none of its
      frames is read: an ACK is no proof of processing. */
  lemma AckedUnread(r: R.Receiver, n: int, ts: seq<TFrame>, now: real, timeout: real, victims: seq<int>)
    requires R.Shaped(r) && |victims| == |ts| && (forall t <- ts :: R.ChannelFits(t))
    requires n < r.recent.base <= r.expected
    ensures var r' := R.HandleData(r, n, ts, now, timeout, victims);
      n in r'.acks && r'.processed == r.processed && r'.seen == r.seen
      && r'.refused == r.refused + R.Unseen(r.seen, ts)
  {
    assert Congestion.Got(r.expected, n).1 == Some(0);
  }

  /** With room in the resend buffer every number of a datagram is tracked afterwards. */
  lemma {:induction false} TrackRoom(resend: map<int, InFlight>, ts: seq<TFrame>, now: real, rto: real)
    ensures |resend| + |ts| <= MAX_RESEND_BUFFER_SIZE ==>
      forall k <- ReliableNumbers(ts) :: k in Track(resend, ts, now, rto)
    ensures resend.Keys <= Track(resend, ts, now, rto).Keys
    decreases |ts|
  {
    if ts != [] {
      var one := TrackOne(resend, ts[0], now, rto);
      assert |one| <= |resend| + 1;
      TrackRoom(one, ts[1..], now, rto);
    }
  }

  /** With none, no new number is: the frames will not be sent again. */
  lemma {:induction false} TrackFull(resend: map<int, InFlight>, ts: seq<TFrame>, now: real, rto: real)
    requires |resend| >= MAX_RESEND_BUFFER_SIZE && forall k <- ReliableNumbers(ts) :: k !in resend
    ensures Track(resend, ts, now, rto) == resend
    decreases |ts|
  {
    if ts != [] {
      var ks := ReliableNumbers(ts);
      assert IsReliable(ts[0]) ==> ks[0] == ts[0].f.reliableNumber && ks[0] in ks;
      assert forall k <- ReliableNumbers(ts[1..]) :: k in ks;
      TrackFull(resend, ts[1..], now, rto);
    }
  }
}

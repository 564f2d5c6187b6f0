/** What reaches the channels: every message at most once, with exactly its
    bytes, in the order it was sent. */
module DeliveryInv {
  import opened Types
  import opened WireFormat
  import opened Tags
  import opened Windows
  import opened Ordering
  import opened Splitting
  import opened ReceiverSpec
  import opened ReceiverInv
  import SenderSpec
  import SenderQueue
  import SenderInv
  import SenderNet
  import Congestion

  /** What a message becomes at its channel. */
  function HandedOf(m: SenderSpec.Message, mid: nat): Handed {
    Handed(mid, m.oi, if m.rel.IsSequenced() then m.sub else ORDERED_SUBKEY, !m.rel.IsSequenced(), m.data)
  }

  /** Sequencing indices stay below the sub-key of ordered messages. */
  ghost predicate Shallow(msgs: Messages) {
    forall mid :: 0 <= mid < |msgs| && msgs[mid].rel.IsSequenced() ==> msgs[mid].sub < ORDERED_SUBKEY
  }

  /** Keys increase along each channel. */
  ghost predicate KeyOrder(msgs: Messages) {
    forall a, b :: 0 <= a < b < |msgs| && msgs[a].rel.IsOrdered() && msgs[b].rel.IsOrdered() && msgs[a].ch == msgs[b].ch
      ==> SenderInv.Precedes(msgs[a], msgs[b])
  }

  ghost predicate AllProcessed(r: Receiver, m: SenderSpec.Message) {
    forall fid: nat :: Owns(m, fid) ==> Processed(r, fid)
  }

  predicate PieceHeld(m: SenderSpec.Message, i: int, data: Bytes) {
    0 <= i < |m.pieces| && data == m.pieces[i]
  }

  /** The tracker holds pieces of message mid, each of them processed. */
  ghost predicate Collects(r: Receiver, msgs: Messages, tracker: Tracker, k: int, mid: nat) {
    mid < |msgs| && msgs[mid].splitId == k && |msgs[mid].pieces| > 1 && tracker.total == |msgs[mid].pieces|
    && forall i <- tracker.received ::
         PieceHeld(msgs[mid], i, tracker.received[i]) && Processed(r, msgs[mid].first + i)
  }

  ghost predicate TrackerOk(r: Receiver, msgs: Messages, k: int)
    requires k in r.trackers
  {
    k in r.owners && Collects(r, msgs, r.trackers[k], k, r.owners[k])
  }

  ghost predicate TracksInv(r: Receiver, msgs: Messages) {
    forall k <- r.trackers :: TrackerOk(r, msgs, k)
  }

  /** A message handed on has had all its frames processed, and is handed on
      once, with the bytes that were sent. */
  ghost predicate HandedInv(r: Receiver, msgs: Messages) {
    SenderInv.Distinct(r.handed) && GivenAsSent(r.handed, r.given, msgs)
    && forall j :: 0 <= j < |r.handed| ==> AllProcessed(r, msgs[r.handed[j]])
  }

  ghost predicate GivenAsSent(handed: seq<nat>, given: seq<Bytes>, msgs: Messages) {
    |given| == |handed| && forall j :: 0 <= j < |handed| ==> handed[j] < |msgs| && given[j] == msgs[handed[j]].data
  }

  ghost predicate Authentic(handed: seq<nat>, msgs: Messages, ch: nat, h: Handed) {
    h.mid < |msgs| && h == HandedOf(msgs[h.mid], h.mid) && msgs[h.mid].ch == ch && msgs[h.mid].rel.IsOrdered()
    && SenderQueue.Stands(handed, h.mid)
  }

  ghost predicate ChannelHolds(c: Channel, handed: seq<nat>, msgs: Messages, ch: nat) {
    ChannelInv(c, 0) && (forall h <- c.out :: Authentic(handed, msgs, ch, h))
    && (forall e <- c.heap :: Authentic(handed, msgs, ch, e.h))
  }

  ghost predicate ChannelsInv(r: Receiver, msgs: Messages) {
    Shaped(r) && forall ch: nat :: ch < NUMBER_OF_ORDERED_STREAMS ==> ChannelHolds(r.chans[ch], r.handed, msgs, ch)
  }

  ghost predicate Orderly(r: Receiver, msgs: Messages) {
    TracksInv(r, msgs) && HandedInv(r, msgs) && ChannelsInv(r, msgs)
  }

  // ---------- processing more frames ----------

  ghost predicate ProcessedMore(r: Receiver, r': Receiver) {
    forall fid :: Processed(r, fid) ==> Processed(r', fid)
  }

  lemma MoreProcessed(r: Receiver, r': Receiver, msgs: Messages)
    requires Orderly(r, msgs) && ProcessedMore(r, r')
    requires r'.trackers == r.trackers && r'.owners == r.owners && r'.handed == r.handed && r'.given == r.given && r'.chans == r.chans
    ensures Orderly(r', msgs)
  {
    SameTracks(r, r', msgs);
    RouteHanded(r, r', msgs);
  }

  lemma ProcessOne(r: Receiver, r': Receiver, t: TFrame)
    requires r'.processed == r.processed + [t]
    ensures ProcessedMore(r, r') && Processed(r', t.fid)
  {
    forall fid | Processed(r, fid)
      ensures Processed(r', fid)
    {
      var i :| 0 <= i < |r.processed| && r.processed[i].fid == fid;
      assert r'.processed[i].fid == fid;
    }
    assert r'.processed[|r.processed|].fid == t.fid;
  }

  // ---------- a channel takes a message ----------

  lemma AcceptFromHeld(c: Channel, h: Handed, cnt: nat, x: Handed)
    requires x in Accept(c, h, cnt).out || exists e <- Accept(c, h, cnt).heap :: e.h == x
    ensures x == h || x in c.out || exists e <- c.heap :: e.h == x
  {
    var log := (set y | y in c.out) + (set e | e in c.heap :: e.h) + {h};
    AcceptFrom(c, h, cnt, log);
  }

  /** Distinct messages of a channel have distinct keys there. */
  lemma KeysDiffer(msgs: Messages, a: nat, b: nat)
    requires KeyOrder(msgs) && Shallow(msgs) && a < |msgs| && b < |msgs| && a != b
    requires msgs[a].rel.IsOrdered() && msgs[b].rel.IsOrdered() && msgs[a].ch == msgs[b].ch
    ensures !SameKey(HandedOf(msgs[a], a), HandedOf(msgs[b], b))
  {
    if a < b {
      assert SenderInv.Precedes(msgs[a], msgs[b]);
    } else {
      assert SenderInv.Precedes(msgs[b], msgs[a]);
    }
  }

  lemma StandsAppend(handed: seq<nat>, mid: nat, f: nat)
    ensures SenderQueue.Stands(handed, f) ==> SenderQueue.Stands(handed + [mid], f)
    ensures SenderQueue.Stands(handed + [mid], mid)
  {
    if SenderQueue.Stands(handed, f) {
      var i :| 0 <= i < |handed| && handed[i] == f;
      assert (handed + [mid])[i] == f;
    }
    assert (handed + [mid])[|handed|] == mid;
  }

  lemma AuthenticMore(handed: seq<nat>, mid: nat, msgs: Messages, ch: nat, h: Handed)
    requires Authentic(handed, msgs, ch, h)
    ensures Authentic(handed + [mid], msgs, ch, h)
  {
    StandsAppend(handed, mid, h.mid);
  }

  /** In a run no buffered entry shares the key of a message not handed on yet:
      what the receiver's class asks of an arriving message beyond its numbers. */
  lemma FitsInRuns(c: Channel, handed: seq<nat>, msgs: Messages, ch: nat, mid: nat)
    requires ChannelHolds(c, handed, msgs, ch) && KeyOrder(msgs) && Shallow(msgs) && mid < |msgs|
    requires msgs[mid].ch == ch && msgs[mid].rel.IsOrdered() && !SenderQueue.Stands(handed, mid)
    ensures Ordering.Fits(c, HandedOf(msgs[mid], mid))
  {
    forall e | e in c.heap
      ensures !SameKey(e.h, HandedOf(msgs[mid], mid))
    {
      assert Authentic(handed, msgs, ch, e.h);
      KeysDiffer(msgs, e.h.mid, mid);
    }
  }

  lemma ChannelTakes(c: Channel, handed: seq<nat>, msgs: Messages, ch: nat, mid: nat, cnt: nat)
    requires ChannelHolds(c, handed, msgs, ch) && KeyOrder(msgs) && Shallow(msgs) && mid < |msgs|
    requires msgs[mid].ch == ch && msgs[mid].rel.IsOrdered() && !SenderQueue.Stands(handed, mid)
    ensures ChannelHolds(Accept(c, HandedOf(msgs[mid], mid), cnt), handed + [mid], msgs, ch)
  {
    var h := HandedOf(msgs[mid], mid);
    var c' := Accept(c, h, cnt);
    FitsInRuns(c, handed, msgs, ch, mid);
    AcceptKeeps(c, h, cnt, 0);
    forall x | x in c'.out || exists e <- c'.heap :: e.h == x
      ensures Authentic(handed + [mid], msgs, ch, x)
    {
      AcceptFromHeld(c, h, cnt, x);
      if x == h {
        StandsAppend(handed, mid, mid);
      } else {
        AuthenticMore(handed, mid, msgs, ch, x);
      }
    }
  }

  lemma ChannelKeeps(c: Channel, handed: seq<nat>, msgs: Messages, ch: nat, mid: nat)
    requires ChannelHolds(c, handed, msgs, ch)
    ensures ChannelHolds(c, handed + [mid], msgs, ch)
  {
    forall h | h in c.out
      ensures Authentic(handed + [mid], msgs, ch, h)
    {
      AuthenticMore(handed, mid, msgs, ch, h);
    }
    forall e | e in c.heap
      ensures Authentic(handed + [mid], msgs, ch, e.h)
    {
      AuthenticMore(handed, mid, msgs, ch, e.h);
    }
  }

  lemma HandedMore(r: Receiver, msgs: Messages, mid: nat)
    requires HandedInv(r, msgs) && mid < |msgs| && AllProcessed(r, msgs[mid]) && !SenderQueue.Stands(r.handed, mid)
    ensures HandedInv(r.(handed := r.handed + [mid], given := r.given + [msgs[mid].data]), msgs)
  {
    var r' := r.(handed := r.handed + [mid], given := r.given + [msgs[mid].data]);
    forall m: SenderSpec.Message, fid: nat | AllProcessed(r, m) && Owns(m, fid)
      ensures Processed(r', fid)
    {
      assert Processed(r, fid);
      var i :| 0 <= i < |r.processed| && r.processed[i].fid == fid;
      assert r'.processed[i].fid == fid;
    }
  }

  // ---------- routing ----------

  lemma DeliverableIs(msgs: Messages, t: TFrame)
    requires Reads(msgs, t) && msgs[t.mid].rel.IsOrdered()
    ensures Deliverable(t, msgs[t.mid].data) == HandedOf(msgs[t.mid], t.mid)
    ensures t.f.orderingChannel == msgs[t.mid].ch && t.f.reliability.IsOrdered()
  {
  }

  /** A complete message goes to its channel or straight to the application. */
  lemma RouteKeeps(r: Receiver, t: TFrame, msgs: Messages)
    requires Orderly(r, msgs) && KeyOrder(msgs) && Shallow(msgs) && Reads(msgs, t) && ChannelFits(t)
    requires AllProcessed(r, msgs[t.mid]) && !SenderQueue.Stands(r.handed, t.mid)
    ensures Orderly(Route(r, t, msgs[t.mid].data), msgs)
  {
    var m := msgs[t.mid];
    var r' := Route(r, t, m.data);
    HandedMore(r, msgs, t.mid);
    RouteTracks(r, t, m.data, msgs);
    RouteHanded(r.(handed := r.handed + [t.mid], given := r.given + [m.data]), r', msgs);
    forall ch: nat | ch < NUMBER_OF_ORDERED_STREAMS
      ensures ChannelHolds(r'.chans[ch], r'.handed, msgs, ch)
    {
      if m.rel.IsOrdered() && ch == t.f.orderingChannel {
        DeliverableIs(msgs, t);
        ChannelTakes(r.chans[ch], r.handed, msgs, ch, t.mid, r.heapCounter + 1);
      } else {
        ChannelKeeps(r.chans[ch], r.handed, msgs, ch, t.mid);
      }
    }
  }

  lemma RouteTracks(r: Receiver, t: TFrame, data: Bytes, msgs: Messages)
    requires Shaped(r) && ChannelFits(t) && TracksInv(r, msgs)
    ensures TracksInv(Route(r, t, data), msgs)
    ensures Route(r, t, data).processed == r.processed && Route(r, t, data).handed == r.handed + [t.mid]
    ensures Route(r, t, data).given == r.given + [data]
  {
    var r' := Route(r, t, data);
    SameTracks(r, r', msgs);
  }

  lemma SameTracks(r: Receiver, r': Receiver, msgs: Messages)
    requires TracksInv(r, msgs) && ProcessedMore(r, r') && r'.trackers == r.trackers && r'.owners == r.owners
    ensures TracksInv(r', msgs)
  {
    forall k | k in r'.trackers
      ensures TrackerOk(r', msgs, k)
    {
      assert TrackerOk(r, msgs, k);
    }
  }

  lemma RouteHanded(r: Receiver, r': Receiver, msgs: Messages)
    requires HandedInv(r, msgs) && r'.handed == r.handed && r'.given == r.given && ProcessedMore(r, r')
    ensures HandedInv(r', msgs)
  {
    forall j | 0 <= j < |r'.handed|
      ensures AllProcessed(r', msgs[r'.handed[j]])
    {
      assert AllProcessed(r, msgs[r.handed[j]]);
    }
  }

  // ---------- reassembly ----------

  /** The tracker a fragment meets collects its message. */
  lemma OpenedCollects(r: Receiver, t: TFrame, now: real, timeout: real, victim: int, msgs: Messages)
    requires TracksInv(r, msgs) && Reads(msgs, t) && t.f.splitCount > 0
    requires t.f.splitId in r.trackers ==> r.owners[t.f.splitId] == t.mid
    ensures var o := Opened(r.trackers, FragmentOf(t.f), now, timeout, victim);
      Collects(r, msgs, o[t.f.splitId], t.f.splitId, t.mid)
      && forall k <- o :: k != t.f.splitId ==> k in r.trackers && o[k] == r.trackers[k]
  {
    if t.f.splitId in r.trackers {
      assert TrackerOk(r, msgs, t.f.splitId);
    }
  }

  lemma ExtendCollects(r: Receiver, t: TFrame, now: real, o: map<int, Tracker>, msgs: Messages)
    requires Reads(msgs, t) && t.f.splitCount > 0 && Processed(r, t.fid) && t.f.splitId in o
    requires Collects(r, msgs, o[t.f.splitId], t.f.splitId, t.mid)
    ensures var (ts, out) := Extend(o, FragmentOf(t.f), now);
      (t.f.splitId in ts ==> Collects(r, msgs, ts[t.f.splitId], t.f.splitId, t.mid))
      && (forall k <- ts :: k in o && (k != t.f.splitId ==> ts[k] == o[k]))
      && (out.Some? ==> out.value == Join(msgs[t.mid].pieces) && AllProcessed(r, msgs[t.mid]))
  {
    var m := msgs[t.mid];
    var f := FragmentOf(t.f);
    var tr := Tracker(o[f.id].total, o[f.id].received[f.index := f.data], now);
    assert Collects(r, msgs, tr, f.id, t.mid);
    if AllPresent(tr) {
      assert Parts(tr.received, |m.pieces|) == m.pieces;
      forall fid: nat | Owns(m, fid)
        ensures Processed(r, fid)
      {
        assert fid - m.first in tr.received;
      }
    }
  }

  /** The tracker of the fragment collects its message, the others are as before. */
  lemma OthersCollect(r: Receiver, r': Receiver, t: TFrame, o: map<int, Tracker>, msgs: Messages)
    requires TracksInv(r, msgs) && r'.processed == r.processed
    requires forall k <- r'.trackers :: k in r'.owners && (k in r.trackers && k in r.owners ==> r'.owners[k] == r.owners[k])
    requires forall k <- r'.trackers :: k != t.f.splitId ==>
      k in r.trackers && r'.trackers[k] == r.trackers[k] && k in o
    requires t.f.splitId in r'.trackers ==>
      r'.owners[t.f.splitId] == t.mid && Collects(r', msgs, r'.trackers[t.f.splitId], t.f.splitId, t.mid)
    ensures TracksInv(r', msgs)
  {
    forall k | k in r'.trackers
      ensures TrackerOk(r', msgs, k)
    {
      if k != t.f.splitId {
        assert TrackerOk(r, msgs, k);
      }
    }
  }

  /** A fragment joins its own message; a completed payload is that message's. */
  lemma ReassembleKeeps(r: Receiver, t: TFrame, now: real, timeout: real, victim: int, msgs: Messages)
    requires TracksInv(r, msgs) && Reads(msgs, t) && t.f.splitCount > 0 && Processed(r, t.fid)
    requires SenderInv.WellMade(msgs[t.mid]) && !Reassembled(r, t, now, timeout, victim).0.mixed
    ensures var (r', out) := Reassembled(r, t, now, timeout, victim);
      TracksInv(r', msgs)
      && (out.Some? ==> out.value == msgs[t.mid].data && AllProcessed(r', msgs[t.mid]))
  {
    var (r', out) := Reassembled(r, t, now, timeout, victim);
    if t.f.splitCount <= MAX_SPLIT_PACKET_COUNT {
      var o := Opened(r.trackers, FragmentOf(t.f), now, timeout, victim);
      OpenedCollects(r, t, now, timeout, victim, msgs);
      ExtendCollects(r', t, now, o, msgs);
      OthersCollect(r, r', t, o, msgs);
    } else {
      SameTracksOwners(r, r', msgs);
    }
  }

  lemma SameTracksOwners(r: Receiver, r': Receiver, msgs: Messages)
    requires TracksInv(r, msgs) && r'.processed == r.processed && r'.trackers == r.trackers
    requires forall k <- r.trackers :: k in r.owners ==> k in r'.owners && r'.owners[k] == r.owners[k]
    ensures TracksInv(r', msgs)
  {
    forall k | k in r'.trackers
      ensures TrackerOk(r', msgs, k)
    {
      assert TrackerOk(r, msgs, k);
    }
  }

  // ---------- a frame that passed the filters ----------

  /** A message none of whose frames was missing had been handed on; this one's frame is new. */
  lemma NotHandedYet(r: Receiver, msgs: Messages, t: TFrame)
    requires HandedInv(r, msgs) && Reads(msgs, t) && !Processed(r, t.fid)
    ensures !SenderQueue.Stands(r.handed, t.mid)
  {
    assert Owns(msgs[t.mid], t.fid);
    forall j | 0 <= j < |r.handed|
      ensures r.handed[j] != t.mid
    {
      assert AllProcessed(r, msgs[r.handed[j]]);
    }
  }

  ghost predicate Keyed(msgs: Messages) {
    KeyOrder(msgs) && Shallow(msgs)
  }

  lemma DispatchWhole(r: Receiver, t: TFrame, now: real, timeout: real, victim: int, msgs: Messages)
    requires Orderly(r, msgs) && Keyed(msgs) && Reads(msgs, t) && ChannelFits(t) && SenderInv.WellMade(msgs[t.mid])
    requires Processed(r, t.fid) && !SenderQueue.Stands(r.handed, t.mid) && t.f.splitCount <= 0
    ensures Orderly(Dispatch(r, t, now, timeout, victim), msgs)
  {
    var m := msgs[t.mid];
    assert t.f.data == m.data by { JoinOne(m.pieces); }
    assert forall fid: nat :: Owns(m, fid) ==> fid == t.fid;
    RouteKeeps(r, t, msgs);
  }

  lemma JoinOne(pieces: seq<Bytes>)
    requires |pieces| == 1
    ensures Join(pieces) == pieces[0]
  {
    assert Join(pieces[..0]) == [];
  }

  lemma DispatchPiece(r: Receiver, t: TFrame, now: real, timeout: real, victim: int, msgs: Messages)
    requires Orderly(r, msgs) && Keyed(msgs) && Reads(msgs, t) && ChannelFits(t) && SenderInv.WellMade(msgs[t.mid])
    requires Processed(r, t.fid) && !SenderQueue.Stands(r.handed, t.mid) && t.f.splitCount > 0
    requires !Reassembled(r, t, now, timeout, victim).0.mixed
    ensures Orderly(Dispatch(r, t, now, timeout, victim), msgs)
  {
    var (r1, out) := Reassembled(r, t, now, timeout, victim);
    ReassembleKeeps(r, t, now, timeout, victim, msgs);
    RouteHanded(r, r1, msgs);
    if out.Some? {
      RouteKeeps(r1, t, msgs);
    }
  }

  /** A frame that passed the filters leaves the channels in order. */
  lemma PassedOrderly(r: Receiver, r1: Receiver, t: TFrame, now: real, timeout: real, victim: int, msgs: Messages)
    requires Orderly(r, msgs) && Keyed(msgs) && Reads(msgs, t) && ChannelFits(t) && SenderInv.WellMade(msgs[t.mid])
    requires r1 == r.(seen := r1.seen, processed := r.processed + [t]) && !Processed(r, t.fid)
    requires !Dispatch(r1, t, now, timeout, victim).mixed
    ensures Orderly(Dispatch(r1, t, now, timeout, victim), msgs)
  {
    ProcessOne(r, r1, t);
    NotHandedYet(r, msgs, t);
    MoreProcessed(r, r1, msgs);
    if t.f.splitCount > 0 {
      DispatchPiece(r1, t, now, timeout, victim, msgs);
    } else {
      DispatchWhole(r1, t, now, timeout, victim, msgs);
    }
  }

  /** One frame, whatever became of it, leaves the channels in order. */
  lemma FrameOrderly(r: Receiver, t: TFrame, now: real, timeout: real, victim: int, msgs: Messages, nums: seq<nat>)
    requires World(msgs, nums) && ProcInv(r, msgs, nums) && Known(msgs, nums, t) && ChannelFits(t)
    requires !Reliable(t) ==> !Processed(r, t.fid)
    requires Orderly(r, msgs) && Keyed(msgs) && !HandleFrame(r, t, now, timeout, victim).mixed
    ensures Orderly(HandleFrame(r, t, now, timeout, victim), msgs)
  {
    var (r1, passed) := Filtered(r, t);
    FilterKeeps(r, t, msgs, nums);
    if passed {
      PassedOrderly(r, r1, t, now, timeout, victim, msgs);
    } else {
      MoreProcessed(r, r1, msgs);
    }
  }

  /** Once a fragment has met a tracker of another message, that is remembered. */
  lemma MixedStays(r: Receiver, t: TFrame, now: real, timeout: real, victim: int)
    requires Shaped(r) && ChannelFits(t)
    ensures r.mixed ==> HandleFrame(r, t, now, timeout, victim).mixed
  {
  }

  lemma {:induction false} MixedStaysAll(r: Receiver, ts: seq<TFrame>, now: real, timeout: real, victims: seq<int>)
    requires Shaped(r) && |victims| == |ts| && forall t <- ts :: ChannelFits(t)
    ensures r.mixed ==> HandleFrames(r, ts, now, timeout, victims).mixed
    decreases |ts|
  {
    if ts != [] {
      MixedStays(r, ts[0], now, timeout, victims[0]);
      MixedStaysAll(HandleFrame(r, ts[0], now, timeout, victims[0]), ts[1..], now, timeout, victims[1..]);
    }
  }

  lemma {:induction false} FramesOrderly(r: Receiver, ts: seq<TFrame>, now: real, timeout: real, victims: seq<int>,
                                         msgs: Messages, nums: seq<nat>)
    requires World(msgs, nums) && ProcInv(r, msgs, nums) && AllKnown(msgs, nums, ts) && Novel(r, ts)
    requires |victims| == |ts| && forall t <- ts :: ChannelFits(t)
    requires Orderly(r, msgs) && Keyed(msgs) && !HandleFrames(r, ts, now, timeout, victims).mixed
    ensures Orderly(HandleFrames(r, ts, now, timeout, victims), msgs)
    decreases |ts|
  {
    if ts != [] {
      var r1 := HandleFrame(r, ts[0], now, timeout, victims[0]);
      MixedStaysAll(r1, ts[1..], now, timeout, victims[1..]);
      FrameOrderly(r, ts[0], now, timeout, victims[0], msgs, nums);
      FrameKeeps(r, ts[0], now, timeout, victims[0], msgs, nums);
      NovelTail(r, r1, ts);
      assert forall t <- ts[1..] :: t in ts;
      FramesOrderly(r1, ts[1..], now, timeout, victims[1..], msgs, nums);
    }
  }

  lemma SameOrderly(r: Receiver, r': Receiver, msgs: Messages)
    requires Orderly(r, msgs) && r'.processed == r.processed && r'.handed == r.handed && r'.given == r.given && r'.chans == r.chans
    requires r'.trackers == r.trackers && r'.owners == r.owners
    ensures Orderly(r', msgs)
  {
    MoreProcessed(r, r', msgs);
  }

  /** One datagram leaves the channels in order. */
  lemma DataOrderly(r: Receiver, n: nat, net: SenderNet.Net, now: real, timeout: real, victims: seq<int>,
                    msgs: Messages, nums: seq<nat>)
    requires Readable(r, n, net, msgs, nums) && |victims| == |net[n]|
    requires forall t <- Arriving(net[n]) :: ChannelFits(t)
    requires Orderly(r, msgs) && Keyed(msgs) && !HandleData(r, n, Arriving(net[n]), now, timeout, victims).mixed
    ensures Orderly(HandleData(r, n, Arriving(net[n]), now, timeout, victims), msgs)
  {
    var ts := Arriving(net[n]);
    match Congestion.Got(r.expected, n)
    case (_, None) =>
    case (e, Some(skipped)) =>
      var r1 := r.(expected := e, acks := r.acks + {n}, naks := r.naks + Missing(r.recent, n, skipped));
      if r.recent.Has(n) {
        SameOrderly(r, HandleData(r, n, ts, now, timeout, victims), msgs);
      } else {
        ReadableNovel(r, n, net, msgs, nums);
        var r2 := r1.(recent := Record(r.recent, RECEIVED_WINDOW_SIZE, n));
        SameOrderly(r, r2, msgs);
        FramesOrderly(r2, ts, now, timeout, victims, msgs, nums);
      }
  }
}

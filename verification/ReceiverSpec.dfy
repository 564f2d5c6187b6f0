/** The receive side of the reliability layer over unbounded numbers
    (_reliability.py:317-348, 560-747). */
module ReceiverSpec {
  import opened Types
  import opened WireFormat
  import opened Tags
  import opened Windows
  import opened Ordering
  import opened Splitting
  import Congestion

  /** A complete message meant for the application: straight from the frame t that
      completed it, or out of a channel; or the application takes one. */
  datatype Moment = Direct(t: TFrame, data: Bytes) | Through(ch: int, h: Handed) | Taken

  /** owners: the message each running tracker was started for.  processed:
      the frames that passed the duplicate filters.  refused: reliable numbers
      dropped without being marked.  mixed: some fragment met the running
      tracker of another message.  handed, given: the messages handed to their
      channel or straight to the application, and the bytes handed on.
      discarded: messages some fragment of which was read and given up.
      moments: what happened at the receive queue. */
  datatype Receiver = Receiver(
    expected: int,
    recent: Recent,
    seen: Seen,
    chans: seq<Channel>,
    heapCounter: nat,
    trackers: map<int, Tracker>,
    acks: set<int>,
    naks: set<int>,
    queue: seq<(Bytes, int)>,
    owners: map<int, nat>,
    processed: seq<TFrame>,
    handed: seq<nat>,
    given: seq<Bytes>,
    refused: set<int>,
    mixed: bool,
    discarded: set<nat>,
    moments: seq<Moment>)

  function NewReceiver(): Receiver {
    Receiver(0, Recent(0, {}), Seen(0, {}), seq(NUMBER_OF_ORDERED_STREAMS, _ => FRESH), 0, map[], {}, {}, [],
             map[], [], [], [], {}, false, {}, [])
  }

  /** `_deliver` for each message in turn: beyond the queue limit they are lost. */
  function Enqueue(queue: seq<(Bytes, int)>, items: seq<Handed>, ch: int): seq<(Bytes, int)>
    decreases |items|
  {
    if items == [] then queue
    else Enqueue(if |queue| < MAX_RECEIVE_QUEUE_SIZE then queue + [(items[0].data, ch)] else queue, items[1..], ch)
  }

  /** Messages leaving channel ch. */
  function Leaving(items: seq<Handed>, ch: int): (r: seq<Moment>)
    ensures |r| == |items| && forall i :: 0 <= i < |items| ==> r[i] == Through(ch, items[i])
  {
    seq(|items|, i requires 0 <= i < |items| => Through(ch, items[i]))
  }

  /** `poll_receive`. */
  function Poll(r: Receiver): (Receiver, Option<(Bytes, int)>) {
    if r.queue == [] then (r, None)
    else (r.(queue := r.queue[1..], moments := r.moments + [Taken]), Some(r.queue[0]))
  }

  function Pairs(items: seq<Handed>, ch: int): (r: seq<(Bytes, int)>)
    ensures |r| == |items| && forall i :: 0 <= i < |items| ==> r[i] == (items[i].data, ch)
  {
    seq(|items|, i requires 0 <= i < |items| => (items[i].data, ch))
  }

  lemma PairsCons(queue: seq<(Bytes, int)>, items: seq<Handed>, ch: int, k: nat)
    requires 0 < k <= |items|
    ensures queue + [(items[0].data, ch)] + Pairs(items[1..], ch)[..k - 1] == queue + Pairs(items, ch)[..k]
  {
  }

  /** The application gets the first messages there is room for, and exactly those. */
  lemma {:induction false} EnqueueExactly(queue: seq<(Bytes, int)>, items: seq<Handed>, ch: int)
    requires |queue| <= MAX_RECEIVE_QUEUE_SIZE
    ensures Enqueue(queue, items, ch) == queue + Pairs(items, ch)[..Min(|items|, MAX_RECEIVE_QUEUE_SIZE - |queue|)]
    decreases |items|
  {
    if items == [] {
      assert queue + [] == queue;
    } else if |queue| < MAX_RECEIVE_QUEUE_SIZE {
      EnqueueExactly(queue + [(items[0].data, ch)], items[1..], ch);
      PairsCons(queue, items, ch, Min(|items|, MAX_RECEIVE_QUEUE_SIZE - |queue|));
    } else {
      EnqueueExactly(queue, items[1..], ch);
    }
  }

  /** What a frame hands to its channel once its payload is complete. */
  function Deliverable(t: TFrame, data: Bytes): Handed {
    var sequenced := t.f.reliability.IsSequenced();
    Handed(t.mid, t.f.orderingIndex, if sequenced then t.f.sequencingIndex else ORDERED_SUBKEY, !sequenced, data)
  }

  predicate Bumps(c: Channel, h: Handed) {
    h.oi > c.expected && |c.heap| < MAX_ORDERING_HEAP_SIZE
  }

  /** The decoder lets no other channel through (WireFormat.Rejected). */
  predicate ChannelFits(t: TFrame) {
    t.f.reliability.IsOrdered() ==> 0 <= t.f.orderingChannel < NUMBER_OF_ORDERED_STREAMS
  }

  predicate Shaped(r: Receiver) {
    |r.chans| == NUMBER_OF_ORDERED_STREAMS
  }

  /** Ordering, sequencing or direct delivery of a complete message. */
  function Route(r: Receiver, t: TFrame, data: Bytes): (r': Receiver)
    requires Shaped(r) && ChannelFits(t)
    ensures Shaped(r')
  {
    var h, ch := Deliverable(t, data), t.f.orderingChannel;
    if t.f.reliability.IsOrdered() then
      var c := r.chans[ch];
      var c' := Accept(c, h, r.heapCounter + 1);
      r.(chans := r.chans[ch := c'],
         heapCounter := if Bumps(c, h) then r.heapCounter + 1 else r.heapCounter,
         queue := Enqueue(r.queue, c'.out[Min(|c.out|, |c'.out|)..], ch),
         moments := r.moments + Leaving(c'.out[Min(|c.out|, |c'.out|)..], ch),
         handed := r.handed + [t.mid], given := r.given + [data])
    else
      r.(queue := Enqueue(r.queue, [h], ch), moments := r.moments + [Direct(t, data)],
         handed := r.handed + [t.mid], given := r.given + [data])
  }

  function FragmentOf(f: MessageFrame): Fragment {
    Fragment(f.splitId, f.splitCount, f.splitIndex, f.data)
  }

  /** The fragment's identifier names the running tracker of another message. */
  predicate MeetsOther(r: Receiver, t: TFrame) {
    t.f.splitCount <= MAX_SPLIT_PACKET_COUNT && t.f.splitId in r.trackers && t.f.splitId in r.owners
    && r.owners[t.f.splitId] != t.mid
  }

  /** The messages of the trackers that are gone. */
  function OwnersOf(r: Receiver, gone: set<int>): set<nat> {
    set k | k in gone && k in r.owners :: r.owners[k]
  }

  function Reassembled(r: Receiver, t: TFrame, now: real, timeout: real, victim: int): (Receiver, Option<Bytes>) {
    var (ts, out) := Reassemble(r.trackers, FragmentOf(t.f), now, timeout, victim);
    (r.(trackers := ts,
        owners := map k | k in ts :: if k in r.trackers && k in r.owners then r.owners[k] else t.mid,
        discarded := r.discarded + OwnersOf(r, r.trackers.Keys - ts.Keys - {t.f.splitId})
                     + (if t.f.splitCount > MAX_SPLIT_PACKET_COUNT then {t.mid} else {}),
        mixed := r.mixed || MeetsOther(r, t)),
     out)
  }

  /** A frame that passed the duplicate filters. */
  function Dispatch(r: Receiver, t: TFrame, now: real, timeout: real, victim: int): (r': Receiver)
    requires Shaped(r) && ChannelFits(t)
    ensures Shaped(r')
  {
    if t.f.splitCount > 0 then
      var (r1, out) := Reassembled(r, t, now, timeout, victim);
      if out.None? then r1 else Route(r1, t, out.value)
    else Route(r, t, t.f.data)
  }

  /** Dispatching leaves every filter alone. */
  predicate SameFilter(a: Receiver, b: Receiver) {
    a.seen == b.seen && a.refused == b.refused && a.processed == b.processed && a.recent == b.recent
    && a.expected == b.expected && a.acks == b.acks && a.naks == b.naks && |a.chans| == |b.chans|
  }

  lemma DispatchSameFilter(r: Receiver, t: TFrame, now: real, timeout: real, victim: int)
    requires Shaped(r) && ChannelFits(t)
    ensures SameFilter(r, Dispatch(r, t, now, timeout, victim))
  {
  }

  /** The receiver after the reliable-number filter, and whether the frame passed. */
  function Filtered(r: Receiver, t: TFrame): (Receiver, bool) {
    if t.f.reliability.IsReliable() then
      var (seen, isNew) := Mark(r.seen, t.f.reliableNumber);
      if isNew then (r.(seen := seen, processed := r.processed + [t]), true)
      else (r.(refused := if r.seen.Has(t.f.reliableNumber) then r.refused else r.refused + {t.f.reliableNumber}), false)
    else (r.(processed := r.processed + [t]), true)
  }

  function HandleFrame(r: Receiver, t: TFrame, now: real, timeout: real, victim: int): (r': Receiver)
    requires Shaped(r) && ChannelFits(t)
    ensures Shaped(r')
  {
    var (r1, passed) := Filtered(r, t);
    if passed then Dispatch(r1, t, now, timeout, victim) else r1
  }

  lemma HandleFrameFilter(r: Receiver, t: TFrame, now: real, timeout: real, victim: int)
    requires Shaped(r) && ChannelFits(t)
    ensures SameFilter(Filtered(r, t).0, HandleFrame(r, t, now, timeout, victim))
  {
    DispatchSameFilter(Filtered(r, t).0, t, now, timeout, victim);
  }

  function HandleFrames(r: Receiver, ts: seq<TFrame>, now: real, timeout: real, victims: seq<int>): (r': Receiver)
    requires Shaped(r) && |victims| == |ts| && forall t <- ts :: ChannelFits(t)
    ensures Shaped(r')
    decreases |ts|
  {
    if ts == [] then r
    else HandleFrames(HandleFrame(r, ts[0], now, timeout, victims[0]), ts[1..], now, timeout, victims[1..])
  }

  /** Whatever the frames evict at the tracker limit is an oldest tracker. */
  ghost predicate VictimsOk(r: Receiver, ts: seq<TFrame>, now: real, timeout: real, victims: seq<int>)
    requires Shaped(r) && |victims| == |ts| && forall t <- ts :: ChannelFits(t)
    decreases |ts|
  {
    ts == []
    || (VictimOk(r.trackers, FragmentOf(ts[0].f), now, timeout, victims[0])
        && VictimsOk(HandleFrame(r, ts[0], now, timeout, victims[0]), ts[1..], now, timeout, victims[1..]))
  }

  /** Reliable numbers of frames that were never marked. */
  function Unseen(seen: Seen, ts: seq<TFrame>): set<int> {
    set t | t in ts && t.f.reliability.IsReliable() && !seen.Has(t.f.reliableNumber) :: t.f.reliableNumber
  }

  /** Numbers a gap adds to the NAK set. */
  function Missing(recent: Recent, n: int, skipped: nat): set<int> {
    set m | n - skipped <= m < n && !recent.Has(m)
  }

  /** An incoming data datagram numbered n. */
  function HandleData(r: Receiver, n: int, ts: seq<TFrame>, now: real, timeout: real, victims: seq<int>): (r': Receiver)
    requires Shaped(r) && |victims| == |ts| && forall t <- ts :: ChannelFits(t)
    ensures Shaped(r')
  {
    match Congestion.Got(r.expected, n)
    case (_, None) => r
    case (e, Some(skipped)) =>
      var r1 := r.(expected := e, acks := r.acks + {n}, naks := r.naks + Missing(r.recent, n, skipped));
      if r.recent.Has(n) then r1.(refused := r1.refused + Unseen(r.seen, ts))
      else HandleFrames(r1.(recent := Record(r.recent, RECEIVED_WINDOW_SIZE, n)), ts, now, timeout, victims)
  }

  /** Trackers that heard nothing for longer than the timeout are given up. */
  function GivenUp(r: Receiver, now: real, timeout: real): Receiver {
    var ts := Live(r.trackers, now, timeout);
    r.(trackers := ts, discarded := r.discarded + OwnersOf(r, r.trackers.Keys - ts.Keys))
  }

  /** The receiver's share of a tick: pending ACKs and NAKs leave, stale trackers go. */
  function Ticked(r: Receiver, now: real, timeout: real, sendAcks: bool): Receiver {
    GivenUp(r, now, timeout).(acks := if sendAcks then {} else r.acks, naks := {})
  }
}
